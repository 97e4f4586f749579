/**
  `int.TryParse(string, out int)` with its default style (`NumberStyles.Integer`):
  optional leading and trailing white space, an optional '+' or '-' sign, at least one
  decimal digit, and a value that fits in a 32-bit signed integer.
 */
module Int32Text {
  import opened Wrappers
  import opened Text

  const MinInt32: int := -0x8000_0000
  const MaxInt32: int := 0x7FFF_FFFF

  predicate IsInt32(n: int) {
    MinInt32 <= n <= MaxInt32
  }

  /** The white space `NumberStyles.AllowLeadingWhite`/`AllowTrailingWhite` accept:
      U+0009..U+000D and U+0020 (narrower than `char.IsWhiteSpace`). */
  predicate IsNumberWhite(c: char) {
    c == ' ' || ('\t' <= c <= '\r')
  }

  predicate IsDigit(c: char) {
    '0' <= c <= '9'
  }

  predicate AllDigits(s: string) {
    s == [] || (AllDigits(s[..|s| - 1]) && IsDigit(s[|s| - 1]))
  }

  /** A digit string begins with a digit. */
  lemma {:induction false} AllDigitsFirst(s: string)
    requires s != [] && AllDigits(s)
    ensures IsDigit(s[0])
  {
    if |s| > 1 {
      AllDigitsFirst(s[..|s| - 1]);
    }
  }

  function DigitValue(c: char): (d: nat)
    requires IsDigit(c)
    ensures d < 10
  {
    c as int - '0' as int
  }

  /** The character of a single decimal digit. */
  function Digit(d: nat): (c: char)
    requires d < 10
    ensures IsDigit(c) && DigitValue(c) == d
  {
    ('0' as int + d) as char
  }

  /** The value of a string of decimal digits, most significant first. */
  function DigitsValue(ds: string): nat
    requires AllDigits(ds)
  {
    if ds == [] then 0 else DigitsValue(ds[..|ds| - 1]) * 10 + DigitValue(ds[|ds| - 1])
  }

  /** Drops leading number white space. */
  function StripLeading(s: string): string {
    if s != [] && IsNumberWhite(s[0]) then StripLeading(s[1..]) else s
  }

  /** Drops trailing number white space. */
  function StripTrailing(s: string): string {
    if s != [] && IsNumberWhite(s[|s| - 1]) then StripTrailing(s[..|s| - 1]) else s
  }

  /** Stripping trailing white space keeps every character up to the last one that is not. */
  lemma {:induction false} StripTrailingKeeps(s: string, k: nat)
    requires k < |s| && !IsNumberWhite(s[k])
    ensures k < |StripTrailing(s)| && StripTrailing(s)[..k + 1] == s[..k + 1]
  {
    if IsNumberWhite(s[|s| - 1]) {
      StripTrailingKeeps(s[..|s| - 1], k);
      assert s[..|s| - 1][..k + 1] == s[..k + 1];
    }
  }

  /** `int.TryParse(s, out n)`: `Some(n)` on success, `None` when it returns false. */
  function TryParseInt(s: string): (r: Option<int>)
    ensures r.Some? ==> IsInt32(r.value)
  {
    var t := StripTrailing(StripLeading(s));
    var signed := t != [] && (t[0] == '-' || t[0] == '+');
    var digits := if signed then t[1..] else t;
    if digits == [] || !AllDigits(digits) then None
    else
      var magnitude: int := DigitsValue(digits);
      var v: int := if signed && t[0] == '-' then -magnitude else magnitude;
      if IsInt32(v) then Some(v) else None
  }

  /** Decimal digits of a natural number, without leading zeros. */
  function FormatNat(n: nat): (r: string)
    ensures r != [] && AllDigits(r)
    ensures DigitsValue(r) == n
  {
    if n < 10 then
      var r := [Digit(n)];
      assert r[..0] == [];
      r
    else
      var prefix := FormatNat(n / 10);
      var r := prefix + [Digit(n % 10)];
      assert r[..|r| - 1] == prefix;
      r
  }

  /** `n.ToString()` in the invariant culture. */
  function FormatInt(n: int): string {
    if n < 0 then "-" + FormatNat(-n) else FormatNat(n)
  }

  /** Parsing what `FormatInt` prints gives the number back. */
  lemma ParseFormat(n: int)
    requires IsInt32(n)
    ensures TryParseInt(FormatInt(n)) == Some(n)
  {
    var s := FormatInt(n);
    var digits := FormatNat(if n < 0 then -n else n);
    AllDigitsFirst(digits);
    assert !IsNumberWhite(s[0]);
    assert StripLeading(s) == s;
    assert !IsNumberWhite(s[|s| - 1]);
    assert StripTrailing(s) == s;
    if n < 0 {
      assert s[1..] == FormatNat(-n);
    }
  }

  /** A string that starts with "--" never parses as an integer: after the optional
      white space there is at most one sign, and then a digit. */
  lemma DoubleDashDoesNotParse(s: string)
    requires StartsWith(s, "--")
    ensures TryParseInt(s) == None
  {
    assert s[0] == '-' && s[1] == '-';
    assert StripLeading(s) == s;
    StripTrailingKeeps(s, 1);
    var t := StripTrailing(s);
    assert t[..2] == s[..2];
    assert |t| >= 2 && t[0] == '-' && t[1] == '-';
    if AllDigits(t[1..]) {
      AllDigitsFirst(t[1..]);
    }
  }
}
