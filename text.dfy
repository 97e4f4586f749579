/**
  The .NET string operations the scanner relies on, over `string` (= `seq<char>`):
  `char.IsWhiteSpace`, `string.IsNullOrWhiteSpace`, `Trim`, `ToLower`/`ToLowerInvariant`
  (ASCII letters only), ordinal `Contains`, `StartsWith` as a plain prefix test,
  `Split(char)` and `Replace("\r\n", "; ")`.
 */
module Text {

  /** `char.IsWhiteSpace`: U+0009..U+000D, the space separators (category Zs),
      U+0085, and the line and paragraph separators U+2028 and U+2029. */
  predicate IsWhiteSpace(c: char) {
    var n := c as int;
    (0x09 <= n <= 0x0D) || n == 0x20 || n == 0x85 || n == 0xA0 || n == 0x1680
    || (0x2000 <= n <= 0x200A) || n == 0x2028 || n == 0x2029
    || n == 0x202F || n == 0x205F || n == 0x3000
  }

  /** Putting sequences side by side does not depend on the grouping. */
  lemma AppendAssoc<T>(x: seq<T>, y: seq<T>, z: seq<T>)
    ensures x + (y + z) == (x + y) + z
  {
  }

  /** `string.IsNullOrWhiteSpace` of a non-null string: every character is white space. */
  predicate IsBlank(s: string) {
    forall i :: 0 <= i < |s| ==> IsWhiteSpace(s[i])
  }

  /** A string with no white space at either end. */
  predicate IsTrimmed(s: string) {
    s != [] ==> !IsWhiteSpace(s[0]) && !IsWhiteSpace(s[|s| - 1])
  }

  /** The first index at or after `i` that does not hold white space, or `|s|`. */
  function SkipWhite(s: string, i: nat): (r: nat)
    requires i <= |s|
    ensures i <= r <= |s|
    ensures forall k :: i <= k < r ==> IsWhiteSpace(s[k])
    ensures r < |s| ==> !IsWhiteSpace(s[r])
    decreases |s| - i
  {
    if i < |s| && IsWhiteSpace(s[i]) then SkipWhite(s, i + 1) else i
  }

  /** Scanning back from `j` to no lower than `lo`: the end of the part before the
      trailing white space. */
  function SkipWhiteBack(s: string, lo: nat, j: nat): (r: nat)
    requires lo <= j <= |s|
    ensures lo <= r <= j
    ensures forall k :: r <= k < j ==> IsWhiteSpace(s[k])
    ensures r > lo ==> !IsWhiteSpace(s[r - 1])
    decreases j
  {
    if j > lo && IsWhiteSpace(s[j - 1]) then SkipWhiteBack(s, lo, j - 1) else j
  }

  /** Where `Trim(s)` starts inside `s`. */
  function TrimOffset(s: string): nat
    ensures TrimOffset(s) <= |s|
  {
    SkipWhite(s, 0)
  }

  /** Where `Trim(s)` ends inside `s`. */
  function TrimLimit(s: string): nat
    ensures TrimOffset(s) <= TrimLimit(s) <= |s|
  {
    SkipWhiteBack(s, TrimOffset(s), |s|)
  }

  /** `Trim()`: the slice of `s` left when white space is dropped at both ends, scanning
      forward for the start and then back for the end. */
  function Trim(s: string): (r: string)
    ensures |r| <= |s|
  {
    s[TrimOffset(s)..TrimLimit(s)]
  }

  /** What `Trim` keeps and drops: the result has no white space at either end, it is
      empty exactly when `s` is blank, and only white space is dropped. */
  lemma TrimFacts(s: string)
    ensures IsTrimmed(Trim(s))
    ensures Trim(s) == [] <==> IsBlank(s)
    ensures forall i :: 0 <= i < TrimOffset(s) ==> IsWhiteSpace(s[i])
    ensures forall i :: TrimLimit(s) <= i < |s| ==> IsWhiteSpace(s[i])
  {
    var lo, hi := TrimOffset(s), TrimLimit(s);
    if lo < hi {
      assert !IsWhiteSpace(s[lo]) && !IsWhiteSpace(s[hi - 1]);
      assert Trim(s)[0] == s[lo];
    }
  }

  /** A trimmed string is its own trim. */
  lemma TrimOfTrimmed(s: string)
    requires IsTrimmed(s)
    ensures Trim(s) == s
  {
    if s != [] {
      assert !IsWhiteSpace(s[0]) && !IsWhiteSpace(s[|s| - 1]);
    }
    assert s[0..|s|] == s;
  }

  /** `Trim` is idempotent. */
  lemma TrimIdempotent(s: string)
    ensures Trim(Trim(s)) == Trim(s)
  {
    TrimOfTrimmed(Trim(s));
  }

  /** `char.ToLowerInvariant` restricted to ASCII: 'A'..'Z' become 'a'..'z'. */
  function LowerChar(c: char): char {
    if 'A' <= c <= 'Z' then (c as int + 32) as char else c
  }

  /** `ToLower()` / `ToLowerInvariant()`, character by character. */
  function Lower(s: string): (r: string)
    ensures |r| == |s|
  {
    seq(|s|, i requires 0 <= i < |s| => LowerChar(s[i]))
  }

  /** Lower-casing twice is lower-casing once. */
  lemma LowerIdempotent(s: string)
    ensures Lower(Lower(s)) == Lower(s)
  {
  }

  /** A string with no upper-case letter is its own lower-case form. */
  lemma LowerOfLowerCase(s: string)
    requires forall i :: 0 <= i < |s| ==> !('A' <= s[i] <= 'Z')
    ensures Lower(s) == s
  {
    assert |Lower(s)| == |s|;
    forall i | 0 <= i < |s| ensures Lower(s)[i] == s[i] {
      assert Lower(s)[i] == LowerChar(s[i]);
    }
  }

  /** Lower-casing commutes with taking a slice. */
  lemma LowerSlice(s: string, i: int, j: int)
    requires 0 <= i <= j <= |s|
    ensures Lower(s)[i..j] == Lower(s[i..j])
  {
  }

  /** Lower-casing neither adds nor removes white space. */
  lemma LowerKeepsWhiteSpace(s: string)
    ensures forall i :: 0 <= i < |s| ==> (IsWhiteSpace(Lower(s)[i]) <==> IsWhiteSpace(s[i]))
  {
  }

  /** Lower-casing a trimmed string leaves it trimmed, so it commutes with `Trim`. */
  lemma LowerOfTrimmed(s: string)
    requires IsTrimmed(s)
    ensures IsTrimmed(Lower(s)) && Trim(Lower(s)) == Lower(s)
  {
    LowerKeepsWhiteSpace(s);
    TrimOfTrimmed(Lower(s));
  }

  /** `a.Equals(b, StringComparison.OrdinalIgnoreCase)` for ASCII case. */
  predicate EqualsIgnoreCase(a: string, b: string) {
    Lower(a) == Lower(b)
  }

  /** `p` occurs in `s` at position `i`. */
  predicate OccursAt(s: string, p: string, i: int) {
    0 <= i && i + |p| <= |s| && s[i..i + |p|] == p
  }

  /** Ordinal `s.Contains(p)`; the empty string occurs in every string. */
  predicate Contains(s: string, p: string) {
    exists i | 0 <= i <= |s| - |p| :: OccursAt(s, p, i)
  }

  /** `s.StartsWith(p)` as a character-by-character prefix test. The .NET overload the
      scanner calls with a `string` argument compares by the current culture, which also
      skips ignorable characters such as the soft hyphen; that is not modelled. */
  predicate StartsWith(s: string, p: string) {
    |p| <= |s| && s[..|p|] == p
  }

  /** `s` contains the character `c`. */
  lemma ContainsChar(s: string, c: char)
    ensures Contains(s, [c]) <==> c in s
  {
    if c in s {
      var i :| 0 <= i < |s| && s[i] == c;
      assert OccursAt(s, [c], i);
    }
    if Contains(s, [c]) {
      var i :| 0 <= i <= |s| - 1 && OccursAt(s, [c], i);
      assert s[i] == s[i..i + 1][0];
    }
  }

  /** `s.Split(sep)`: the pieces between separators, empty ones included,
      so there is always one more piece than there are separators. */
  function Split(s: string, sep: char): (r: seq<string>)
    ensures |r| >= 1
  {
    if s == [] then [""]
    else if s[0] == sep then [""] + Split(s[1..], sep)
    else
      var rest := Split(s[1..], sep);
      [[s[0]] + rest[0]] + rest[1..]
  }

  /** No piece of a split holds the separator. */
  lemma {:induction false} SplitPiecesAvoid(s: string, sep: char)
    ensures forall k :: 0 <= k < |Split(s, sep)| ==> sep !in Split(s, sep)[k]
  {
    if s != [] {
      SplitPiecesAvoid(s[1..], sep);
    }
  }

  /** `string.Join(sep, pieces)`. */
  function Join(pieces: seq<string>, sep: string): string {
    if pieces == [] then ""
    else if |pieces| == 1 then pieces[0]
    else pieces[0] + sep + Join(pieces[1..], sep)
  }

  /** Joining the pieces of a split gives back the string. */
  lemma {:induction false} JoinSplit(s: string, sep: char)
    ensures Join(Split(s, sep), [sep]) == s
  {
    if s == [] {
    } else if s[0] == sep {
      JoinSplit(s[1..], sep);
      assert s == [sep] + s[1..];
    } else {
      var rest := Split(s[1..], sep);
      JoinSplit(s[1..], sep);
      if |rest| == 1 {
        assert s == [s[0]] + rest[0];
      } else {
        assert Join(rest, [sep]) == rest[0] + [sep] + Join(rest[1..], [sep]);
        assert s == [s[0]] + rest[0] + [sep] + Join(rest[1..], [sep]);
      }
    }
  }

  /** Splitting a join of separator-free pieces gives back the pieces. */
  lemma {:induction false} SplitJoin(pieces: seq<string>, sep: char)
    requires |pieces| >= 1
    requires forall k :: 0 <= k < |pieces| ==> sep !in pieces[k]
    ensures Split(Join(pieces, [sep]), sep) == pieces
  {
    if |pieces| == 1 {
      SplitNoSep(pieces[0], sep);
    } else {
      SplitJoin(pieces[1..], sep);
      SplitAfterPiece(pieces[0], Join(pieces[1..], [sep]), sep);
      assert Join(pieces, [sep]) == pieces[0] + ([sep] + Join(pieces[1..], [sep]));
      assert [pieces[0]] + pieces[1..] == pieces;
    }
  }

  /** A string without the separator splits into itself. */
  lemma {:induction false} SplitNoSep(s: string, sep: char)
    requires sep !in s
    ensures Split(s, sep) == [s]
  {
    if s != [] {
      SplitNoSep(s[1..], sep);
      assert [s[0]] + s[1..] == s;
    }
  }

  /** A separator-free piece followed by the separator splits off as the first piece. */
  lemma {:induction false} SplitAfterPiece(p: string, t: string, sep: char)
    requires sep !in p
    ensures Split(p + [sep] + t, sep) == [p] + Split(t, sep)
  {
    if p == [] {
      assert p + [sep] + t == [sep] + t;
      assert ([sep] + t)[1..] == t;
    } else {
      SplitAfterPiece(p[1..], t, sep);
      var s := p + [sep] + t;
      assert s[0] == p[0] && s[1..] == p[1..] + [sep] + t;
      assert [p[0]] + p[1..] == p;
    }
  }

  /** `\r\n` begins at position `i` of `s`. */
  predicate CrLfAt(s: string, i: int) {
    0 <= i && i + 1 < |s| && s[i] == '\r' && s[i + 1] == '\n'
  }

  /** `s.Replace("\r\n", "; ")`: every CR LF pair, scanned left to right, becomes "; ". */
  function ReplaceCrLf(s: string): (r: string)
    ensures r != [] ==> s != [] && r[0] == (if CrLfAt(s, 0) then ';' else s[0])
    ensures r == [] ==> s == []
  {
    if |s| >= 2 && s[0] == '\r' && s[1] == '\n' then "; " + ReplaceCrLf(s[2..])
    else if s == [] then []
    else [s[0]] + ReplaceCrLf(s[1..])
  }

  /** No CR LF pair survives the replacement. */
  lemma {:induction false} ReplaceCrLfRemovesAll(s: string)
    ensures forall i :: !CrLfAt(ReplaceCrLf(s), i)
  {
    var r := ReplaceCrLf(s);
    if CrLfAt(s, 0) {
      ReplaceCrLfRemovesAll(s[2..]);
      assert forall i :: 2 <= i < |r| ==> r[i] == ReplaceCrLf(s[2..])[i - 2];
      forall i ensures !CrLfAt(r, i) {
        if 2 <= i {
          assert !CrLfAt(ReplaceCrLf(s[2..]), i - 2);
        }
      }
    } else if s != [] {
      ReplaceCrLfRemovesAll(s[1..]);
      var t := ReplaceCrLf(s[1..]);
      assert forall i :: 1 <= i < |r| ==> r[i] == t[i - 1];
      forall i ensures !CrLfAt(r, i) {
        if 1 <= i {
          assert !CrLfAt(t, i - 1);
        }
      }
    }
  }

  /** A string without CR leaves the replacement unchanged. */
  lemma {:induction false} ReplaceCrLfNoCr(s: string)
    requires '\r' !in s
    ensures ReplaceCrLf(s) == s
  {
    if s != [] {
      ReplaceCrLfNoCr(s[1..]);
      assert [s[0]] + s[1..] == s;
    }
  }

  /** A prefix without CR is kept as it is. */
  lemma {:induction false} ReplaceCrLfKeepsPrefix(line: string, u: string)
    requires '\r' !in line
    ensures ReplaceCrLf(line + u) == line + ReplaceCrLf(u)
  {
    if line == [] {
      assert line + u == u;
    } else {
      var s, x := line + u, ReplaceCrLf(u);
      ReplaceCrLfKeepsPrefix(line[1..], u);
      assert s[0] == line[0] != '\r' && s[1..] == line[1..] + u;
      assert ReplaceCrLf(s) == [line[0]] + (line[1..] + x);
      assert [line[0]] + line[1..] == line;
    }
  }

  /** A line without CR followed by CR LF: the pair becomes "; " and the line is kept. */
  lemma ReplaceCrLfAfterLine(line: string, t: string)
    requires '\r' !in line
    ensures ReplaceCrLf(line + "\r\n" + t) == line + "; " + ReplaceCrLf(t)
  {
    var u := "\r\n" + t;
    ReplaceCrLfKeepsPrefix(line, u);
    assert line + "\r\n" + t == line + u;
    assert u[2..] == t;
    assert ReplaceCrLf(u) == "; " + ReplaceCrLf(t);
  }

  /** Lines without CR joined by CR LF come out joined by "; ". */
  lemma {:induction false} ReplaceCrLfJoin(lines: seq<string>)
    requires forall k :: 0 <= k < |lines| ==> '\r' !in lines[k]
    ensures ReplaceCrLf(Join(lines, "\r\n")) == Join(lines, "; ")
  {
    if |lines| == 1 {
      ReplaceCrLfNoCr(lines[0]);
    } else if |lines| >= 2 {
      ReplaceCrLfJoin(lines[1..]);
      ReplaceCrLfAfterLine(lines[0], Join(lines[1..], "\r\n"));
    }
  }

  /** A prefix of the first piece is a prefix of the join. */
  lemma JoinPrefixFirst(p: string, x: string, rest: seq<string>, sep: string)
    ensures Join([p + x] + rest, sep) == p + Join([x] + rest, sep)
  {
    if rest != [] {
      assert ([p + x] + rest)[1..] == rest && ([x] + rest)[1..] == rest;
    }
  }

  /** Each piece with a space put before it. */
  function Indent(pieces: seq<string>): (r: seq<string>)
    ensures |r| == |pieces|
    ensures forall k :: 0 <= k < |r| ==> r[k] == " " + pieces[k]
  {
    if pieces == [] then [] else [" " + pieces[0]] + Indent(pieces[1..])
  }

  /** Joining with "; " is joining with ';' once every piece but the first starts with a space. */
  lemma {:induction false} JoinSemicolonSpace(lines: seq<string>)
    requires |lines| >= 1
    ensures Join(lines, "; ") == Join([lines[0]] + Indent(lines[1..]), ";")
  {
    if |lines| >= 2 {
      var rest := lines[1..];
      JoinSemicolonSpace(rest);
      JoinPrefixFirst(" ", rest[0], Indent(rest[1..]), ";");
      assert Indent(rest) == [" " + rest[0]] + Indent(rest[1..]);
      var spaced := [lines[0]] + Indent(rest);
      assert spaced[1..] == Indent(rest);
      assert lines[0] + "; " + Join(rest, "; ") == lines[0] + ";" + (" " + Join(rest, "; "));
    }
  }

  /** Trimming a space off a trimmed, non-empty string. */
  lemma TrimLeadingSpace(l: string)
    requires l != [] && IsTrimmed(l)
    ensures Trim(" " + l) == l
  {
    var s := " " + l;
    assert s[1] == l[0] && s[|s| - 1] == l[|l| - 1];
    assert SkipWhite(s, 1) == 1;
    assert TrimOffset(s) == 1;
    assert TrimLimit(s) == |s|;
    assert s[1..] == l;
  }

  /** A join of non-empty pieces begins with the first piece's first character and ends
      with the last piece's last character. */
  lemma {:induction false} JoinEnds(pieces: seq<string>, sep: string)
    requires |pieces| >= 1
    requires forall k :: 0 <= k < |pieces| ==> pieces[k] != []
    ensures var j := Join(pieces, sep);
      && j != []
      && j[0] == pieces[0][0]
      && j[|j| - 1] == pieces[|pieces| - 1][|pieces[|pieces| - 1]| - 1]
  {
    if |pieces| >= 2 {
      JoinEnds(pieces[1..], sep);
    }
  }
}
