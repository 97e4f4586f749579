/**
  The error-pattern lists: each pattern file is read line by line, blank lines are
  dropped and every other line is trimmed and lower-cased; a missing file gives no
  patterns. Reading the file is an input: `None` stands for a file that does not exist.
 */
module Patterns {
  import opened Wrappers
  import opened Text

  /** What a loaded pattern looks like: non-empty, trimmed and lower-case. */
  predicate IsPattern(p: string) {
    p != [] && IsTrimmed(p) && Lower(p) == p
  }

  /** The pattern one line of a pattern file becomes. */
  function Normalize(line: string): string {
    Lower(Trim(line))
  }

  /** A non-blank line becomes a well-formed pattern. */
  lemma NormalizeIsPattern(line: string)
    requires !IsBlank(line)
    ensures IsPattern(Normalize(line))
  {
    TrimFacts(line);
    LowerOfTrimmed(Trim(line));
    LowerIdempotent(Trim(line));
  }

  /** `lines.Where(l => !string.IsNullOrWhiteSpace(l)).Select(l => l.Trim().ToLowerInvariant())`. */
  function NormalizeLines(lines: seq<string>): (r: seq<string>)
    ensures |r| <= |lines|
  {
    if lines == [] then []
    else if IsBlank(lines[0]) then NormalizeLines(lines[1..])
    else [Normalize(lines[0])] + NormalizeLines(lines[1..])
  }

  /** Every normalised line is a well-formed pattern. */
  lemma {:induction false} NormalizeLinesArePatterns(lines: seq<string>)
    ensures forall k :: 0 <= k < |NormalizeLines(lines)| ==> IsPattern(NormalizeLines(lines)[k])
  {
    if lines != [] {
      NormalizeLinesArePatterns(lines[1..]);
      if !IsBlank(lines[0]) {
        NormalizeIsPattern(lines[0]);
      }
    }
  }

  /** `LoadPatterns(fileName)` once the file has been read: no patterns for a missing file,
      otherwise one per non-blank line. */
  function LoadPatterns(file: Option<seq<string>>): (r: seq<string>)
    ensures file.None? ==> r == []
    ensures forall k :: 0 <= k < |r| ==> IsPattern(r[k])
    ensures file.Some? ==> |r| <= |file.value|
  {
    match file
    case None => []
    case Some(lines) =>
      NormalizeLinesArePatterns(lines);
      NormalizeLines(lines)
  }

  /** The lines of a file are normalised one by one and in order: normalising two parts and
      putting the results side by side is normalising the whole. */
  lemma {:induction false} NormalizeAppend(a: seq<string>, b: seq<string>)
    ensures NormalizeLines(a + b) == NormalizeLines(a) + NormalizeLines(b)
  {
    if a != [] {
      NormalizeAppend(a[1..], b);
      assert (a + b)[0] == a[0] && (a + b)[1..] == a[1..] + b;
    } else {
      assert a + b == b;
    }
  }

  /** A pattern is loaded exactly when some non-blank line normalises to it. */
  lemma {:induction false} NormalizeMembers(lines: seq<string>, p: string)
    ensures p in NormalizeLines(lines)
        <==> exists k :: 0 <= k < |lines| && !IsBlank(lines[k]) && Normalize(lines[k]) == p
  {
    if lines != [] {
      NormalizeMembers(lines[1..], p);
      if exists k :: 0 <= k < |lines| && !IsBlank(lines[k]) && Normalize(lines[k]) == p {
        var k :| 0 <= k < |lines| && !IsBlank(lines[k]) && Normalize(lines[k]) == p;
        if k > 0 {
          assert lines[1..][k - 1] == lines[k];
        }
      }
      if p in NormalizeLines(lines[1..]) {
        var k :| 0 <= k < |lines[1..]| && !IsBlank(lines[1..][k]) && Normalize(lines[1..][k]) == p;
        assert lines[k + 1] == lines[1..][k];
      }
    }
  }

  /** The number of patterns is the number of non-blank lines. */
  function NonBlankCount(lines: seq<string>): nat {
    if lines == [] then 0
    else (if IsBlank(lines[0]) then 0 else 1) + NonBlankCount(lines[1..])
  }

  lemma {:induction false} NormalizeCount(lines: seq<string>)
    ensures |NormalizeLines(lines)| == NonBlankCount(lines)
  {
    if lines != [] {
      NormalizeCount(lines[1..]);
    }
  }

  /** A loaded pattern normalises to itself, so loading a list of loaded patterns is the
      identity. */
  lemma PatternIsNormal(p: string)
    requires IsPattern(p)
    ensures !IsBlank(p) && Normalize(p) == p
  {
    assert !IsWhiteSpace(p[0]);
    TrimOfTrimmed(p);
  }

  lemma {:induction false} NormalizeIdempotent(lines: seq<string>)
    ensures NormalizeLines(NormalizeLines(lines)) == NormalizeLines(lines)
  {
    if lines != [] {
      NormalizeIdempotent(lines[1..]);
      if !IsBlank(lines[0]) {
        var r := NormalizeLines(lines);
        PatternIsNormal(r[0]);
        assert r[1..] == NormalizeLines(lines[1..]);
      }
    }
  }

  /** The slice of `text` at `i` equals `t` ignoring case. */
  predicate MatchesIgnoringCaseAt(text: string, t: string, i: int) {
    0 <= i <= |text| - |t| && EqualsIgnoreCase(text[i..i + |t|], t)
  }

  /** Matching a loaded pattern against lower-cased text is a case-insensitive search for
      the trimmed line: `Lower(text)` contains `Normalize(line)` exactly when some slice
      of `text` equals the trimmed line ignoring case. */
  lemma MatchIgnoresCase(text: string, line: string)
    ensures Contains(Lower(text), Normalize(line))
        <==> (exists i :: MatchesIgnoringCaseAt(text, Trim(line), i))
  {
    var t := Trim(line);
    var p := Normalize(line);
    if Contains(Lower(text), p) {
      var i :| 0 <= i <= |Lower(text)| - |p| && OccursAt(Lower(text), p, i);
      LowerSlice(text, i, i + |t|);
      assert MatchesIgnoringCaseAt(text, t, i);
    }
    if exists i :: MatchesIgnoringCaseAt(text, t, i) {
      var i :| MatchesIgnoringCaseAt(text, t, i);
      LowerSlice(text, i, i + |t|);
      assert OccursAt(Lower(text), p, i);
    }
  }
}
