/**
  The three-tier verdict on ffmpeg's error output: no output is clean; otherwise a
  major pattern found in the lower-cased output makes it major, and anything else is
  minor, whether a minor pattern is found or not. The text kept for the report is the
  trimmed output with every CR LF replaced by "; ".
 */
module Classification {
  import opened Text

  datatype Severity = Clean | Minor | Major

  /** `patterns.Any(p => text.Contains(p))`. */
  function AnyContains(text: string, patterns: seq<string>): (r: bool)
    ensures r <==> exists k :: 0 <= k < |patterns| && Contains(text, patterns[k])
  {
    if patterns == [] then false
    else if Contains(text, patterns[0]) then true
    else
      var r := AnyContains(text, patterns[1..]);
      assert forall k :: 1 <= k < |patterns| ==> patterns[k] == patterns[1..][k - 1];
      r
  }

  /** Some pattern of the list occurs in the lower-cased output. */
  predicate Found(stderr: string, patterns: seq<string>) {
    exists k :: 0 <= k < |patterns| && Contains(Lower(stderr), patterns[k])
  }

  /** The verdict of lines 261-281 on the output `stderr`. */
  function Classify(stderr: string, majors: seq<string>, minors: seq<string>): (s: Severity)
    ensures s == Clean <==> stderr == []
    ensures s == Major <==> stderr != [] && Found(stderr, majors)
    ensures s == Minor <==> stderr != [] && !Found(stderr, majors)
  {
    if stderr == [] then Clean
    else
      var errLower := Lower(stderr);
      if AnyContains(errLower, majors) then Major
      else if AnyContains(errLower, minors) then Minor
      else Minor
  }

  /** The minor patterns never change the verdict: without a major match, output that
      matches a minor pattern and output that matches none are both minor. */
  lemma MinorPatternsDoNotDecide(stderr: string, majors: seq<string>, minors: seq<string>, others: seq<string>)
    ensures Classify(stderr, majors, minors) == Classify(stderr, majors, others)
  {
    var a, b := Classify(stderr, majors, minors), Classify(stderr, majors, others);
    if stderr == [] {
      assert a == Clean && b == Clean;
    } else if Found(stderr, majors) {
      assert a == Major && b == Major;
    } else {
      assert a == Minor && b == Minor;
    }
  }

  /** The verdict depends on the output only up to ASCII case. */
  lemma ClassifyIgnoresCase(stderr: string, other: string, majors: seq<string>, minors: seq<string>)
    requires EqualsIgnoreCase(stderr, other)
    ensures Classify(stderr, majors, minors) == Classify(other, majors, minors)
  {
    assert |stderr| == |Lower(stderr)| == |Lower(other)| == |other|;
  }

  /** More major patterns can only raise the verdict to major: a file that is major stays
      major when patterns are added to either list. */
  lemma MajorPersists(stderr: string, majors: seq<string>, minors: seq<string>, moreMajors: seq<string>, moreMinors: seq<string>)
    requires Classify(stderr, majors, minors) == Major
    ensures Classify(stderr, majors + moreMajors, minors + moreMinors) == Major
  {
    var k :| 0 <= k < |majors| && Contains(Lower(stderr), majors[k]);
    assert (majors + moreMajors)[k] == majors[k];
  }

  /** `errors.Trim().Replace("\r\n", "; ")`: the text recorded for a file with output. */
  function ErrorInfo(stderr: string): (info: string)
    ensures forall i :: !CrLfAt(info, i)
    ensures info == [] <==> IsBlank(stderr)
  {
    var t := Trim(stderr);
    TrimFacts(stderr);
    ReplaceCrLfRemovesAll(t);
    ReplaceCrLf(t)
  }

  /** Output with no white space at either end is recorded with only its CR LFs replaced. */
  lemma ErrorInfoOfTrimmed(stderr: string)
    requires IsTrimmed(stderr)
    ensures ErrorInfo(stderr) == ReplaceCrLf(stderr)
  {
    TrimOfTrimmed(stderr);
  }
}
