/**
  The scan report, as the sequence of lines the writer receives: the major entries, the
  minor entries and the clean files, each under its header and in that order. An entry
  is its file, an "Error(s):" line, one bullet per non-empty trimmed ';'-separated piece
  of its recorded text, and an empty line; a clean file is its bare path.
 */
module Report {
  import opened Wrappers
  import opened Text
  import opened Classification

  /** A file and the text recorded for it. */
  datatype Entry = Entry(file: string, info: string)

  /** What a reader of the report learns about an entry. */
  datatype Summary = Summary(file: string, bullets: seq<string>)

  const MajorHeader: string := "=== MAJOR ERRORS ==="
  const MinorHeader: string := "=== MINOR ERRORS ==="
  const CleanHeader: string := "=== CLEAN FILES ==="
  const FilePrefix: string := "File: "
  const ErrorsLine: string := "Error(s):"
  const BulletPrefix: string := "  - "

  /** Each piece trimmed. */
  function TrimAll(pieces: seq<string>): (r: seq<string>)
    ensures |r| == |pieces|
  {
    seq(|pieces|, k requires 0 <= k < |pieces| => Trim(pieces[k]))
  }

  /** The strings that are not empty, in order. */
  function NonEmpty(ts: seq<string>): (r: seq<string>)
    ensures |r| <= |ts|
  {
    if ts == [] then []
    else
      var last := ts[|ts| - 1];
      NonEmpty(ts[..|ts| - 1]) + (if last == [] then [] else [last])
  }

  /** Every string kept is one of those given, and none is empty. */
  lemma {:induction false} NonEmptyFrom(ts: seq<string>)
    ensures forall k :: 0 <= k < |NonEmpty(ts)| ==> NonEmpty(ts)[k] != [] && NonEmpty(ts)[k] in ts
  {
    if ts != [] {
      var init := ts[..|ts| - 1];
      NonEmptyFrom(init);
      assert forall x :: x in init ==> x in ts;
    }
  }

  /** The bullets of an entry: the pieces of `info.Split(';')`, trimmed, empty ones left out. */
  function Bullets(info: string): (r: seq<string>)
    ensures |r| <= |Split(info, ';')|
  {
    NonEmpty(TrimAll(Split(info, ';')))
  }

  /** No bullet is empty, none has white space at either end and none holds a ';'. */
  lemma BulletsShape(info: string)
    ensures forall k :: 0 <= k < |Bullets(info)| ==>
              var b := Bullets(info)[k]; b != [] && IsTrimmed(b) && ';' !in b
  {
    var pieces := Split(info, ';');
    SplitPiecesAvoid(info, ';');
    var trimmed := TrimAll(pieces);
    NonEmptyFrom(trimmed);
    forall k | 0 <= k < |trimmed| ensures IsTrimmed(trimmed[k]) && ';' !in trimmed[k] {
      TrimFacts(pieces[k]);
      assert trimmed[k] == pieces[k][TrimOffset(pieces[k])..TrimLimit(pieces[k])];
    }
  }

  function BulletLines(bullets: seq<string>): (r: seq<string>)
    ensures |r| == |bullets|
  {
    seq(|bullets|, k requires 0 <= k < |bullets| => BulletPrefix + bullets[k])
  }

  function Summarize(e: Entry): Summary {
    Summary(e.file, Bullets(e.info))
  }

  function Summaries(es: seq<Entry>): (r: seq<Summary>)
    ensures |r| == |es|
  {
    seq(|es|, k requires 0 <= k < |es| => Summarize(es[k]))
  }

  function EntryLines(s: Summary): seq<string> {
    [FilePrefix + s.file, ErrorsLine] + BulletLines(s.bullets) + [""]
  }

  /** Blocks of lines, one after the other. */
  function Concat(blocks: seq<seq<string>>): seq<string> {
    if blocks == [] then [] else blocks[0] + Concat(blocks[1..])
  }

  /** The lines of each entry, as separate blocks. */
  function EntryBlocks(ss: seq<Summary>): (r: seq<seq<string>>)
    ensures |r| == |ss|
  {
    seq(|ss|, k requires 0 <= k < |ss| => EntryLines(ss[k]))
  }

  function EntriesLines(ss: seq<Summary>): seq<string> {
    Concat(EntryBlocks(ss))
  }

  /** The whole report, from the summaries of the major entries and of the minor entries
      and the clean files, each in the order their bag is enumerated. */
  function ReportLines(majors: seq<Summary>, minors: seq<Summary>, cleans: seq<string>): seq<string> {
    [MajorHeader] + EntriesLines(majors) + [MinorHeader] + EntriesLines(minors) + [CleanHeader] + cleans
  }

  // ---- The writer, as the source runs it: loops appending lines ----

  /** The inner loop of lines 359-365: one bullet line per non-empty trimmed piece. */
  method WriteBullets(info: string) returns (lines: seq<string>)
    ensures lines == BulletLines(Bullets(info))
  {
    lines := [];
    var pieces := Split(info, ';');
    for j := 0 to |pieces|
      invariant lines == BulletLines(NonEmpty(TrimAll(pieces[..j])))
    {
      var trimmed := Trim(pieces[j]);
      BulletStep(pieces, j, trimmed);
      if trimmed != [] {
        lines := lines + [BulletPrefix + trimmed];
      }
    }
    assert pieces[..|pieces|] == pieces;
  }

  /** One loop of lines 355-366 (or 369-380): the lines of each entry in turn. */
  method WriteEntries(es: seq<Entry>) returns (lines: seq<string>)
    ensures lines == EntriesLines(Summaries(es))
  {
    lines := [];
    for i := 0 to |es|
      invariant lines == EntriesLines(Summaries(es[..i]))
    {
      var e := es[i];
      var bullets := WriteBullets(e.info);
      EntryStep(es, i, bullets);
      lines := lines + ([FilePrefix + e.file, ErrorsLine] + bullets + [""]);
    }
    assert es[..|es|] == es;
  }

  /** Lines 353-384: the three sections in order. */
  method WriteReport(majors: seq<Entry>, minors: seq<Entry>, cleans: seq<string>) returns (lines: seq<string>)
    ensures lines == ReportLines(Summaries(majors), Summaries(minors), cleans)
  {
    lines := [MajorHeader];
    var majorLines := WriteEntries(majors);
    lines := lines + majorLines;
    lines := lines + [MinorHeader];
    var minorLines := WriteEntries(minors);
    lines := lines + minorLines;
    lines := lines + [CleanHeader];
    lines := WriteLines(lines, cleans);
  }

  /** Writes the given lines, one after the other, after those already written. */
  method WriteLines(written: seq<string>, items: seq<string>) returns (lines: seq<string>)
    ensures lines == written + items
  {
    lines := written;
    for i := 0 to |items|
      invariant lines == written + items[..i]
    {
      lines := lines + [items[i]];
      assert items[..i + 1] == items[..i] + [items[i]];
    }
    assert items[..|items|] == items;
  }

  /** One more piece adds its bullet line, if it has one. */
  lemma BulletStep(pieces: seq<string>, j: nat, trimmed: string)
    requires j < |pieces| && trimmed == Trim(pieces[j])
    ensures BulletLines(NonEmpty(TrimAll(pieces[..j + 1])))
         == BulletLines(NonEmpty(TrimAll(pieces[..j]))) + (if trimmed == [] then [] else [BulletPrefix + trimmed])
  {
    TrimAllSnoc(pieces[..j], pieces[j]);
    assert pieces[..j + 1] == pieces[..j] + [pieces[j]];
    NonEmptySnoc(TrimAll(pieces[..j]), trimmed);
    BulletLinesAppend(NonEmpty(TrimAll(pieces[..j])), if trimmed == [] then [] else [trimmed]);
  }

  /** One more entry adds its heading, its bullet lines and an empty line. */
  lemma EntryStep(es: seq<Entry>, i: nat, bullets: seq<string>)
    requires i < |es| && bullets == BulletLines(Bullets(es[i].info))
    ensures EntriesLines(Summaries(es[..i + 1]))
         == EntriesLines(Summaries(es[..i])) + ([FilePrefix + es[i].file, ErrorsLine] + bullets + [""])
  {
    SummariesSnoc(es[..i], es[i]);
    EntriesLinesSnoc(Summaries(es[..i]), Summarize(es[i]));
    assert es[..i + 1] == es[..i] + [es[i]];
  }

  lemma TrimAllSnoc(pieces: seq<string>, p: string)
    ensures TrimAll(pieces + [p]) == TrimAll(pieces) + [Trim(p)]
  {
    var l, r := TrimAll(pieces + [p]), TrimAll(pieces) + [Trim(p)];
    forall k | 0 <= k < |l| ensures l[k] == r[k] {
      assert (pieces + [p])[k] == if k < |pieces| then pieces[k] else p;
    }
  }

  lemma NonEmptySnoc(ts: seq<string>, t: string)
    ensures NonEmpty(ts + [t]) == NonEmpty(ts) + (if t == [] then [] else [t])
  {
    assert (ts + [t])[..|ts|] == ts;
  }

  lemma BulletLinesAppend(a: seq<string>, b: seq<string>)
    ensures BulletLines(a + b) == BulletLines(a) + BulletLines(b)
  {
    var l, r := BulletLines(a + b), BulletLines(a) + BulletLines(b);
    forall k | 0 <= k < |l| ensures l[k] == r[k] {
      if k < |a| {
        assert (a + b)[k] == a[k];
      } else {
        assert (a + b)[k] == b[k - |a|];
      }
    }
  }

  lemma SummariesSnoc(es: seq<Entry>, e: Entry)
    ensures Summaries(es + [e]) == Summaries(es) + [Summarize(e)]
  {
    var l, r := Summaries(es + [e]), Summaries(es) + [Summarize(e)];
    forall k | 0 <= k < |l| ensures l[k] == r[k] {
      assert (es + [e])[k] == if k < |es| then es[k] else e;
    }
  }

  /** Concatenating two runs of blocks is concatenating their concatenations. */
  lemma {:induction false} ConcatAppend(a: seq<seq<string>>, b: seq<seq<string>>)
    ensures Concat(a + b) == Concat(a) + Concat(b)
  {
    if a == [] {
      assert a + b == b;
    } else {
      ConcatAppend(a[1..], b);
      assert (a + b)[0] == a[0] && (a + b)[1..] == a[1..] + b;
      AppendAssoc(a[0], Concat(a[1..]), Concat(b));
    }
  }

  /** One more entry adds its lines at the end. */
  lemma EntriesLinesSnoc(ss: seq<Summary>, s: Summary)
    ensures EntriesLines(ss + [s]) == EntriesLines(ss) + EntryLines(s)
  {
    var l, r := EntryBlocks(ss + [s]), EntryBlocks(ss) + [EntryLines(s)];
    forall k | 0 <= k < |l| ensures l[k] == r[k] {
      assert (ss + [s])[k] == if k < |ss| then ss[k] else s;
    }
    assert l == r;
    ConcatAppend(EntryBlocks(ss), [EntryLines(s)]);
    assert Concat([EntryLines(s)]) == EntryLines(s) + Concat([]);
  }

  /** The first entry's lines come first. */
  lemma EntriesLinesCons(ss: seq<Summary>)
    requires ss != []
    ensures EntriesLines(ss) == EntryLines(ss[0]) + EntriesLines(ss[1..])
  {
    assert EntryBlocks(ss)[1..] == EntryBlocks(ss[1..]);
  }

  // ---- Reading the report back ----

  /** Bullet lines up to the empty line that ends an entry. */
  function DecodeBullets(lines: seq<string>): (r: Option<(seq<string>, seq<string>)>)
    ensures r.Some? ==> |r.value.1| < |lines|
  {
    if lines == [] then None
    else if lines[0] == "" then Some(([], lines[1..]))
    else if StartsWith(lines[0], BulletPrefix) then
      match DecodeBullets(lines[1..])
      case None => None
      case Some((bullets, rest)) => Some(([lines[0][|BulletPrefix|..]] + bullets, rest))
    else None
  }

  /** Entries up to the line `header` that opens the next section. */
  function DecodeEntries(lines: seq<string>, header: string): Option<(seq<Summary>, seq<string>)>
    decreases |lines|
  {
    if lines == [] then None
    else if lines[0] == header then Some(([], lines[1..]))
    else if |lines| >= 2 && StartsWith(lines[0], FilePrefix) && lines[1] == ErrorsLine then
      match DecodeBullets(lines[2..])
      case None => None
      case Some((bullets, rest)) =>
        match DecodeEntries(rest, header)
        case None => None
        case Some((entries, after)) => Some(([Summary(lines[0][|FilePrefix|..], bullets)] + entries, after))
    else None
  }

  /** The major summaries, the minor summaries and the clean files of a report. */
  function DecodeReport(lines: seq<string>): Option<(seq<Summary>, seq<Summary>, seq<string>)> {
    if lines == [] || lines[0] != MajorHeader then None
    else
      match DecodeEntries(lines[1..], MinorHeader)
      case None => None
      case Some((majors, rest)) =>
        match DecodeEntries(rest, CleanHeader)
        case None => None
        case Some((minors, cleans)) => Some((majors, minors, cleans))
  }

  lemma {:induction false} DecodeBulletLines(bullets: seq<string>, rest: seq<string>)
    ensures DecodeBullets(BulletLines(bullets) + [""] + rest) == Some((bullets, rest))
  {
    var lines := BulletLines(bullets) + [""] + rest;
    if bullets == [] {
      assert lines == [""] + rest;
    } else {
      DecodeBulletLines(bullets[1..], rest);
      var line := BulletPrefix + bullets[0];
      assert BulletLines(bullets)[1..] == BulletLines(bullets[1..]);
      assert lines[0] == line && lines[1..] == BulletLines(bullets[1..]) + [""] + rest;
      assert line != "" && StartsWith(line, BulletPrefix) && line[|BulletPrefix|..] == bullets[0];
      assert [bullets[0]] + bullets[1..] == bullets;
    }
  }

  /** One entry's lines in front of the rest are read as that entry, then the rest. */
  lemma DecodeOneEntry(s: Summary, after: seq<string>, header: string)
    requires !StartsWith(header, FilePrefix)
    ensures DecodeEntries(EntryLines(s) + after, header)
         == match DecodeEntries(after, header)
            case None => None
            case Some((entries, rest)) => Some(([s] + entries, rest))
  {
    var lines := EntryLines(s) + after;
    var first := FilePrefix + s.file;
    DecodeBulletLines(s.bullets, after);
    assert StartsWith(first, FilePrefix) && first[|FilePrefix|..] == s.file;
    assert first != header;
    assert lines[0] == first && lines[1] == ErrorsLine;
    assert lines[2..] == BulletLines(s.bullets) + [""] + after;
  }

  lemma {:induction false} DecodeEntriesLines(ss: seq<Summary>, header: string, rest: seq<string>)
    requires !StartsWith(header, FilePrefix)
    ensures DecodeEntries(EntriesLines(ss) + [header] + rest, header) == Some((ss, rest))
  {
    if ss == [] {
      assert EntriesLines(ss) + [header] + rest == [header] + rest;
    } else {
      var after := EntriesLines(ss[1..]) + [header] + rest;
      DecodeEntriesLines(ss[1..], header, rest);
      DecodeOneEntry(ss[0], after, header);
      EntriesLinesCons(ss);
      assert EntriesLines(ss) + [header] + rest == EntryLines(ss[0]) + after;
      assert [ss[0]] + ss[1..] == ss;
    }
  }

  /** A report is read back into its sections: the major summaries in order, then the
      minor ones, then the clean files, whatever the files and bullets hold. */
  lemma ReportRoundTrip(majors: seq<Summary>, minors: seq<Summary>, cleans: seq<string>)
    ensures DecodeReport(ReportLines(majors, minors, cleans)) == Some((majors, minors, cleans))
  {
    var lines := ReportLines(majors, minors, cleans);
    var afterMajor := EntriesLines(minors) + [CleanHeader] + cleans;
    assert lines[0] == MajorHeader;
    assert MinorHeader[0] != FilePrefix[0] && CleanHeader[0] != FilePrefix[0];
    assert lines[1..] == EntriesLines(majors) + [MinorHeader] + afterMajor;
    DecodeEntriesLines(majors, MinorHeader, afterMajor);
    DecodeEntriesLines(minors, CleanHeader, cleans);
  }

  // ---- Bullets of a diagnostic ----

  /** What ffmpeg prints as separate lines, each without CR or ';' and with no
      white space at either end, comes out as one bullet per line. */
  predicate IsPlainLine(l: string) {
    l != [] && IsTrimmed(l) && '\r' !in l && ';' !in l
  }

  /** Strings none of which is empty are all kept. */
  lemma {:induction false} NonEmptyKeepsAll(ts: seq<string>)
    requires forall k :: 0 <= k < |ts| ==> ts[k] != []
    ensures NonEmpty(ts) == ts
  {
    if ts != [] {
      var init := ts[..|ts| - 1];
      NonEmptyKeepsAll(init);
      assert init + [ts[|ts| - 1]] == ts;
    }
  }

  /** The pieces of such lines once joined with "; " and split at ';': the first line, then
      each later line behind one space. None holds a ';' and each trims to its line. */
  lemma PiecesOfLines(lines: seq<string>, pieces: seq<string>)
    requires |lines| >= 1
    requires forall k :: 0 <= k < |lines| ==> IsPlainLine(lines[k])
    requires pieces == [lines[0]] + Indent(lines[1..])
    ensures |pieces| == |lines|
    ensures forall k :: 0 <= k < |pieces| ==> ';' !in pieces[k] && Trim(pieces[k]) == lines[k]
  {
    forall k | 0 <= k < |pieces| ensures ';' !in pieces[k] && Trim(pieces[k]) == lines[k] {
      assert IsPlainLine(lines[k]);
      if k == 0 {
        TrimOfTrimmed(lines[0]);
      } else {
        assert pieces[k] == " " + lines[k];
        TrimLeadingSpace(lines[k]);
      }
    }
  }

  /** Such lines joined by CR LF have no white space at either end. */
  lemma JoinedLinesTrimmed(lines: seq<string>)
    requires |lines| >= 1
    requires forall k :: 0 <= k < |lines| ==> IsPlainLine(lines[k])
    ensures IsTrimmed(Join(lines, "\r\n"))
  {
    JoinEnds(lines, "\r\n");
    assert IsPlainLine(lines[0]) && IsPlainLine(lines[|lines| - 1]);
  }

  /** The text recorded for such lines joined by CR LF is the lines joined by "; ". */
  lemma ErrorInfoOfLines(lines: seq<string>)
    requires |lines| >= 1
    requires forall k :: 0 <= k < |lines| ==> IsPlainLine(lines[k])
    ensures ErrorInfo(Join(lines, "\r\n")) == Join([lines[0]] + Indent(lines[1..]), ";")
  {
    JoinedLinesTrimmed(lines);
    ErrorInfoOfTrimmed(Join(lines, "\r\n"));
    ReplaceCrLfJoin(lines);
    JoinSemicolonSpace(lines);
  }

  /** A diagnostic of several lines joined by CR LF: each line becomes one bullet, in order. */
  lemma BulletsOfLines(lines: seq<string>)
    requires |lines| >= 1
    requires forall k :: 0 <= k < |lines| ==> IsPlainLine(lines[k])
    ensures Bullets(ErrorInfo(Join(lines, "\r\n"))) == lines
  {
    var pieces := [lines[0]] + Indent(lines[1..]);
    ErrorInfoOfLines(lines);
    PiecesOfLines(lines, pieces);
    SplitJoin(pieces, ';');
    assert TrimAll(pieces) == lines;
    NonEmptyKeepsAll(lines);
  }
}
