/**
  One scan run: the video files found in the directory are each handed to ffmpeg, and
  its error output decides which of three bags the file goes to: major errors, minor
  errors or clean files. A small table records which file each worker slot is busy
  with. Once every file is done, the report is written from the three bags.

  The run is modelled one file at a time. The directory listing, ffmpeg's error output
  and the pattern files are inputs, and so is the clock: `elapsed(n)` says whether the
  redraw interval has passed when the processed count reaches `n`.
 */
module Scanner {
  import opened Wrappers
  import opened Text
  import opened Patterns
  import opened Classification
  import opened Report
  import opened CommandLine

  // ---- Files and ffmpeg ----

  /** The extensions of the files that are scanned, compared ignoring case. */
  const VideoExtensions: seq<string> := [".mp4", ".mkv", ".avi", ".mov", ".webm"]

  /** `videoExtensions.Contains(ext)`, where the set compares with `OrdinalIgnoreCase`:
      the extension is one of the five ignoring case. */
  function IsVideoExtension(ext: string): (r: bool)
    ensures r <==> exists k :: 0 <= k < |VideoExtensions| && EqualsIgnoreCase(ext, VideoExtensions[k])
  {
    forall k | 0 <= k < |VideoExtensions| ensures Lower(VideoExtensions[k]) == VideoExtensions[k] {
      LowerOfLowerCase(VideoExtensions[k]);
    }
    Lower(ext) in VideoExtensions
  }

  /** A file of the listing: its path and what `Path.GetExtension` returns for it. */
  datatype FoundFile = FoundFile(path: string, extension: string)

  /** The `.Where(...)` of lines 55-60: the files with a video extension, in order. */
  function VideoFiles(files: seq<FoundFile>): (r: seq<FoundFile>)
    ensures |r| <= |files|
  {
    if files == [] then []
    else (if IsVideoExtension(files[0].extension) then [files[0]] else []) + VideoFiles(files[1..])
  }

  /** A file is scanned exactly when it is listed and has a video extension. */
  lemma {:induction false} VideoFilesMembers(files: seq<FoundFile>, f: FoundFile)
    ensures f in VideoFiles(files) <==> f in files && IsVideoExtension(f.extension)
  {
    if files != [] {
      VideoFilesMembers(files[1..], f);
      assert files == [files[0]] + files[1..];
    }
  }

  /** Line 75: the extra ffmpeg argument of the scan mode. A fast scan decodes one frame. */
  function ScanArgument(mode: string): string {
    if mode == "fast" then " -frames:v 1 " else " "
  }

  const ArgumentsHead: string := "-v error -i \""
  const FastTail: string := " -frames:v 1 -f null -"
  const FullTail: string := " -f null -"

  /** Line 237: the arguments ffmpeg is started with. The file name is put in quotes. */
  function FfmpegArguments(file: string, scanArg: string): string {
    ArgumentsHead + file + "\"" + scanArg + "-f null -"
  }

  /** Reads ffmpeg's arguments back: the quoted file and whether only one frame is decoded. */
  function ReadArguments(s: string): Option<(string, bool)> {
    if !StartsWith(s, ArgumentsHead) then None
    else
      var pieces := Split(s[|ArgumentsHead|..], '"');
      if |pieces| != 2 then None
      else if pieces[1] == FastTail then Some((pieces[0], true))
      else if pieces[1] == FullTail then Some((pieces[0], false))
      else None
  }

  /** ffmpeg is told which file to read, and a fast scan, and only a fast scan, limits it
      to one frame, as long as the path holds no quote character. */
  lemma ArgumentsRoundTrip(file: string, mode: string)
    requires '"' !in file
    ensures ReadArguments(FfmpegArguments(file, ScanArgument(mode))) == Some((file, mode == "fast"))
  {
    var scanArg := ScanArgument(mode);
    var s := FfmpegArguments(file, scanArg);
    var tail := if mode == "fast" then FastTail else FullTail;
    assert scanArg + "-f null -" == tail;
    AppendAssoc(ArgumentsHead + file + "\"", scanArg, "-f null -");
    AppendAssoc(ArgumentsHead + file, "\"", tail);
    AppendAssoc(ArgumentsHead, file, "\"" + tail);
    AppendAssoc(file, "\"", tail);
    assert s == ArgumentsHead + (file + ['"'] + tail);
    assert s[|ArgumentsHead|..] == file + ['"'] + tail;
    assert '"' !in tail;
    SplitAfterPiece(file, tail, '"');
    SplitNoSep(tail, '"');
  }

  /** What running ffmpeg gives: its whole error output, or a process that failed to
      start. In the latter case reading its error stream throws. */
  datatype ToolRun = Ran(stderr: string) | FailedToStart

  /** What a scan needs besides the file: the scan-mode argument, ffmpeg as a function of
      its arguments, and the loaded pattern lists. */
  datatype Context = Context(scanArg: string, ffmpeg: string -> ToolRun, majors: seq<string>, minors: seq<string>)

  // ---- The outcome of one file ----

  /** A file's outcome: a verdict with the recorded text, or a task that threw. */
  datatype FileResult = Scanned(severity: Severity, info: string) | Faulted

  /** Lines 223-283 for one file. */
  function Outcome(f: FoundFile, cx: Context): FileResult {
    if !IsVideoExtension(f.extension) then Scanned(Clean, "")
    else
      match cx.ffmpeg(FfmpegArguments(f.path, cx.scanArg))
      case FailedToStart => Faulted
      case Ran(errors) =>
        if errors == [] then Scanned(Clean, "")
        else Scanned(Classify(errors, cx.majors, cx.minors), ErrorInfo(errors))
  }

  /** A file is clean exactly when it is not a video file or ffmpeg printed nothing. */
  lemma OutcomeClean(f: FoundFile, cx: Context)
    ensures Outcome(f, cx) == Scanned(Clean, "")
        <==> !IsVideoExtension(f.extension) || cx.ffmpeg(FfmpegArguments(f.path, cx.scanArg)) == Ran([])
  {
    var run := cx.ffmpeg(FfmpegArguments(f.path, cx.scanArg));
    if IsVideoExtension(f.extension) && run.Ran? && run.stderr != [] {
      assert Classify(run.stderr, cx.majors, cx.minors) != Clean;
    }
  }

  /** A file is major exactly when ffmpeg printed something in which a major pattern
      occurs; it is minor exactly when ffmpeg printed something and no major pattern
      occurs. Either way the recorded text is the shaped output. */
  lemma OutcomeWithErrors(f: FoundFile, cx: Context, severity: Severity, info: string)
    requires severity != Clean
    ensures Outcome(f, cx) == Scanned(severity, info)
        <==> (IsVideoExtension(f.extension)
              && var run := cx.ffmpeg(FfmpegArguments(f.path, cx.scanArg));
                 && run.Ran? && run.stderr != [] && info == ErrorInfo(run.stderr)
                 && (severity == Major <==> Found(run.stderr, cx.majors)))
  {
  }

  /** A file faults exactly when it is a video file and ffmpeg could not be started. */
  lemma OutcomeFaulted(f: FoundFile, cx: Context)
    ensures Outcome(f, cx) == Faulted
        <==> IsVideoExtension(f.extension) && cx.ffmpeg(FfmpegArguments(f.path, cx.scanArg)) == FailedToStart
  {
  }

  // ---- The bags and the counter ----

  /** The three bags, unordered, and the number of files processed. */
  datatype Tally = Tally(majors: multiset<Entry>, minors: multiset<Entry>, cleans: multiset<string>, processed: nat)

  const Empty: Tally := Tally(multiset{}, multiset{}, multiset{}, 0)

  /** Every processed file is in exactly one bag. */
  predicate Balanced(t: Tally) {
    |t.majors| + |t.minors| + |t.cleans| == t.processed
  }

  /** Lines 292-297: the file goes to the bag of its verdict and the count goes up by
      one. A task that threw got neither far. */
  function Add(t: Tally, path: string, r: FileResult): Tally {
    match r
    case Faulted => t
    case Scanned(Major, info) => t.(majors := t.majors + multiset{Entry(path, info)}, processed := t.processed + 1)
    case Scanned(Minor, info) => t.(minors := t.minors + multiset{Entry(path, info)}, processed := t.processed + 1)
    case Scanned(Clean, _) => t.(cleans := t.cleans + multiset{path}, processed := t.processed + 1)
  }

  /** A scanned file lands in exactly one bag, the one of its verdict, and is counted
      once; a fault changes nothing. */
  lemma AddExactlyOne(t: Tally, path: string, r: FileResult)
    ensures var u := Add(t, path, r);
      && (r.Faulted? ==> u == t)
      && (r.Scanned? ==>
            && u.processed == t.processed + 1
            && |u.majors| + |u.minors| + |u.cleans| == |t.majors| + |t.minors| + |t.cleans| + 1
            && (u.majors != t.majors <==> r.severity == Major)
            && (u.minors != t.minors <==> r.severity == Minor)
            && (u.cleans != t.cleans <==> r.severity == Clean))
  {
    var u := Add(t, path, r);
    if r.Scanned? {
      match r.severity
      case Major => assert u.majors[Entry(path, r.info)] == t.majors[Entry(path, r.info)] + 1;
      case Minor => assert u.minors[Entry(path, r.info)] == t.minors[Entry(path, r.info)] + 1;
      case Clean => assert u.cleans[path] == t.cleans[path] + 1;
    }
  }

  /** The bags after the files have been processed in order. */
  function Collect(files: seq<FoundFile>, cx: Context): Tally {
    if files == [] then Empty
    else
      var last := files[|files| - 1];
      Add(Collect(files[..|files| - 1], cx), last.path, Outcome(last, cx))
  }

  /** The number of files whose task threw. */
  function Faults(files: seq<FoundFile>, cx: Context): nat {
    if files == [] then 0
    else Faults(files[..|files| - 1], cx) + (if Outcome(files[|files| - 1], cx).Faulted? then 1 else 0)
  }

  /** The bag sizes sum to the processed count, which is the number of files less the
      faults; with no fault, every file is counted. */
  lemma {:induction false} CollectCounts(files: seq<FoundFile>, cx: Context)
    ensures Balanced(Collect(files, cx))
    ensures Collect(files, cx).processed + Faults(files, cx) == |files|
  {
    if files != [] {
      var init := files[..|files| - 1];
      var last := files[|files| - 1];
      CollectCounts(init, cx);
      AddExactlyOne(Collect(init, cx), last.path, Outcome(last, cx));
    }
  }

  // ---- The thread-slot table ----

  /** The lowest free slot, or -1 when every slot is taken. */
  function FirstFree(slots: seq<Option<string>>): (r: int)
    ensures -1 <= r < |slots|
    ensures r == -1 <==> forall i :: 0 <= i < |slots| ==> slots[i].Some?
    ensures r >= 0 ==> slots[r].None? && forall i :: 0 <= i < r ==> slots[i].Some?
  {
    if slots == [] then -1
    else if slots[0].None? then 0
    else
      var r := FirstFree(slots[1..]);
      assert forall i :: 1 <= i < |slots| ==> slots[i] == slots[1..][i - 1];
      if r == -1 then -1 else r + 1
  }

  /** The table once `file` has taken the lowest free slot, if any. */
  function Claim(slots: seq<Option<string>>, file: string): seq<Option<string>> {
    var i := FirstFree(slots);
    if i < 0 then slots else slots[i := Some(file)]
  }

  /** The table once the slot `index` is cleared; -1 clears nothing. */
  function Release(slots: seq<Option<string>>, index: int): seq<Option<string>>
    requires -1 <= index < |slots|
  {
    if index < 0 then slots else slots[index := None]
  }

  /** Claiming changes the lowest free slot and no other, and gives it the file. */
  lemma ClaimTakesLowest(slots: seq<Option<string>>, file: string)
    ensures |Claim(slots, file)| == |slots|
    ensures var i := FirstFree(slots);
      forall k :: 0 <= k < |slots| ==> Claim(slots, file)[k] == (if k == i then Some(file) else slots[k])
  {
  }

  /** Releasing the slot a file claimed gives back the table as it was. */
  lemma ReleaseUndoesClaim(slots: seq<Option<string>>, file: string)
    ensures Release(Claim(slots, file), FirstFree(slots)) == slots
  {
    var i := FirstFree(slots);
    if i >= 0 {
      assert slots[i := Some(file)][i := None] == slots;
    }
  }

  /** The redraw condition of line 299: the interval has passed, or this was the last file. */
  predicate ShouldRedraw(intervalElapsed: bool, processed: int, total: int) {
    intervalElapsed || processed == total
  }

  /** The verdict the two flags stand for; a clean file records no text. */
  function FlagsResult(major: bool, minor: bool, errorInfo: string): FileResult {
    if major then Scanned(Major, errorInfo)
    else if minor then Scanned(Minor, errorInfo)
    else Scanned(Clean, "")
  }

  /** Lines 261-283: the flags set from ffmpeg's error output, step by step. They agree
      with `Classify`: no output sets neither, and otherwise exactly one is set. */
  method ClassifyErrors(errors: string, majors: seq<string>, minors: seq<string>)
    returns (major: bool, minor: bool, errorInfo: string)
    ensures errors == [] ==> !major && !minor && errorInfo == ""
    ensures errors != [] ==>
      && (major <==> Classify(errors, majors, minors) == Major)
      && (minor <==> Classify(errors, majors, minors) == Minor)
      && errorInfo == ErrorInfo(errors)
  {
    major, minor, errorInfo := false, false, "";
    if errors != [] {
      var errLower := Lower(errors);
      if AnyContains(errLower, majors) {
        major := true;
      } else if AnyContains(errLower, minors) {
        minor := true;
      } else if !major {
        minor := true;
      }
      errorInfo := ErrorInfo(errors);
    }
  }

  /** The state shared by the tasks: the slot table, the bags and the counter. */
  class ScanState {
    const threadFiles: array<Option<string>>
    const totalFiles: nat
    var majorErrors: multiset<Entry>
    var minorErrors: multiset<Entry>
    var cleanFiles: multiset<string>
    var processedFiles: nat

    function Counts(): Tally
      reads this
    {
      Tally(majorErrors, minorErrors, cleanFiles, processedFiles)
    }

    /** Lines 72-73, 98-100 and 106: empty bags, a zero count and a table of free slots. */
    constructor (fileThreads: nat, totalFiles: nat)
      ensures fresh(threadFiles) && threadFiles.Length == fileThreads
      ensures forall i :: 0 <= i < fileThreads ==> threadFiles[i].None?
      ensures this.totalFiles == totalFiles && Counts() == Empty
    {
      threadFiles := new Option<string>[fileThreads](_ => None);
      this.totalFiles := totalFiles;
      majorErrors := multiset{};
      minorErrors := multiset{};
      cleanFiles := multiset{};
      processedFiles := 0;
    }

    /** Lines 209-220: the file takes the lowest free slot, whose index is returned; with
        no free slot nothing changes and the index is -1. */
    method ClaimSlot(file: string) returns (index: int)
      modifies threadFiles
      ensures index == FirstFree(old(threadFiles[..]))
      ensures threadFiles[..] == Claim(old(threadFiles[..]), file)
    {
      index := -1;
      var i := 0;
      while i < threadFiles.Length
        invariant 0 <= i <= threadFiles.Length
        invariant threadFiles[..] == old(threadFiles[..])
        invariant forall k :: 0 <= k < i ==> threadFiles[k].Some?
      {
        if threadFiles[i].None? {
          threadFiles[i] := Some(file);
          index := i;
          return;
        }
        i := i + 1;
      }
    }

    /** Lines 311-317: only the task's own slot is cleared, and none for index -1. */
    method ReleaseSlot(index: int)
      requires -1 <= index < threadFiles.Length
      modifies threadFiles
      ensures threadFiles[..] == Release(old(threadFiles[..]), index)
    {
      if index >= 0 {
        threadFiles[index] := None;
      }
    }

    /** Lines 292-297: the file goes to the bag its flags name, and is counted. */
    method Store(path: string, major: bool, minor: bool, errorInfo: string)
      modifies this
      ensures Counts() == Add(old(Counts()), path, FlagsResult(major, minor, errorInfo))
    {
      if major {
        majorErrors := majorErrors + multiset{Entry(path, errorInfo)};
      } else if minor {
        minorErrors := minorErrors + multiset{Entry(path, errorInfo)};
      } else {
        cleanFiles := cleanFiles + multiset{path};
      }
      processedFiles := processedFiles + 1;
    }

    /** Lines 223-306: ffmpeg is run on a video file, its output sets the flags, then the
        file is put in a bag and counted, and the progress bar is redrawn when the
        condition of line 299 holds. */
    method ProcessFile(f: FoundFile, cx: Context, elapsed: nat -> bool) returns (result: FileResult, redraw: bool)
      modifies this
      ensures result == Outcome(f, cx)
      ensures Counts() == Add(old(Counts()), f.path, result)
      ensures processedFiles == old(processedFiles) + (if result.Faulted? then 0 else 1)
      ensures redraw <==> result.Scanned? && ShouldRedraw(elapsed(processedFiles), processedFiles, totalFiles)
    {
      var major := false;
      var minor := false;
      var errorInfo := "";
      if IsVideoExtension(f.extension) {
        var run := cx.ffmpeg(FfmpegArguments(f.path, cx.scanArg));
        if run.FailedToStart? {
          return Faulted, false;
        }
        major, minor, errorInfo := ClassifyErrors(run.stderr, cx.majors, cx.minors);
      }
      result := FlagsResult(major, minor, errorInfo);
      Store(f.path, major, minor, errorInfo);
      redraw := ShouldRedraw(elapsed(processedFiles), processedFiles, totalFiles);
    }

    /** The task of lines 204-320 for one file: claim a slot, process the file, release
        the slot. The table is left as it was found. */
    method ScanFile(f: FoundFile, cx: Context, elapsed: nat -> bool) returns (result: FileResult, redraw: bool)
      modifies this, threadFiles
      ensures threadFiles[..] == old(threadFiles[..])
      ensures result == Outcome(f, cx)
      ensures Counts() == Add(old(Counts()), f.path, result)
      ensures processedFiles == old(processedFiles) + (if result.Faulted? then 0 else 1)
      ensures redraw <==> result.Scanned? && ShouldRedraw(elapsed(processedFiles), processedFiles, totalFiles)
    {
      ghost var before := threadFiles[..];
      var threadIndex := ClaimSlot(f.path);
      result, redraw := ProcessFile(f, cx, elapsed);
      ReleaseSlot(threadIndex);
      ReleaseUndoesClaim(before, f.path);
    }
  }

  // ---- The whole run ----

  /** How a run ends: the directory could not be listed, a task or a constructor threw,
      the tasks wait forever on a semaphore of size zero, or the report was written. */
  datatype ScanOutcome = CouldNotAccess | Crashed | Stalled | Completed(report: seq<string>)

  /** The bags, enumerated in some order, make up the report. */
  ghost predicate IsReportOf(lines: seq<string>, t: Tally) {
    exists ms: seq<Entry>, ns: seq<Entry>, cs: seq<string> ::
      multiset(ms) == t.majors && multiset(ns) == t.minors && multiset(cs) == t.cleans
      && lines == ReportLines(Summaries(ms), Summaries(ns), cs)
  }

  /** A bag's items one after another, in an order nobody promises. */
  method Enumerate<T(==)>(bag: multiset<T>) returns (s: seq<T>)
    ensures multiset(s) == bag
  {
    s := [];
    var rest := bag;
    while rest != multiset{}
      invariant multiset(s) + rest == bag
      decreases |rest|
    {
      var x :| x in rest;
      s := s + [x];
      rest := rest - multiset{x};
    }
  }

  /** The directory is blank or its listing threw (lines 51-69). */
  predicate CannotList(options: Options, listing: Option<seq<FoundFile>>) {
    options.directory.None? || IsBlank(options.directory.value) || listing.None?
  }

  /** The files the tasks are created for. */
  function Listed(listing: Option<seq<FoundFile>>): seq<FoundFile> {
    if listing.None? then [] else VideoFiles(listing.value)
  }

  /** A negative size throws: the slot array of line 106, the semaphores of lines 200-201. */
  predicate BadLimits(options: Options) {
    options.fileThreads < 0 || options.ffmpegInstances < 0
  }

  /** With files to scan, a semaphore of size zero is never entered. */
  predicate Stalls(options: Options, files: seq<FoundFile>) {
    files != [] && (options.fileThreads == 0 || options.ffmpegInstances == 0)
  }

  /** What the scan needs from the options and the pattern files. */
  function ContextOf(options: Options, ffmpeg: string -> ToolRun, majorFile: Option<seq<string>>, minorFile: Option<seq<string>>): Context {
    Context(ScanArgument(options.scanMode), ffmpeg, LoadPatterns(majorFile), LoadPatterns(minorFile))
  }

  /** `redraws` are the counts up to `processed` at which the progress bar is redrawn. */
  ghost predicate RedrawnAt(redraws: seq<nat>, processed: nat, total: nat, elapsed: nat -> bool) {
    forall n :: n in redraws <==> 1 <= n <= processed && ShouldRedraw(elapsed(n), n, total)
  }

  /** One more processed file adds its count exactly when the redraw condition holds. */
  lemma RedrawStep(redraws: seq<nat>, processed: nat, total: nat, elapsed: nat -> bool, redraw: bool)
    requires RedrawnAt(redraws, processed, total, elapsed)
    requires redraw <==> ShouldRedraw(elapsed(processed + 1), processed + 1, total)
    ensures RedrawnAt(redraws + (if redraw then [processed + 1] else []), processed + 1, total, elapsed)
  {
  }

  /** The tasks of lines 204-323, one after another: every file is scanned, each fault
      is remembered, the processed counts at which the progress bar is redrawn are
      collected, and every slot claimed is released, so the table ends as it began. */
  method ScanAll(state: ScanState, files: seq<FoundFile>, cx: Context, elapsed: nat -> bool)
    returns (faulted: bool, redraws: seq<nat>)
    requires state.totalFiles == |files| && state.Counts() == Empty
    modifies state, state.threadFiles
    ensures state.Counts() == Collect(files, cx)
    ensures faulted <==> Faults(files, cx) > 0
    ensures RedrawnAt(redraws, state.processedFiles, |files|, elapsed)
    ensures state.threadFiles[..] == old(state.threadFiles[..])
  {
    faulted := false;
    redraws := [];
    for i := 0 to |files|
      invariant state.Counts() == Collect(files[..i], cx)
      invariant faulted <==> Faults(files[..i], cx) > 0
      invariant RedrawnAt(redraws, state.processedFiles, |files|, elapsed)
      invariant state.threadFiles[..] == old(state.threadFiles[..])
    {
      ghost var processed := state.processedFiles;
      var result, redraw := state.ScanFile(files[i], cx, elapsed);
      assert files[..i + 1][..i] == files[..i];
      if result.Faulted? {
        faulted := true;
      } else {
        assert state.processedFiles == processed + 1 && state.totalFiles == |files|;
        RedrawStep(redraws, processed, |files|, elapsed, redraw);
      }
      if redraw {
        redraws := redraws + [state.processedFiles];
      }
    }
    assert files[..|files|] == files;
  }

  /** `RunAsync`, one file at a time. The report holds the three bags; with no fault
      every file is processed, and the progress bar is redrawn at a count exactly when the
      interval has passed or the count is the number of files. */
  method RunScan(options: Options, listing: Option<seq<FoundFile>>, ffmpeg: string -> ToolRun,
                 majorFile: Option<seq<string>>, minorFile: Option<seq<string>>, elapsed: nat -> bool)
    returns (outcome: ScanOutcome, redraws: seq<nat>)
    ensures outcome.CouldNotAccess? <==> CannotList(options, listing)
    ensures outcome.Crashed? <==>
      && !CannotList(options, listing)
      && (|| BadLimits(options)
          || (!Stalls(options, Listed(listing))
              && Faults(Listed(listing), ContextOf(options, ffmpeg, majorFile, minorFile)) > 0))
    ensures outcome.Stalled? <==> !CannotList(options, listing) && !BadLimits(options) && Stalls(options, Listed(listing))
    ensures outcome.Completed? ==>
      var files := Listed(listing);
      var t := Collect(files, ContextOf(options, ffmpeg, majorFile, minorFile));
      && IsReportOf(outcome.report, t)
      && t.processed == |files|
      && (forall n :: n in redraws <==> 1 <= n <= |files| && ShouldRedraw(elapsed(n), n, |files|))
  {
    redraws := [];
    if options.directory.None? || IsBlank(options.directory.value) || listing.None? {
      return CouldNotAccess, redraws;
    }
    var files := VideoFiles(listing.value);
    if options.fileThreads < 0 || options.ffmpegInstances < 0 {
      return Crashed, redraws;
    }
    if files != [] && (options.fileThreads == 0 || options.ffmpegInstances == 0) {
      return Stalled, redraws;
    }
    var cx := ContextOf(options, ffmpeg, majorFile, minorFile);
    var state := new ScanState(options.fileThreads, |files|);
    var faulted: bool;
    faulted, redraws := ScanAll(state, files, cx, elapsed);
    CollectCounts(files, cx);
    if faulted {
      return Crashed, redraws;
    }
    var ms := Enumerate(state.majorErrors);
    var ns := Enumerate(state.minorErrors);
    var cs := Enumerate(state.cleanFiles);
    var lines := WriteReport(ms, ns, cs);
    outcome := Completed(lines);
  }

  /** A written report reads back as its three sections: one entry per file in the major
      bag, one per file in the minor bag, then the clean files, so every processed file
      appears once. */
  lemma ReportAccountsForEveryFile(lines: seq<string>, t: Tally)
    requires IsReportOf(lines, t) && Balanced(t)
    ensures DecodeReport(lines).Some?
    ensures var (majors, minors, cleans) := DecodeReport(lines).value;
      && |majors| == |t.majors| && |minors| == |t.minors| && multiset(cleans) == t.cleans
      && |majors| + |minors| + |cleans| == t.processed
  {
    var ms: seq<Entry>, ns: seq<Entry>, cs: seq<string> :|
      multiset(ms) == t.majors && multiset(ns) == t.minors && multiset(cs) == t.cleans
      && lines == ReportLines(Summaries(ms), Summaries(ns), cs);
    ReportRoundTrip(Summaries(ms), Summaries(ns), cs);
    assert |ms| == |multiset(ms)| && |ns| == |multiset(ns)| && |cs| == |multiset(cs)|;
  }

  /** With one processor the default thread count is zero, and a directory with a video
      file in it is never scanned. */
  lemma SingleProcessorStalls(args: seq<string>, files: seq<FoundFile>)
    requires ParseArgs(args, 1).Some?
    requires forall k :: 0 <= k < |args| ==> !SetsFileThreads(args, k)
    requires VideoFiles(files) != []
    ensures Stalls(ParseArgs(args, 1).value.options, VideoFiles(files))
  {
    ParseFileThreads(args, 1);
  }
}
