# BorkScanner core, modelled in Dafny

BorkScanner is a command-line tool. It looks for video files in a directory and runs
`ffmpeg` on each one. The error output decides whether a file has **major errors**,
**minor errors** or is **clean**. At the end it writes a report of the three groups.
This project models the core of that tool and proves properties of the model:

- **The command line** (`ScanOptions.cs`, module `CommandLine`, file `scan_options.dfy`).
  - The `ScanOptions` object holds five properties, each with its default.
  - `ScanOptions.Parse` is a method with a `while` loop. It updates a freshly created
    object in place. Its result is proved equal to `ParseArgs`, a function that walks
    the arguments.
  - `ParseArgs` is in turn proved equal to a reference loop `Fold` that examines every
    argument. A value taken by `--filethreads` or `--ffmpeginstances` is an integer, so
    it can never be mistaken for a flag.
  - `Fold` then gives the results per property:
    - the directory and the scan mode;
    - the last `--filethreads N` wins, capped at the processor count;
    - the last `--ffmpeginstances N` wins, not capped;
    - the last of `--recursive` / `--norecursive` wins;
    - `--flag=value` arguments draw warnings, in argument order.
- **One scan** (`src/Scanner.cs`, modules `Patterns`, `Classification`, `Report` and
  `Scanner`).
  - **Pattern files.** `LoadPatterns` drops blank lines and trims and lower-cases the
    rest.
  - **Three-tier verdict.** It is set as two flags, step by step, by the method
    `ClassifyErrors`. Their meaning is proved against the function `Classify`.
  - **Recorded text.** The error output is trimmed, and each CR LF becomes `"; "`.
  - **Thread-slot table.** It is an `array` in the `ScanState` class, claimed and
    released in place.
  - **Bags and counter.** They are `multiset` fields of the same class.
  - **Redraw condition** of the progress bar.
  - **Report.** Methods with loops write its lines. The lines are proved equal to a
    function of the bags, and that function is proved to read back into its sections.
  - **`RunScan`.** The whole run, one file at a time. The directory listing, ffmpeg,
    the pattern files and the clock are its parameters.
- **C# library behaviour the code relies on** (modules `Text` and `Int32Text`).
  - `string.Trim`, `char.IsWhiteSpace`, `ToLower`/`ToLowerInvariant`, `Contains`,
    `StartsWith`, `Split(char)` and `Replace("\r\n", "; ")`.
  - A `Join` function is not called by the scanning code. It is there to state the
    round trips of `Split` and `Replace` (`JoinSplit`, `SplitJoin`, `ReplaceCrLfJoin`).
  - `int.TryParse` with its default number style and the 32-bit range.

A shared `Option` datatype is in `wrappers.dfy`.

Two behaviours of the code that the model keeps as they are:

- **ffmpeg fails to start.** The C# swallows the exception thrown by `proc.Start()`
  (src/Scanner.cs:245-255), and reading `proc.StandardError` on line 258 then throws.
  So the task faults: the file enters no bag and is not counted. `Task.WhenAll`
  (line 323) then rethrows, and no report is written. In the model,
  `ToolRun.FailedToStart` leads to `FileResult.Faulted`, and the run's outcome is
  `ScanOutcome.Crashed`.
- **Zero or negative limits.** The default thread count is `ProcessorCount / 2`, which
  is zero on a one-processor machine. A semaphore of size zero is never entered, so a
  run with files never finishes. The model's outcome for this is `Stalled`
  (`SingleProcessorStalls`). A negative count makes the array or semaphore constructor
  throw, and the model's outcome for this is `Crashed`.

## Model

| member | source | states |
|---|---|---|
| CommandLine.ScanOptions.constructor | ScanOptions.cs:8-16 | a new options object has no directory, scan mode "full", `ProcessorCount / 2` file threads, 4 ffmpeg instances and recursion on |
| CommandLine.ScanOptions.ApplyArgument | ScanOptions.cs:31-62 | one pass of the `switch` on the lower-cased argument updates the object as `Step` says, adds the warning it calls for, and reports whether the next argument was taken as a value |
| CommandLine.ScanOptions.Parse | ScanOptions.cs:19-65 | null exactly for a missing or blank first argument, with no warning; otherwise a fresh object whose properties and printed warnings are those of `ParseArgs` |
| CommandLine.ParseArgs | ScanOptions.cs:21 | the parse fails exactly when there is no argument or the first one is blank |
| CommandLine.LoopIsFold | ScanOptions.cs:29-63 | skipping the value a flag took gives the same result as examining every argument from index 0, because that value is an integer and so no flag |
| CommandLine.ValueIsInert | ScanOptions.cs:35-38 | examining an argument that parses as an integer changes neither the options nor the warnings |
| CommandLine.FlagDoubleDash | ScanOptions.cs:31-56 | every argument recognised as a flag starts with "--" |
| CommandLine.ParsedNotDoubleDash | ScanOptions.cs:35 | a string that parses as an integer does not start with "--" |
| CommandLine.FlagNamesIgnoreCase | ScanOptions.cs:31-53 | an argument is each of the four flags exactly when it equals the flag's name ignoring case |
| CommandLine.StepKeepsDirectoryAndMode | ScanOptions.cs:31-62 | no argument in the loop changes the directory or the scan mode |
| CommandLine.StepFileThreads | ScanOptions.cs:33-40 | an argument sets the thread count exactly when it is `--filethreads` followed by an integer, to that integer capped at the processor count |
| CommandLine.StepFfmpegInstances | ScanOptions.cs:41-48 | an argument sets the instance count exactly when it is `--ffmpeginstances` followed by an integer, to that integer |
| CommandLine.StepRecursive | ScanOptions.cs:49-56 | an argument sets recursion exactly when it is `--recursive` (on) or `--norecursive` (off) |
| CommandLine.StepWarnings | ScanOptions.cs:57-61 | an argument adds a warning exactly when it starts with "--" and contains '='; a recognised flag never does |
| CommandLine.FoldKeepsDirectoryAndMode | ScanOptions.cs:29-63 | the loop keeps the directory and the scan mode |
| CommandLine.FoldFileThreadsUnset | ScanOptions.cs:33-40 | with no `--filethreads N` ahead, the thread count is kept |
| CommandLine.FoldFileThreadsAt | ScanOptions.cs:33-40 | a `--filethreads N` with none after it sets the thread count to N capped at the processor count |
| CommandLine.FoldFileThreadsLast | ScanOptions.cs:33-40 | the last `--filethreads N` decides the thread count |
| CommandLine.FoldFileThreadsBound | ScanOptions.cs:37 | a thread count that does not exceed the processor count never comes to exceed it |
| CommandLine.FoldFfmpegUnset | ScanOptions.cs:41-48 | with no `--ffmpeginstances N` ahead, the instance count is kept |
| CommandLine.FoldFfmpegAt | ScanOptions.cs:41-48 | a `--ffmpeginstances N` with none after it sets the instance count to N |
| CommandLine.FoldFfmpegLast | ScanOptions.cs:41-48 | the last `--ffmpeginstances N` decides the instance count, unclamped |
| CommandLine.FoldRecursiveUnset | ScanOptions.cs:49-56 | with no `--recursive` or `--norecursive` ahead, recursion is kept |
| CommandLine.FoldRecursiveAt | ScanOptions.cs:49-56 | a `--recursive` or `--norecursive` with neither after it decides recursion |
| CommandLine.FoldRecursiveLast | ScanOptions.cs:49-56 | the last of `--recursive` and `--norecursive` decides recursion |
| CommandLine.LowerKeepsEquals | ScanOptions.cs:31 | lower-casing an argument keeps every '=' in it |
| CommandLine.FoldWarnings | ScanOptions.cs:57-61 | the warnings are those of the examined arguments that start with "--" and contain '=', in order |
| CommandLine.JoinedFlagWarnings | ScanOptions.cs:59-60 | there are never more warnings than arguments |
| CommandLine.ParseDirectoryAndMode | ScanOptions.cs:22-26 | the directory is the first argument; the scan mode is the lower-cased second argument when that is "fast" or "full" in any case, else "full"; either way it is "fast" or "full" |
| CommandLine.ParseFileThreads | ScanOptions.cs:33-40 | without `--filethreads N` the thread count keeps the default of line 12, `ProcessorCount / 2`; otherwise it is the last N, capped at the processor count |
| CommandLine.ParseFileThreadsBound | ScanOptions.cs:33-40 | the thread count never exceeds the processor count |
| CommandLine.ParseFfmpegInstances | ScanOptions.cs:41-48 | without `--ffmpeginstances N` the instance count keeps the default of line 14, 4; otherwise it is the last N, unclamped |
| CommandLine.ParseRecursive | ScanOptions.cs:49-56 | recursion keeps the default of line 16, on, unless the last of `--recursive` and `--norecursive` is `--norecursive` |
| CommandLine.ParseWarnings | ScanOptions.cs:57-61 | a warning is printed, in order, for exactly the arguments that start with "--" and contain '=' |
| Int32Text.TryParseInt | ScanOptions.cs:35 | a parsed value lies in the 32-bit signed range |
| Int32Text.ParseFormat | ScanOptions.cs:35 | `int.TryParse` accepts the decimal form of every 32-bit integer and returns that integer |
| Int32Text.DoubleDashDoesNotParse | ScanOptions.cs:35 | a string that starts with "--" is not an integer |
| Int32Text.FormatNat | ScanOptions.cs:35 | the decimal digits of a natural number are a non-empty digit string whose value is that number |
| Patterns.NormalizeIsPattern | src/Scanner.cs:21 | a non-blank line becomes a non-empty, trimmed, lower-case pattern |
| Patterns.NormalizeLines | src/Scanner.cs:21 | there are never more patterns than lines |
| Patterns.NormalizeLinesArePatterns | src/Scanner.cs:21 | every loaded pattern is non-empty, trimmed and lower-case |
| Patterns.LoadPatterns | src/Scanner.cs:17-23 | a missing file gives no patterns; every pattern is well formed; there are no more patterns than lines |
| Patterns.NormalizeAppend | src/Scanner.cs:21 | lines are normalised one by one and in file order |
| Patterns.NormalizeMembers | src/Scanner.cs:21 | a pattern is loaded exactly when some non-blank line trims and lower-cases to it |
| Patterns.NormalizeCount | src/Scanner.cs:21 | the number of patterns is the number of non-blank lines |
| Patterns.PatternIsNormal | src/Scanner.cs:21 | a loaded pattern is not blank and normalises to itself |
| Patterns.NormalizeIdempotent | src/Scanner.cs:21 | loading the loaded patterns again changes nothing |
| Patterns.MatchIgnoresCase | src/Scanner.cs:263-268 | the lower-cased output contains a loaded pattern exactly when some slice of the output equals the trimmed line ignoring case |
| Classification.AnyContains | src/Scanner.cs:268-273 | `Any(p => text.Contains(p))` holds exactly when some pattern of the list occurs in the text |
| Classification.Classify | src/Scanner.cs:261-281 | empty output is clean; non-empty output is major exactly when a major pattern occurs in it lower-cased, and minor exactly when none does |
| Classification.MinorPatternsDoNotDecide | src/Scanner.cs:273-281 | the minor patterns never change the verdict: with or without a minor match, unmatched output is minor |
| Classification.ClassifyIgnoresCase | src/Scanner.cs:263 | outputs equal up to case get the same verdict |
| Classification.MajorPersists | src/Scanner.cs:268-271 | a major file stays major when patterns are added to either list |
| Classification.ErrorInfo | src/Scanner.cs:282 | the recorded text holds no CR LF, and is empty exactly when the output is blank |
| Classification.ErrorInfoOfTrimmed | src/Scanner.cs:282 | output with no white space at either end is recorded with only its CR LFs replaced |
| Report.TrimAll | src/Scanner.cs:359-361 | trimming keeps one piece per piece |
| Report.NonEmpty | src/Scanner.cs:362 | dropping empty pieces never adds any |
| Report.NonEmptyFrom | src/Scanner.cs:362 | every kept piece is non-empty and one of the given pieces |
| Report.Bullets | src/Scanner.cs:359-363 | there are never more bullets than ';'-separated pieces |
| Report.BulletsShape | src/Scanner.cs:359-363 | every bullet is non-empty, trimmed and free of ';' |
| Report.WriteBullets | src/Scanner.cs:359-364 | the bullet lines written for a text are `BulletLines(Bullets(info))` |
| Report.WriteEntries | src/Scanner.cs:355-366 | the lines written for a sequence of entries are those of their summaries, in order |
| Report.WriteLines | src/Scanner.cs:383-384 | the clean files are written one line each, in order, after what was already written |
| Report.WriteReport | src/Scanner.cs:353-384 | the report is the major header and entries, the minor header and entries, then the clean header and paths |
| Report.BulletStep | src/Scanner.cs:359-364 | one more piece adds its bullet line exactly when it trims to something non-empty |
| Report.EntryStep | src/Scanner.cs:355-366 | one more entry adds its file line, the "Error(s):" line, its bullets and an empty line |
| Report.DecodeBullets | src/Scanner.cs:363-365 | reading bullets always consumes at least the closing empty line |
| Report.DecodeBulletLines | src/Scanner.cs:363-365 | bullet lines followed by an empty line read back as exactly those bullets |
| Report.DecodeOneEntry | src/Scanner.cs:357-365 | one entry's lines read back as that entry, followed by whatever comes after |
| Report.DecodeEntriesLines | src/Scanner.cs:355-366 | a section's entries followed by the next header read back as exactly those entries |
| Report.ReportRoundTrip | src/Scanner.cs:353-384 | a report reads back as its major summaries, its minor summaries and its clean files, whatever they hold |
| Report.PiecesOfLines | src/Scanner.cs:359-361 | the pieces of plain lines joined by "; " and split at ';' are free of ';' and trim back to the lines |
| Report.ErrorInfoOfLines | src/Scanner.cs:282 | plain lines printed with CR LF between them are recorded joined by "; " |
| Report.BulletsOfLines | src/Scanner.cs:359-363 | a diagnostic of plain lines joined by CR LF becomes one bullet per line, in order |
| Scanner.IsVideoExtension | src/Scanner.cs:46-47 | an extension is accepted exactly when it equals one of ".mp4", ".mkv", ".avi", ".mov" and ".webm" ignoring case |
| Scanner.VideoFiles | src/Scanner.cs:55-60 | the filtered listing is never longer than the listing |
| Scanner.VideoFilesMembers | src/Scanner.cs:55-60 | a file is scanned exactly when it is listed and has a video extension |
| Scanner.ArgumentsRoundTrip | src/Scanner.cs:237 | ffmpeg's arguments (with the scan argument of line 75) name the file, and ask for one frame exactly in a fast scan, for a path without '"' |
| Scanner.OutcomeClean | src/Scanner.cs:223-283 | a file is clean exactly when it is not a video file or ffmpeg printed nothing |
| Scanner.OutcomeWithErrors | src/Scanner.cs:261-283 | a file is major exactly when ffmpeg printed output in which a major pattern occurs, and minor exactly when it printed output with no major pattern; the recorded text is the shaped output |
| Scanner.OutcomeFaulted | src/Scanner.cs:245-258 | a file's task throws exactly when it is a video file and ffmpeg could not be started |
| Scanner.AddExactlyOne | src/Scanner.cs:292-297 | a scanned file lands in exactly one bag, the one of its verdict, and is counted once; a fault changes nothing |
| Scanner.CollectCounts | src/Scanner.cs:292-297 | after all files, the bag sizes sum to the processed count, which is the number of files less the faults |
| Scanner.FirstFree | src/Scanner.cs:211-219 | the first free slot is free and every earlier slot is taken; -1 exactly when every slot is taken |
| Scanner.ClaimTakesLowest | src/Scanner.cs:209-220 | a claim gives the lowest free slot to the file and changes no other slot |
| Scanner.ReleaseUndoesClaim | src/Scanner.cs:311-317 | releasing the slot a file claimed restores the table |
| Scanner.ClassifyErrors | src/Scanner.cs:261-283 | no output sets neither flag; otherwise the major flag is set exactly for a major verdict, the minor flag exactly for a minor verdict, and the recorded text is the shaped output |
| Scanner.ScanState.constructor | src/Scanner.cs:98-106 | the bags are empty, every slot is free, and the counters of lines 72-73 start at the file total and zero |
| Scanner.ScanState.ClaimSlot | src/Scanner.cs:206-220 | the returned index is the first free slot, or -1, and the table becomes the claimed one |
| Scanner.ScanState.ReleaseSlot | src/Scanner.cs:311-317 | only the task's own slot is cleared, and nothing for -1 |
| Scanner.ScanState.Store | src/Scanner.cs:292-297 | the file goes to the bag its flags name and the count goes up by one |
| Scanner.ScanState.ProcessFile | src/Scanner.cs:223-306 | the file's outcome is `Outcome`; the bags and count change as `Add` says; the progress bar is redrawn exactly for a counted file that meets the redraw condition |
| Scanner.ScanState.ScanFile | src/Scanner.cs:204-320 | as `ProcessFile`, and the slot table is left as it was found |
| Scanner.RedrawStep | src/Scanner.cs:297-299 | one more processed file adds its count to the redraws exactly when the interval has passed or it is the last file |
| Scanner.Enumerate | src/Scanner.cs:353-384 | a bag is enumerated as a sequence holding exactly its items |
| Scanner.ScanAll | src/Scanner.cs:204-323 | after all tasks, the bags are those of the files in order, a fault happened exactly when some file faulted, the redraw counts are exactly those meeting the condition, and the slot table ends as it began |
| Scanner.RunScan | src/Scanner.cs:43-387 | no access exactly for a blank directory or failed listing; a crash exactly for negative limits or a faulted task; a stall exactly for a zero limit with files; otherwise the report holds the bags, every file is counted, and the redraws are exactly the counts meeting the condition; all this assuming that console, pattern-file and report-file I/O never throws |
| Scanner.ReportAccountsForEveryFile | src/Scanner.cs:353-384 | a written report reads back with one entry per major file, one per minor file and the clean files, so every processed file appears once |
| Scanner.SingleProcessorStalls | src/Scanner.cs:200 | on one processor, without `--filethreads N`, a directory with a video file is never scanned |
| Text.TrimFacts | src/Scanner.cs:361 | `Trim` leaves no white space at either end and removes only white space; the result is empty exactly for blank text |
| Text.TrimIdempotent | src/Scanner.cs:361 | trimming twice is trimming once |
| Text.LowerIdempotent | src/Scanner.cs:263 | lower-casing twice is lower-casing once |
| Text.LowerOfTrimmed | src/Scanner.cs:21 | lower-casing keeps a trimmed string trimmed |
| Text.SplitPiecesAvoid | src/Scanner.cs:359 | no piece of `Split(';')` contains ';' |
| Text.JoinSplit | src/Scanner.cs:359 | joining the pieces of a split with the separator gives back the text |
| Text.SplitJoin | src/Scanner.cs:359 | splitting a join of separator-free pieces gives back the pieces |
| Text.ReplaceCrLfRemovesAll | src/Scanner.cs:282 | no CR LF remains after the replacement |
| Text.ReplaceCrLfNoCr | src/Scanner.cs:282 | text without CR is left unchanged |
| Text.ReplaceCrLfJoin | src/Scanner.cs:282 | lines without CR joined by CR LF come out joined by "; " |
| Text.Split | src/Scanner.cs:359 | `Split(';')` gives at least one piece, even for empty text |
| Text.SplitNoSep | src/Scanner.cs:359 | text without the separator splits into itself alone |
| Text.ReplaceCrLfAfterLine | src/Scanner.cs:282 | a line without CR followed by CR LF comes out as the line followed by "; " |
| Text.JoinSemicolonSpace | src/Scanner.cs:282 | a join by "; " is a join by ';' of the pieces after the first, each led by a space |
| Text.LowerOfLowerCase | ScanOptions.cs:31-53 | text without upper-case letters is its own lower-case form |

## Left out

- Launching ffmpeg and reading its error stream (src/Scanner.cs:234-259) are external
  process I/O. `ffmpeg` is a function from the argument string to a `ToolRun`, and
  the Windows priority change is left out.
- Directory enumeration (lines 55-60) is filesystem I/O. The listing is an input
  holding each file's path and the result of `Path.GetExtension`; `None` means the
  enumeration threw.
- Writing the report file, its directory and its timestamped name (lines 348-353) are
  I/O and the clock. The report is the sequence of lines handed to the writer.
- Concurrency is not modelled: the semaphores, async tasks, `Task.WhenAll`,
  `Interlocked`, `lock` and the concurrent collections. Files are processed one after
  another in listing order.
  - The bags are multisets, and the report takes them in whatever order `Enumerate`
    picks.
  - `currentlyProcessing` (line 103) is never written by the code, so it is left out.
- Console output is left out: the summary, the drawing of the progress bar and the
  clearing of the display (lines 78-95, 108-191, 326-345, 386). The "Could not access"
  message and the warnings are the exception. The warnings are returned as strings, and
  `CouldNotAccess` stands for the message.
- `UpdateProgressBar` computes its percentage with `double`. Floating point is left
  out; only whether the bar is redrawn is modelled.
- The wall clock and `_lastProgressUpdate` (lines 29-31, 298-304) are left out. The
  input `elapsed(n)` says whether the interval has passed when the count reaches `n`.
- `LoadPatterns` reading the file, and the lazy static caching of both lists (lines
  13-14, 19-20, 265-266), are left out. A pattern file is an input (`None` if it is
  missing), loaded once per run.
- `Lower` and `EqualsIgnoreCase` map only ASCII letters. They do not model culture
  rules or non-ASCII case mapping.
- `TryParseInt` does not model `int.TryParse`'s use of the current culture's sign
  symbols.
- A Dafny `char` is a Unicode scalar value, while a C# `char` is a UTF-16 code unit.
  Strings holding unpaired surrogates are legal in C# and in Windows file names, but
  the model cannot represent them. None of the separators the model works with is a
  surrogate.
- Null arguments are not modelled: `args` is a sequence of strings.
- `Environment.ProcessorCount` is the parameter `processorCount`, a natural number.
- IsJoinedFlag / StartsWith: only an ordinal, character-by-character prefix test is
  modelled. The `args[i].StartsWith("--")` of ScanOptions.cs:59 compares by the current
  culture and skips ignorable characters, so an argument such as a soft hyphen followed
  by `--a=1` draws a warning in C# but not in the model. `ParseWarnings` and
  `JoinedFlagWarnings` inherit this.
- RunScan: its outcome clauses assume that none of these calls throws: the console
  calls, the reading of an existing pattern file, the creation of the `BorkScans`
  directory, and the opening and writing of the report file (lines 348-384). In the
  C# they can, and then the run aborts with no report or a cut-off one:
  - The progress bar is drawn at row `Math.Min(progressBarTop, BufferHeight -
    displayLines - 1)`, with `displayLines = FileThreads + 2` (src/Scanner.cs:87,
    113-114). That row is negative whenever the console buffer has fewer than
    `FileThreads + 3` rows, for example 32 threads in a 24-row terminal.
    `Console.SetCursorPosition` (line 120) then throws inside the task, after the file
    is counted. The task faults and `Task.WhenAll` (line 323) rethrows. The clearing of
    lines 328-339 can throw the same way outside the tasks.
  - `File.ReadAllLines` (line 21) throws for a pattern file that exists but cannot be
    read. That faults every task whose file produced output (line 265).
  - `Directory.CreateDirectory` (line 348) throws when a file named `BorkScans`
    already exists in the working directory, or when that directory is read-only.
    `new StreamWriter` and `WriteLine` (lines 353-384) throw on a full disk. None of
    these calls is inside a `try`, so `RunAsync` throws after "Scan complete!" is
    printed.
  - In all these cases the model returns `Completed` with a report.
- Scanner.ArgumentsRoundTrip: holds only for paths without '"'. The code does not
  escape quotes in the file name.
- The model splits several pieces of inline C# into helpers of their own:
  - `ScanOptions.ApplyArgument` is the body of `Parse`'s loop.
  - `ClassifyErrors` is lines 261-283.
  - `ScanState.Store` is lines 292-297.
  - `ScanState.ProcessFile` and `ScanState.ScanFile` are the task lambda of lines
    207-318.
  - `WriteBullets`, `WriteEntries` and `WriteLines` are the loops of lines 355-384.
  - `Enumerate` is the `foreach` over a bag.
- src/Config.cs, src/HelpPrinter.cs and Program.cs are not part of this model.
  Program.cs only dispatches to `Parse`, the help text and `RunAsync`.
