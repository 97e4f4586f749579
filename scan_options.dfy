/**
  The command line: a `ScanOptions` object with its defaults, and `ScanOptions.Parse`,
  a left-to-right pass over the arguments that updates the object's properties, takes
  the following argument as the value of `--filethreads` and `--ffmpeginstances`, and
  prints a warning for an unrecognised `--flag=value` argument.
  `Environment.ProcessorCount` is the parameter `processorCount`; the printed warnings
  are returned as a sequence of lines.
 */
module CommandLine {
  import opened Wrappers
  import opened Text
  import opened Int32Text

  /** The values of the properties of a `ScanOptions` object. */
  datatype Options = Options(
    directory: Option<string>,
    scanMode: string,
    fileThreads: int,
    ffmpegInstances: int,
    recursive: bool)

  /** The parsing loop's state: the options so far and the warnings printed so far. */
  datatype Parsed = Parsed(options: Options, warnings: seq<string>)

  /** The property initialisers of `ScanOptions`; the directory starts out null. The
      processor count is never negative, so `/` here agrees with C#'s truncating `/`. */
  function Defaults(processorCount: nat): Options {
    Options(None, "full", processorCount / 2, 4, true)
  }

  /** The line printed for an argument written as `--flag=value`. */
  function Warning(arg: string): string {
    "Warning: Please separate flag and value: '" + arg + "' should be '--flag value'"
  }

  /** An unrecognised argument that draws a warning: it starts with "--" (a plain prefix
      test, see `StartsWith`) and contains '='. */
  predicate IsJoinedFlag(arg: string) {
    StartsWith(arg, "--") && Contains(arg, "=")
  }

  /** The options object right after it is created: the directory is the first argument,
      and a second argument "fast" or "full", in any case, sets the scan mode. */
  function Initial(args: seq<string>, processorCount: nat): Options
    requires |args| >= 1
  {
    var o := Defaults(processorCount).(directory := Some(args[0]));
    if |args| > 1 && (EqualsIgnoreCase(args[1], "fast") || EqualsIgnoreCase(args[1], "full"))
    then o.(scanMode := Lower(args[1]))
    else o
  }

  /** The cases of the `switch` on the lower-cased argument. */
  datatype ArgKind = FileThreadsFlag | FfmpegInstancesFlag | RecursiveFlag | NoRecursiveFlag | Unrecognised

  function KindOf(arg: string): ArgKind {
    var flag := Lower(arg);
    if flag == "--filethreads" then FileThreadsFlag
    else if flag == "--ffmpeginstances" then FfmpegInstancesFlag
    else if flag == "--recursive" then RecursiveFlag
    else if flag == "--norecursive" then NoRecursiveFlag
    else Unrecognised
  }

  /** Flag names are matched ignoring case: an argument is a given flag exactly when it
      equals the flag's name up to case. */
  lemma FlagNamesIgnoreCase(arg: string)
    ensures KindOf(arg) == FileThreadsFlag <==> EqualsIgnoreCase(arg, "--filethreads")
    ensures KindOf(arg) == FfmpegInstancesFlag <==> EqualsIgnoreCase(arg, "--ffmpeginstances")
    ensures KindOf(arg) == RecursiveFlag <==> EqualsIgnoreCase(arg, "--recursive")
    ensures KindOf(arg) == NoRecursiveFlag <==> EqualsIgnoreCase(arg, "--norecursive")
  {
    LowerOfLowerCase("--filethreads");
    LowerOfLowerCase("--ffmpeginstances");
    LowerOfLowerCase("--recursive");
    LowerOfLowerCase("--norecursive");
  }

  /** `--filethreads N` at index `i` with an integer `N`. */
  predicate SetsFileThreads(args: seq<string>, i: int) {
    0 <= i && i + 1 < |args| && KindOf(args[i]) == FileThreadsFlag && TryParseInt(args[i + 1]).Some?
  }

  /** `--ffmpeginstances N` at index `i` with an integer `N`. */
  predicate SetsFfmpegInstances(args: seq<string>, i: int) {
    0 <= i && i + 1 < |args| && KindOf(args[i]) == FfmpegInstancesFlag && TryParseInt(args[i + 1]).Some?
  }

  /** `--recursive` or `--norecursive` at index `i`. */
  predicate SetsRecursive(args: seq<string>, i: int) {
    0 <= i < |args| && (KindOf(args[i]) == RecursiveFlag || KindOf(args[i]) == NoRecursiveFlag)
  }

  /** The flag at index `i` takes the next argument as its value, which the loop then skips. */
  predicate Consumes(args: seq<string>, i: int) {
    SetsFileThreads(args, i) || SetsFfmpegInstances(args, i)
  }

  /** `ft > ProcessorCount ? ProcessorCount : ft` */
  function ClampThreads(ft: int, processorCount: nat): int {
    if ft > processorCount then processorCount else ft
  }

  /** One pass of the loop body at index `i`, apart from the skip of a consumed value. */
  function Step(args: seq<string>, i: nat, st: Parsed, processorCount: nat): Parsed
    requires i < |args|
  {
    match KindOf(args[i])
    case FileThreadsFlag =>
      if SetsFileThreads(args, i)
      then st.(options := st.options.(fileThreads := ClampThreads(TryParseInt(args[i + 1]).value, processorCount)))
      else st
    case FfmpegInstancesFlag =>
      if SetsFfmpegInstances(args, i)
      then st.(options := st.options.(ffmpegInstances := TryParseInt(args[i + 1]).value))
      else st
    case RecursiveFlag => st.(options := st.options.(recursive := true))
    case NoRecursiveFlag => st.(options := st.options.(recursive := false))
    case Unrecognised =>
      if IsJoinedFlag(args[i]) then st.(warnings := st.warnings + [Warning(args[i])]) else st
  }

  /** A step leaves the directory and the scan mode alone. */
  lemma StepKeepsDirectoryAndMode(args: seq<string>, i: nat, st: Parsed, processorCount: nat)
    requires i < |args|
    ensures Step(args, i, st, processorCount).options.directory == st.options.directory
    ensures Step(args, i, st, processorCount).options.scanMode == st.options.scanMode
  {
  }

  /** A step sets the thread count exactly at a `--filethreads N`, capped at the processor count. */
  lemma StepFileThreads(args: seq<string>, i: nat, st: Parsed, processorCount: nat)
    requires i < |args|
    ensures Step(args, i, st, processorCount).options.fileThreads
         == if SetsFileThreads(args, i) then ClampThreads(TryParseInt(args[i + 1]).value, processorCount)
            else st.options.fileThreads
  {
  }

  /** A step sets the instance count exactly at a `--ffmpeginstances N`. */
  lemma StepFfmpegInstances(args: seq<string>, i: nat, st: Parsed, processorCount: nat)
    requires i < |args|
    ensures Step(args, i, st, processorCount).options.ffmpegInstances
         == if SetsFfmpegInstances(args, i) then TryParseInt(args[i + 1]).value
            else st.options.ffmpegInstances
  {
  }

  /** A step sets recursion exactly at `--recursive` or `--norecursive`. */
  lemma StepRecursive(args: seq<string>, i: nat, st: Parsed, processorCount: nat)
    requires i < |args|
    ensures Step(args, i, st, processorCount).options.recursive
         == if SetsRecursive(args, i) then KindOf(args[i]) == RecursiveFlag else st.options.recursive
  {
  }

  /** A step adds a warning exactly for an argument that starts with "--" and contains '=':
      a recognised flag contains no '=', so it never draws one. */
  lemma StepWarnings(args: seq<string>, i: nat, st: Parsed, processorCount: nat)
    requires i < |args|
    ensures Step(args, i, st, processorCount).warnings
         == st.warnings + (if IsJoinedFlag(args[i]) then [Warning(args[i])] else [])
  {
    if KindOf(args[i]) != Unrecognised {
      LowerKeepsEquals(args[i]);
      ContainsChar(args[i], '=');
      assert !IsJoinedFlag(args[i]);
    }
  }

  /** The loop from index `i` on, as the source runs it: a consumed value is skipped. */
  function Loop(args: seq<string>, i: nat, st: Parsed, processorCount: nat): Parsed
    requires i <= |args|
    decreases |args| - i
  {
    if i == |args| then st
    else Loop(args, if Consumes(args, i) then i + 2 else i + 1, Step(args, i, st, processorCount), processorCount)
  }

  /** One turn of the loop: from index `i` with state `st` it goes on at `next` with `st'`. */
  lemma LoopTurn(args: seq<string>, i: nat, st: Parsed, next: nat, st': Parsed, processorCount: nat)
    requires i < |args| && next <= |args|
    requires next == (if Consumes(args, i) then i + 2 else i + 1)
    requires st' == Step(args, i, st, processorCount)
    ensures Loop(args, i, st, processorCount) == Loop(args, next, st', processorCount)
  {
  }

  /** `ScanOptions.Parse` on values: `None` where the source returns null. */
  function ParseArgs(args: seq<string>, processorCount: nat): (r: Option<Parsed>)
    ensures r.None? <==> |args| == 0 || IsBlank(args[0])
  {
    if |args| < 1 || IsBlank(args[0]) then None
    else Some(Loop(args, 0, Parsed(Initial(args, processorCount), []), processorCount))
  }

  /** A reference loop that examines every index, skipping nothing. */
  function Fold(args: seq<string>, i: nat, st: Parsed, processorCount: nat): Parsed
    requires i <= |args|
    decreases |args| - i
  {
    if i == |args| then st else Fold(args, i + 1, Step(args, i, st, processorCount), processorCount)
  }

  /** The warnings the arguments call for, in order. */
  function JoinedFlagWarnings(args: seq<string>): (r: seq<string>)
    ensures |r| <= |args|
  {
    if args == [] then []
    else (if IsJoinedFlag(args[0]) then [Warning(args[0])] else []) + JoinedFlagWarnings(args[1..])
  }

  /** Every recognised flag starts with "--", and so does the argument naming it. */
  lemma FlagDoubleDash(a: string)
    requires KindOf(a) != Unrecognised
    ensures StartsWith(a, "--")
  {
    var flag := Lower(a);
    assert flag[0] == '-' && flag[1] == '-';
    assert LowerChar(a[0]) == '-' && LowerChar(a[1]) == '-';
  }

  /** A string that parses as an integer never starts with "--". */
  lemma ParsedNotDoubleDash(s: string)
    requires TryParseInt(s).Some?
    ensures !StartsWith(s, "--")
  {
    if StartsWith(s, "--") {
      DoubleDashDoesNotParse(s);
    }
  }

  /** A consumed value is an integer, so examining it would change nothing. */
  lemma ValueIsInert(args: seq<string>, i: nat, st: Parsed, processorCount: nat)
    requires i < |args| && TryParseInt(args[i]).Some?
    ensures Step(args, i, st, processorCount) == st
  {
    ParsedNotDoubleDash(args[i]);
    if KindOf(args[i]) != Unrecognised {
      FlagDoubleDash(args[i]);
    }
  }

  /** Skipping consumed values does not change the outcome: the source's loop gives
      what a loop examining every argument gives. */
  lemma {:induction false} LoopIsFold(args: seq<string>, i: nat, st: Parsed, processorCount: nat)
    requires i <= |args|
    ensures Loop(args, i, st, processorCount) == Fold(args, i, st, processorCount)
    decreases |args| - i
  {
    if i < |args| {
      var next := Step(args, i, st, processorCount);
      if Consumes(args, i) {
        LoopIsFold(args, i + 2, next, processorCount);
        ValueIsInert(args, i + 1, next, processorCount);
        assert Fold(args, i + 1, next, processorCount) == Fold(args, i + 2, next, processorCount);
      } else {
        LoopIsFold(args, i + 1, next, processorCount);
      }
    }
  }

  /** Neither the directory nor the scan mode is touched by the loop. */
  lemma {:induction false} FoldKeepsDirectoryAndMode(args: seq<string>, i: nat, st: Parsed, processorCount: nat)
    requires i <= |args|
    ensures Fold(args, i, st, processorCount).options.directory == st.options.directory
    ensures Fold(args, i, st, processorCount).options.scanMode == st.options.scanMode
    decreases |args| - i
  {
    if i < |args| {
      StepKeepsDirectoryAndMode(args, i, st, processorCount);
      FoldKeepsDirectoryAndMode(args, i + 1, Step(args, i, st, processorCount), processorCount);
    }
  }

  /** Without a `--filethreads N` from index `i` on, the thread count is left alone. */
  lemma {:induction false} FoldFileThreadsUnset(args: seq<string>, i: nat, st: Parsed, processorCount: nat)
    requires i <= |args|
    requires forall k :: i <= k < |args| ==> !SetsFileThreads(args, k)
    ensures Fold(args, i, st, processorCount).options.fileThreads == st.options.fileThreads
    decreases |args| - i
  {
    if i < |args| {
      StepFileThreads(args, i, st, processorCount);
      FoldFileThreadsUnset(args, i + 1, Step(args, i, st, processorCount), processorCount);
    }
  }

  /** A `--filethreads N` with no other after it decides the thread count. */
  lemma FoldFileThreadsAt(args: seq<string>, j: nat, st: Parsed, processorCount: nat)
    requires SetsFileThreads(args, j)
    requires forall k :: j < k < |args| ==> !SetsFileThreads(args, k)
    ensures Fold(args, j, st, processorCount).options.fileThreads
         == ClampThreads(TryParseInt(args[j + 1]).value, processorCount)
  {
    StepFileThreads(args, j, st, processorCount);
    FoldFileThreadsUnset(args, j + 1, Step(args, j, st, processorCount), processorCount);
  }

  /** The last `--filethreads N` decides the thread count. */
  lemma {:induction false} FoldFileThreadsLast(args: seq<string>, i: nat, j: nat, st: Parsed, processorCount: nat)
    requires i <= j && SetsFileThreads(args, j)
    requires forall k :: j < k < |args| ==> !SetsFileThreads(args, k)
    ensures Fold(args, i, st, processorCount).options.fileThreads
         == ClampThreads(TryParseInt(args[j + 1]).value, processorCount)
    decreases |args| - i
  {
    if i < j {
      FoldFileThreadsLast(args, i + 1, j, Step(args, i, st, processorCount), processorCount);
    } else {
      FoldFileThreadsAt(args, j, st, processorCount);
    }
  }


  /** Without a `--ffmpeginstances N` from index `i` on, the instance count is left alone. */
  lemma {:induction false} FoldFfmpegUnset(args: seq<string>, i: nat, st: Parsed, processorCount: nat)
    requires i <= |args|
    requires forall k :: i <= k < |args| ==> !SetsFfmpegInstances(args, k)
    ensures Fold(args, i, st, processorCount).options.ffmpegInstances == st.options.ffmpegInstances
    decreases |args| - i
  {
    if i < |args| {
      StepFfmpegInstances(args, i, st, processorCount);
      FoldFfmpegUnset(args, i + 1, Step(args, i, st, processorCount), processorCount);
    }
  }

  /** A `--ffmpeginstances N` with no other after it decides the instance count. */
  lemma FoldFfmpegAt(args: seq<string>, j: nat, st: Parsed, processorCount: nat)
    requires SetsFfmpegInstances(args, j)
    requires forall k :: j < k < |args| ==> !SetsFfmpegInstances(args, k)
    ensures Fold(args, j, st, processorCount).options.ffmpegInstances == TryParseInt(args[j + 1]).value
  {
    StepFfmpegInstances(args, j, st, processorCount);
    FoldFfmpegUnset(args, j + 1, Step(args, j, st, processorCount), processorCount);
  }

  /** The last `--ffmpeginstances N` decides the instance count, unclamped. */
  lemma {:induction false} FoldFfmpegLast(args: seq<string>, i: nat, j: nat, st: Parsed, processorCount: nat)
    requires i <= j && SetsFfmpegInstances(args, j)
    requires forall k :: j < k < |args| ==> !SetsFfmpegInstances(args, k)
    ensures Fold(args, i, st, processorCount).options.ffmpegInstances == TryParseInt(args[j + 1]).value
    decreases |args| - i
  {
    if i < j {
      FoldFfmpegLast(args, i + 1, j, Step(args, i, st, processorCount), processorCount);
    } else {
      FoldFfmpegAt(args, j, st, processorCount);
    }
  }


  /** Without `--recursive` or `--norecursive` from index `i` on, recursion is left alone. */
  lemma {:induction false} FoldRecursiveUnset(args: seq<string>, i: nat, st: Parsed, processorCount: nat)
    requires i <= |args|
    requires forall k :: i <= k < |args| ==> !SetsRecursive(args, k)
    ensures Fold(args, i, st, processorCount).options.recursive == st.options.recursive
    decreases |args| - i
  {
    if i < |args| {
      StepRecursive(args, i, st, processorCount);
      FoldRecursiveUnset(args, i + 1, Step(args, i, st, processorCount), processorCount);
    }
  }

  /** A `--recursive` or `--norecursive` with neither after it decides recursion. */
  lemma FoldRecursiveAt(args: seq<string>, j: nat, st: Parsed, processorCount: nat)
    requires SetsRecursive(args, j)
    requires forall k :: j < k < |args| ==> !SetsRecursive(args, k)
    ensures Fold(args, j, st, processorCount).options.recursive == (KindOf(args[j]) == RecursiveFlag)
  {
    StepRecursive(args, j, st, processorCount);
    FoldRecursiveUnset(args, j + 1, Step(args, j, st, processorCount), processorCount);
  }

  /** The last `--recursive` or `--norecursive` decides recursion. */
  lemma {:induction false} FoldRecursiveLast(args: seq<string>, i: nat, j: nat, st: Parsed, processorCount: nat)
    requires i <= j && SetsRecursive(args, j)
    requires forall k :: j < k < |args| ==> !SetsRecursive(args, k)
    ensures Fold(args, i, st, processorCount).options.recursive == (KindOf(args[j]) == RecursiveFlag)
    decreases |args| - i
  {
    if i < j {
      FoldRecursiveLast(args, i + 1, j, Step(args, i, st, processorCount), processorCount);
    } else {
      FoldRecursiveAt(args, j, st, processorCount);
    }
  }


  /** Lower-casing keeps every '='. */
  lemma LowerKeepsEquals(a: string)
    ensures '=' in a ==> '=' in Lower(a)
  {
    if '=' in a {
      var k :| 0 <= k < |a| && a[k] == '=';
      assert Lower(a)[k] == '=';
    }
  }

  /** The loop's warnings are exactly those the arguments it examines call for. */
  lemma {:induction false} FoldWarnings(args: seq<string>, i: nat, st: Parsed, processorCount: nat)
    requires i <= |args|
    ensures Fold(args, i, st, processorCount).warnings == st.warnings + JoinedFlagWarnings(args[i..])
    decreases |args| - i
  {
    if i < |args| {
      var next := Step(args, i, st, processorCount);
      StepWarnings(args, i, st, processorCount);
      FoldWarnings(args, i + 1, next, processorCount);
      assert args[i..][1..] == args[i + 1..];
      AppendAssoc(st.warnings, if IsJoinedFlag(args[i]) then [Warning(args[i])] else [], JoinedFlagWarnings(args[i + 1..]));
    }
  }

  /** The thread count never exceeds the processor count once it does not. */
  lemma {:induction false} FoldFileThreadsBound(args: seq<string>, i: nat, st: Parsed, processorCount: nat)
    requires i <= |args|
    requires st.options.fileThreads <= processorCount
    ensures Fold(args, i, st, processorCount).options.fileThreads <= processorCount
    decreases |args| - i
  {
    if i < |args| {
      StepFileThreads(args, i, st, processorCount);
      FoldFileThreadsBound(args, i + 1, Step(args, i, st, processorCount), processorCount);
    }
  }

  // ---- Properties of the whole parse ----

  /** The parsed directory is the first argument; the scan mode is the lower-cased second
      argument when that is "fast" or "full" in any case, and "full" otherwise. */
  lemma ParseDirectoryAndMode(args: seq<string>, processorCount: nat)
    requires ParseArgs(args, processorCount).Some?
    ensures var o := ParseArgs(args, processorCount).value.options;
      && o.directory == Some(args[0])
      && o.scanMode == (if |args| > 1 && (EqualsIgnoreCase(args[1], "fast") || EqualsIgnoreCase(args[1], "full"))
                        then Lower(args[1]) else "full")
      && (o.scanMode == "fast" || o.scanMode == "full")
  {
    var st := Parsed(Initial(args, processorCount), []);
    LoopIsFold(args, 0, st, processorCount);
    FoldKeepsDirectoryAndMode(args, 0, st, processorCount);
    assert Lower("fast") == "fast" && Lower("full") == "full";
  }

  /** The last `--filethreads N` with an integer `N` sets the thread count to `N`,
      capped at the processor count; without one the default stays. */
  lemma ParseFileThreads(args: seq<string>, processorCount: nat)
    requires ParseArgs(args, processorCount).Some?
    ensures var o := ParseArgs(args, processorCount).value.options;
      && ((forall k :: 0 <= k < |args| ==> !SetsFileThreads(args, k)) ==> o.fileThreads == processorCount / 2)
      && (forall j :: SetsFileThreads(args, j) && (forall k :: j < k < |args| ==> !SetsFileThreads(args, k))
            ==> o.fileThreads == ClampThreads(TryParseInt(args[j + 1]).value, processorCount))
  {
    var st := Parsed(Initial(args, processorCount), []);
    LoopIsFold(args, 0, st, processorCount);
    if forall k :: 0 <= k < |args| ==> !SetsFileThreads(args, k) {
      FoldFileThreadsUnset(args, 0, st, processorCount);
    }
    forall j | SetsFileThreads(args, j) && (forall k :: j < k < |args| ==> !SetsFileThreads(args, k))
      ensures Fold(args, 0, st, processorCount).options.fileThreads
              == ClampThreads(TryParseInt(args[j + 1]).value, processorCount)
    {
      FoldFileThreadsLast(args, 0, j, st, processorCount);
    }
  }

  /** The thread count never exceeds the processor count. */
  lemma ParseFileThreadsBound(args: seq<string>, processorCount: nat)
    requires ParseArgs(args, processorCount).Some?
    ensures ParseArgs(args, processorCount).value.options.fileThreads <= processorCount
  {
    var st := Parsed(Initial(args, processorCount), []);
    LoopIsFold(args, 0, st, processorCount);
    FoldFileThreadsBound(args, 0, st, processorCount);
  }

  /** The last `--ffmpeginstances N` with an integer `N` sets the instance count to `N`
      exactly; without one it stays 4. */
  lemma ParseFfmpegInstances(args: seq<string>, processorCount: nat)
    requires ParseArgs(args, processorCount).Some?
    ensures var o := ParseArgs(args, processorCount).value.options;
      && ((forall k :: 0 <= k < |args| ==> !SetsFfmpegInstances(args, k)) ==> o.ffmpegInstances == 4)
      && (forall j :: SetsFfmpegInstances(args, j) && (forall k :: j < k < |args| ==> !SetsFfmpegInstances(args, k))
            ==> o.ffmpegInstances == TryParseInt(args[j + 1]).value)
  {
    var st := Parsed(Initial(args, processorCount), []);
    LoopIsFold(args, 0, st, processorCount);
    if forall k :: 0 <= k < |args| ==> !SetsFfmpegInstances(args, k) {
      FoldFfmpegUnset(args, 0, st, processorCount);
    }
    forall j | SetsFfmpegInstances(args, j) && (forall k :: j < k < |args| ==> !SetsFfmpegInstances(args, k))
      ensures Fold(args, 0, st, processorCount).options.ffmpegInstances == TryParseInt(args[j + 1]).value
    {
      FoldFfmpegLast(args, 0, j, st, processorCount);
    }
  }

  /** Recursion is on unless the last of `--recursive` and `--norecursive` is `--norecursive`. */
  lemma ParseRecursive(args: seq<string>, processorCount: nat)
    requires ParseArgs(args, processorCount).Some?
    ensures var o := ParseArgs(args, processorCount).value.options;
      && ((forall k :: 0 <= k < |args| ==> !SetsRecursive(args, k)) ==> o.recursive)
      && (forall j :: SetsRecursive(args, j) && (forall k :: j < k < |args| ==> !SetsRecursive(args, k))
            ==> o.recursive == (KindOf(args[j]) == RecursiveFlag))
  {
    var st := Parsed(Initial(args, processorCount), []);
    LoopIsFold(args, 0, st, processorCount);
    if forall k :: 0 <= k < |args| ==> !SetsRecursive(args, k) {
      FoldRecursiveUnset(args, 0, st, processorCount);
    }
    forall j | SetsRecursive(args, j) && (forall k :: j < k < |args| ==> !SetsRecursive(args, k))
      ensures Fold(args, 0, st, processorCount).options.recursive == (KindOf(args[j]) == RecursiveFlag)
    {
      FoldRecursiveLast(args, 0, j, st, processorCount);
    }
  }

  /** A warning is printed, in order, for exactly the arguments that start with "--"
      and contain '='. */
  lemma ParseWarnings(args: seq<string>, processorCount: nat)
    requires ParseArgs(args, processorCount).Some?
    ensures ParseArgs(args, processorCount).value.warnings == JoinedFlagWarnings(args)
  {
    var st := Parsed(Initial(args, processorCount), []);
    LoopIsFold(args, 0, st, processorCount);
    FoldWarnings(args, 0, st, processorCount);
    assert args[0..] == args;
  }

  class ScanOptions {
    var directory: Option<string>
    var scanMode: string
    var fileThreads: int
    var ffmpegInstances: int
    var recursive: bool

    function Value(): Options
      reads this
    {
      Options(directory, scanMode, fileThreads, ffmpegInstances, recursive)
    }

    /** `new ScanOptions()`: every property at its initialiser. */
    constructor (processorCount: nat)
      ensures Value() == Defaults(processorCount)
    {
      directory := None;
      scanMode := "full";
      fileThreads := processorCount / 2;
      ffmpegInstances := 4;
      recursive := true;
    }

    /** One pass of the body of the loop in `Parse` at index `i`: the `switch` on the
        lower-cased argument. Returns the index of the last argument used, which is
        `i + 1` when the flag took the next argument as its value, and the warnings
        with the one this argument draws, if any. */
    method ApplyArgument(args: seq<string>, i: nat, processorCount: nat, warnings: seq<string>)
      returns (last: nat, newWarnings: seq<string>)
      requires i < |args|
      modifies this
      ensures Parsed(Value(), newWarnings) == Step(args, i, Parsed(old(Value()), warnings), processorCount)
      ensures last == if Consumes(args, i) then i + 1 else i
    {
      last, newWarnings := i, warnings;
      var flag := KindOf(args[i]);
      if flag == FileThreadsFlag {
        if i + 1 < |args| {
          var ft := TryParseInt(args[i + 1]);
          if ft.Some? {
            fileThreads := if ft.value > processorCount then processorCount else ft.value;
            last := i + 1;
          }
        }
      } else if flag == FfmpegInstancesFlag {
        if i + 1 < |args| {
          var fi := TryParseInt(args[i + 1]);
          if fi.Some? {
            ffmpegInstances := fi.value;
            last := i + 1;
          }
        }
      } else if flag == RecursiveFlag {
        recursive := true;
      } else if flag == NoRecursiveFlag {
        recursive := false;
      } else if StartsWith(args[i], "--") && Contains(args[i], "=") {
        newWarnings := warnings + [Warning(args[i])];
      }
    }

    /** `ScanOptions.Parse(args)`: null for a missing or blank first argument; otherwise a
        new options object updated in place by one pass over the arguments, together with
        the warnings printed on the way. */
    static method Parse(args: seq<string>, processorCount: nat) returns (options: ScanOptions?, warnings: seq<string>)
      ensures options == null <==> ParseArgs(args, processorCount).None?
      ensures options == null ==> warnings == []
      ensures options != null ==>
                (fresh(options) && Parsed(options.Value(), warnings) == ParseArgs(args, processorCount).value)
    {
      warnings := [];
      if |args| < 1 || IsBlank(args[0]) {
        return null, warnings;
      }
      options := new ScanOptions(processorCount);
      options.directory := Some(args[0]);
      if |args| > 1 && (EqualsIgnoreCase(args[1], "fast") || EqualsIgnoreCase(args[1], "full")) {
        options.scanMode := Lower(args[1]);
      }
      ghost var outcome := ParseArgs(args, processorCount).value;
      assert outcome == Loop(args, 0, Parsed(options.Value(), []), processorCount);
      var i := 0;
      while i < |args|
        invariant 0 <= i <= |args|
        invariant Loop(args, i, Parsed(options.Value(), warnings), processorCount) == outcome
        decreases |args| - i
      {
        ghost var before := Parsed(options.Value(), warnings);
        ghost var start := i;
        i, warnings := options.ApplyArgument(args, i, processorCount, warnings);
        i := i + 1;
        LoopTurn(args, start, before, i, Parsed(options.Value(), warnings), processorCount);
      }
    }
  }
}
