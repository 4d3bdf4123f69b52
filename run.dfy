/** gop run: the decision taken when a watched file changes, and the stripping of gop's own
    flags (-w, -e) from the arguments before the build. */
module Run {
  import opened Strings
  import opened Files
  import opened Seqs
  import opened Build

  /** The three outcomes of needReBuild, in the order of their constants 0, 1 and 2. */
  datatype Action = NoNeedReBuildAndRun | NeedReBuildAndRun | NeedReRun

  /** filepath.Join(projectRoot, "src", dir, f) for a monitored file f. */
  function MonitorPath(projectRoot: Path, dir: string, f: string): Path {
    PathJoin(SrcDir(projectRoot, dir), f)
  }

  /** The changed file is one of the current target's monitored files. */
  predicate Monitored(projectRoot: Path, cur: Target, fileName: Path) {
    exists k :: 0 <= k < |cur.monitors| && MonitorPath(projectRoot, cur.dir, cur.monitors[k]) == fileName
  }

  /** needReBuild: a .go file means rebuild and run, a .log file means nothing, and any other
      file means run again exactly when the current target monitors it. */
  method NeedReBuild(projectRoot: Path, cur: Target, fileName: Path) returns (r: Action)
    ensures HasSuffix(fileName, ".go") ==> r == NeedReBuildAndRun
    ensures !HasSuffix(fileName, ".go") && HasSuffix(fileName, ".log") ==> r == NoNeedReBuildAndRun
    ensures !HasSuffix(fileName, ".go") && !HasSuffix(fileName, ".log") ==>
      r != NeedReBuildAndRun && (r == NeedReRun <==> Monitored(projectRoot, cur, fileName))
  {
    if HasSuffix(fileName, ".go") {
      return NeedReBuildAndRun;
    } else if HasSuffix(fileName, ".log") {
      return NoNeedReBuildAndRun;
    }
    var i := 0;
    while i < |cur.monitors|
      invariant 0 <= i <= |cur.monitors|
      invariant forall k :: 0 <= k < i ==> MonitorPath(projectRoot, cur.dir, cur.monitors[k]) != fileName
    {
      if MonitorPath(projectRoot, cur.dir, cur.monitors[i]) == fileName {
        return NeedReRun;
      }
      i := i + 1;
    }
    return NoNeedReBuildAndRun;
  }

  /** The scan of runRun over its arguments: whether -v was given, and the indices of the last
      -w and the last -e. */
  method ScanRunFlags(args: seq<string>) returns (showLog: bool, watchFlagIdx: int, ensureFlagIdx: int)
    ensures showLog <==> "-v" in args
    ensures watchFlagIdx == LastIndex(args, "-w")
    ensures ensureFlagIdx == LastIndex(args, "-e")
  {
    showLog := false;
    watchFlagIdx := -1;
    ensureFlagIdx := -1;
    var i := 0;
    while i < |args|
      invariant 0 <= i <= |args|
      invariant showLog <==> "-v" in args[..i]
      invariant watchFlagIdx == LastIndex(args[..i], "-w")
      invariant ensureFlagIdx == LastIndex(args[..i], "-e")
    {
      var arg := args[i];
      if arg == "-v" {
        showLog := true;
      } else if arg == "-w" {
        watchFlagIdx := i;
      } else if arg == "-e" {
        ensureFlagIdx := i;
      }
      assert args[..i + 1] == args[..i] + [arg];
      LastIndexSnoc(args[..i], arg, "-w");
      LastIndexSnoc(args[..i], arg, "-e");
      i := i + 1;
    }
    assert args[..i] == args;
  }

  /** The flag handling of runRun: whether -v was given, the index of the last -w, whether -e
      was given, and the arguments without the last -w and the last -e, the others in order. */
  method StripRunFlags(args: seq<string>) returns (showLog: bool, watchFlagIdx: int, ensureFlag: bool, rest: seq<string>)
    ensures showLog <==> "-v" in args
    ensures watchFlagIdx == LastIndex(args, "-w")
    ensures ensureFlag <==> "-e" in args
    ensures rest == Omit(args, LastIndex(args, "-w"), LastIndex(args, "-e"))
  {
    var ensureFlagIdx;
    showLog, watchFlagIdx, ensureFlagIdx := ScanRunFlags(args);
    rest, ensureFlagIdx := CutRunFlags(args, watchFlagIdx, ensureFlagIdx);
    ensureFlag := ensureFlagIdx > -1;
  }

  /** The two cuts of runRun: the -w at watchFlagIdx, then the -e, whose index moves down by one
      when it came after the -w. */
  method CutRunFlags(args: seq<string>, watchFlagIdx: int, ensureFlagIdx: int) returns (rest: seq<string>, movedIdx: int)
    requires -1 <= watchFlagIdx < |args| && -1 <= ensureFlagIdx < |args|
    requires watchFlagIdx != ensureFlagIdx || watchFlagIdx < 0
    ensures rest == Omit(args, watchFlagIdx, ensureFlagIdx)
    ensures movedIdx > -1 <==> ensureFlagIdx > -1
  {
    movedIdx := ensureFlagIdx;
    rest := args;
    if watchFlagIdx > -1 {
      rest := rest[..watchFlagIdx] + rest[watchFlagIdx + 1..];
      if movedIdx > watchFlagIdx {
        movedIdx := movedIdx - 1;
      }
    }
    assert rest == Del(args, watchFlagIdx);
    if movedIdx > -1 {
      rest := rest[..movedIdx] + rest[movedIdx + 1..];
    }
    assert rest == Del(Del(args, watchFlagIdx), movedIdx);
    DelBoth(args, watchFlagIdx, ensureFlagIdx);
  }

  /** Deleting the -w and then the -e, whose index moves down by one when it came after the -w,
      removes both. */
  lemma DelBoth(args: seq<string>, w: int, e: int)
    requires -1 <= w < |args| && -1 <= e < |args| && (w != e || w < 0)
    ensures Del(Del(args, w), if 0 <= w < e then e - 1 else e) == Omit(args, w, e)
  {
    OmitIsDel(args, w, e);
    if 0 <= w < e {
      DelTwice(args, w, e);
    }
  }

  /** Every argument other than the removed -w and -e stays, -v included. */
  lemma RunKeepsOtherArgs(args: seq<string>, k: nat)
    requires k < |args| && k != LastIndex(args, "-w") && k != LastIndex(args, "-e")
    ensures args[k] in Omit(args, LastIndex(args, "-w"), LastIndex(args, "-e"))
  {
    OmitKeeps(args, LastIndex(args, "-w"), LastIndex(args, "-e"), k);
  }

  /** Exactly one argument goes for each of -w and -e present. */
  lemma RunStripCount(args: seq<string>)
    ensures |Omit(args, LastIndex(args, "-w"), LastIndex(args, "-e"))| ==
      |args| - (if "-w" in args then 1 else 0) - (if "-e" in args then 1 else 0)
  {
    OmitIsDel(args, LastIndex(args, "-w"), LastIndex(args, "-e"));
  }
}
