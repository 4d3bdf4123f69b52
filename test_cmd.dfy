/** gop test: strips gop's own -e flag, chooses the target, vendors the dependencies first when
    -e was given, and runs `go test` in the target's directory with GOPATH set to the project. */
module TestCommand {
  import opened Wrappers
  import opened Strings
  import opened Files
  import opened Seqs
  import opened GoBuild
  import opened Build
  import Ensure

  /** The scan of runTest: whether -v was given and the index of the last -e. */
  method ScanTestFlags(args: seq<string>) returns (showLog: bool, ensureFlagIdx: int)
    ensures showLog <==> "-v" in args
    ensures ensureFlagIdx == LastIndex(args, "-e")
  {
    showLog := false;
    ensureFlagIdx := -1;
    var i := 0;
    while i < |args|
      invariant 0 <= i <= |args|
      invariant showLog <==> "-v" in args[..i]
      invariant ensureFlagIdx == LastIndex(args[..i], "-e")
    {
      var arg := args[i];
      if arg == "-v" {
        showLog := true;
      } else if arg == "-e" {
        ensureFlagIdx := i;
      }
      assert args[..i + 1] == args[..i] + [arg];
      LastIndexSnoc(args[..i], arg, "-e");
      i := i + 1;
    }
    assert args[..i] == args;
  }

  /** The arguments left for `go test` and the target name: the last -e removed, then the
      target name taken off the front. */
  function TestArgs(args: seq<string>): (r: (string, seq<string>))
  {
    TargetArg(Del(args, LastIndex(args, "-e")))
  }

  /** Only the last -e goes: every other argument stays, in order, -v and any earlier -e
      included; after it the target name, if any, leaves the front. */
  lemma TestArgsKeepOthers(args: seq<string>)
    ensures var e := LastIndex(args, "-e");
      var stripped := Del(args, e);
      stripped == Omit(args, e, -1) &&
      |stripped| == |args| - (if "-e" in args then 1 else 0) &&
      (forall k :: 0 <= k < |args| && k != e ==> args[k] in stripped) &&
      ((TestArgs(args).0 == "" && TestArgs(args).1 == stripped) || [TestArgs(args).0] + TestArgs(args).1 == stripped)
  {
    var e := LastIndex(args, "-e");
    OmitIsDel(args, e, -1);
    forall k | 0 <= k < |args| && k != e
      ensures args[k] in Del(args, e)
    {
      OmitKeeps(args, e, -1, k);
    }
  }

  /** The flag scan and argument rewriting of runTest: whether -v was given, whether -e was,
      the target name and the arguments left for `go test`. */
  method PrepareTest(args: seq<string>) returns (showLog: bool, ensureFlag: bool, targetName: string, rest: seq<string>)
    ensures showLog <==> "-v" in args
    ensures ensureFlag <==> "-e" in args
    ensures (targetName, rest) == TestArgs(args)
  {
    var ensureFlagIdx;
    showLog, ensureFlagIdx := ScanTestFlags(args);
    rest := args;
    if ensureFlagIdx > -1 {
      rest := rest[..ensureFlagIdx] + rest[ensureFlagIdx + 1..];
    }
    targetName := "";
    if |rest| > 0 && !HasPrefix(rest[0], "-") {
      targetName := rest[0];
      rest := rest[1..];
    }
    ensureFlag := ensureFlagIdx > -1;
  }

  /** The `go test` run for a chosen target. */
  function TestRun(args: seq<string>, envs: seq<string>, projectRoot: Path, target: Target): Invocation {
    Invocation(TestArgs(args).1, WithGopath(envs, projectRoot), SrcDir(projectRoot, target.dir))
  }

  /** runTest after the working directory, the project root and gop.yml are known. `gopathEnv`
      is the value of the GOPATH variable, if set, which is also the toolchain's $GOPATH. The
      test command declares no flags of its own, so the ensure run it asks for has every option
      off. */
  method RunTest(session: Session, ensurer: Ensure.Ensurer, fs: FileSystem, w: Toolchain,
                 get: Ensure.Getter, opts: Ensure.Options, gopathEnv: Option<Path>, projectRoot: Path,
                 atTargetLevel: bool, dirName: string, targets: seq<Target>, args: seq<string>,
                 envs: seq<string>, fuel: Fuel)
    returns (showLog: bool, r: Result<Invocation>)
    requires opts == Ensure.Options(false, false, false)
    requires gopathEnv.Some? ==> gopathEnv.value == w.envGopath
    modifies session, ensurer, fs
    ensures showLog <==> "-v" in args
    ensures var chosen := AnalysisTargetSpec(old(session.curTarget), targets, atTargetLevel, dirName,
                                             TestArgs(args).0, old(fs.tree), projectRoot);
      (chosen.Err? ==> r == Err(chosen.error) && fs.tree == old(fs.tree) && session.curTarget == old(session.curTarget)) &&
      (chosen.Ok? ==> session.curTarget == Some(chosen.value)) &&
      (chosen.Ok? && "-e" !in args ==> r == Ok(TestRun(args, envs, projectRoot, chosen.value)) && fs.tree == old(fs.tree)) &&
      (chosen.Ok? && "-e" in args && gopathEnv.None? ==> r == Err(GopathNotFound) && fs.tree == old(fs.tree)) &&
      (!(chosen.Ok? && "-e" in args && gopathEnv.Some?) ==> ensurer.updated == old(ensurer.updated))
    ensures var chosen := AnalysisTargetSpec(old(session.curTarget), targets, atTargetLevel, dirName,
                                             TestArgs(args).0, old(fs.tree), projectRoot);
      chosen.Ok? && "-e" in args && gopathEnv.Some? ==>
        var ensured := Ensure.EnsureSpec(w, get, opts, old(fs.tree), old(ensurer.updated), gopathEnv.value,
                                         projectRoot, SrcDir(projectRoot, chosen.value.dir), fuel);
        fs.tree == ensured.0 && ensurer.updated == ensured.1 &&
        r == (if ensured.2.Some? then Err(ensured.2.value) else Ok(TestRun(args, envs, projectRoot, chosen.value)))
  {
    var ensureFlag, targetName, rest;
    showLog, ensureFlag, targetName, rest := PrepareTest(args);
    var err := session.AnalysisTarget(targets, atTargetLevel, dirName, targetName, fs.tree, projectRoot);
    if err.Some? {
      return showLog, Err(err.value);
    }
    var cur := session.curTarget.value;
    if ensureFlag {
      if gopathEnv.None? {
        return showLog, Err(GopathNotFound);
      }
      var ensureErr := ensurer.Ensure(w, get, opts, fs, gopathEnv.value, projectRoot, SrcDir(projectRoot, cur.dir), fuel);
      if ensureErr.Some? {
        return showLog, Err(ensureErr.value);
      }
    }
    var env := SetGopathEnv(envs, projectRoot);
    return showLog, Ok(Invocation(rest, env, SrcDir(projectRoot, cur.dir)));
  }
}
