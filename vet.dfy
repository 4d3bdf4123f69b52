/** gop vet: runs `go vet` in the target's directory with GOPATH set to the project. A first
    argument holding a '/' is a package path, not a target name. */
module Vet {
  import opened Wrappers
  import opened Strings
  import opened Files
  import opened Build

  /** The first argument names the target, and is dropped, iff it neither starts with '-' nor
      contains '/'. */
  function VetTargetArg(args: seq<string>): (r: (string, seq<string>))
    ensures |args| > 0 && !HasPrefix(args[0], "-") && !Contains(args[0], "/") ==> [r.0] + r.1 == args
    ensures !(|args| > 0 && !HasPrefix(args[0], "-") && !Contains(args[0], "/")) ==> r == ("", args)
  {
    if |args| > 0 && !HasPrefix(args[0], "-") && !Contains(args[0], "/") then (args[0], args[1..])
    else ("", args)
  }

  /** Flags are never taken for the target name: every argument starting with '-', -v
      included, reaches `go vet`, as does every argument after the first. */
  lemma VetPassesFlags(args: seq<string>, k: nat)
    requires k < |args| && (k > 0 || HasPrefix(args[k], "-"))
    ensures args[k] in VetTargetArg(args).1
  {
    if |args| > 0 && !HasPrefix(args[0], "-") && !Contains(args[0], "/") {
      assert args[k] == args[1..][k - 1];
    }
  }

  /** The same holds for the target argument of build and test. */
  lemma TargetArgPassesFlags(args: seq<string>, k: nat)
    requires k < |args| && (k > 0 || HasPrefix(args[k], "-"))
    ensures args[k] in TargetArg(args).1
  {
    if |args| > 0 && !HasPrefix(args[0], "-") {
      assert args[k] == args[1..][k - 1];
    }
  }

  /** The scan of runVet: whether -v was given; nothing is removed. */
  method ScanVerbose(args: seq<string>) returns (showLog: bool)
    ensures showLog <==> "-v" in args
  {
    showLog := false;
    var i := 0;
    while i < |args|
      invariant 0 <= i <= |args|
      invariant showLog <==> "-v" in args[..i]
    {
      if args[i] == "-v" {
        showLog := true;
      }
      assert args[..i + 1] == args[..i] + [args[i]];
      i := i + 1;
    }
    assert args[..i] == args;
  }

  /** runVet after the project root and gop.yml are known. */
  method RunVet(session: Session, t: Fs, projectRoot: Path, atTargetLevel: bool, dirName: string,
                targets: seq<Target>, args: seq<string>, envs: seq<string>)
    returns (showLog: bool, r: Result<Invocation>)
    modifies session
    ensures showLog <==> "-v" in args
    ensures var (targetName, rest) := VetTargetArg(args);
      var chosen := AnalysisTargetSpec(old(session.curTarget), targets, atTargetLevel, dirName, targetName, t, projectRoot);
      (chosen.Err? ==> r == Err(chosen.error) && session.curTarget == old(session.curTarget)) &&
      (chosen.Ok? ==> r == Ok(Invocation(rest, WithGopath(envs, projectRoot), SrcDir(projectRoot, chosen.value.dir))) &&
                      session.curTarget == Some(chosen.value))
  {
    showLog := ScanVerbose(args);
    var rest := args;
    var targetName := "";
    if |args| > 0 && !HasPrefix(args[0], "-") && !Contains(args[0], "/") {
      targetName := args[0];
      rest := args[1..];
    }
    var err := session.AnalysisTarget(targets, atTargetLevel, dirName, targetName, t, projectRoot);
    if err.Some? {
      return showLog, Err(err.value);
    }
    var env := SetGopathEnv(envs, projectRoot);
    return showLog, Ok(Invocation(rest, env, SrcDir(projectRoot, session.curTarget.value.dir)));
  }
}
