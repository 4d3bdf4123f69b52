/** gop build: choosing the target to build, rewriting the `go build` arguments so that an
    output name is always given, and pointing GOPATH at the project for the child process. The
    target chosen is process-wide state (curTarget), kept here in a Session. */
module Build {
  import opened Wrappers
  import opened Strings
  import opened Files
  import opened CmdUtil
  import opened Seqs

  /** A target of gop.yml: the binary name, its directory under src, and the files whose change
      makes `gop run` restart it. */
  datatype Target = Target(name: string, dir: string, monitors: seq<string>)

  /** What the build command is run with: its arguments, its environment and its directory. */
  datatype Invocation = Invocation(args: seq<string>, env: seq<string>, dir: Path)

  predicate Names(tg: Target, n: string) {
    tg.name == n || tg.dir == n
  }

  /** The index of the first target whose name or directory is n, or -1. */
  function FirstNamed(targets: seq<Target>, n: string): (k: int)
    ensures -1 <= k < |targets|
    ensures k >= 0 ==> Names(targets[k], n) && forall j :: 0 <= j < k ==> !Names(targets[j], n)
    ensures k < 0 ==> forall j :: 0 <= j < |targets| ==> !Names(targets[j], n)
  {
    if targets == [] then -1
    else if Names(targets[0], n) then 0
    else
      var k := FirstNamed(targets[1..], n);
      if k < 0 then -1 else k + 1
  }

  /** analysisTarget: the target curTarget holds afterwards, or the error. `cur` is curTarget
      before the call; `atTargetLevel` says the working directory is a target directory, whose
      base name is dirName. */
  function AnalysisTargetSpec(cur: Option<Target>, targets: seq<Target>, atTargetLevel: bool,
                              dirName: string, targetName: string, t: Fs, projectRoot: Path): (r: Result<Target>)
    ensures targetName == "" && atTargetLevel ==> r == Ok(Target(dirName, dirName, []))
    ensures targetName == "" && !atTargetLevel ==>
      r == (if cur.Some? then Ok(cur.value) else if targets == [] then Err(NoTargets) else Ok(targets[0]))
    ensures targetName != "" && r.Ok? && cur.None? ==> Names(r.value, targetName)
    ensures r.Err? ==> cur.None?
  {
    if targetName == "" then
      if atTargetLevel then Ok(Target(dirName, dirName, []))
      else if cur.Some? then Ok(cur.value)
      else if |targets| == 0 then Err(NoTargets)
      else Ok(targets[0])
    else
      var k := FirstNamed(targets, targetName);
      if k >= 0 then Ok(targets[k])
      else if cur.Some? then Ok(cur.value)
      else if !IsExist(t, SrcDir(projectRoot, targetName)) then Err(UnknownTarget)
      else Ok(Target(targetName, targetName, []))
  }

  /** A named target is the first configured one carrying that name or directory, whatever
      curTarget held. */
  lemma NamedTargetChosen(cur: Option<Target>, targets: seq<Target>, atTargetLevel: bool,
                          dirName: string, targetName: string, t: Fs, projectRoot: Path, k: nat)
    requires targetName != "" && k < |targets| && Names(targets[k], targetName)
    ensures var r := AnalysisTargetSpec(cur, targets, atTargetLevel, dirName, targetName, t, projectRoot);
      exists j :: 0 <= j <= k && r == Ok(targets[j]) && forall i :: 0 <= i < j ==> !Names(targets[i], targetName)
  {
    var j := FirstNamed(targets, targetName);
    assert 0 <= j <= k;
  }

  /** "unknow target" is reported exactly when a name matches no target, no target was chosen
      before, and src/name does not exist; an existing src/name becomes a target of its own. */
  lemma UnknownTargetExactly(cur: Option<Target>, targets: seq<Target>, atTargetLevel: bool,
                             dirName: string, targetName: string, t: Fs, projectRoot: Path)
    requires targetName != ""
    ensures var r := AnalysisTargetSpec(cur, targets, atTargetLevel, dirName, targetName, t, projectRoot);
      (r == Err(UnknownTarget) <==>
        cur.None? && (forall j :: 0 <= j < |targets| ==> !Names(targets[j], targetName)) &&
        !IsExist(t, SrcDir(projectRoot, targetName))) &&
      ((cur.None? && (forall j :: 0 <= j < |targets| ==> !Names(targets[j], targetName)) &&
        IsExist(t, SrcDir(projectRoot, targetName))) ==> r == Ok(Target(targetName, targetName, [])))
  {
    var k := FirstNamed(targets, targetName);
    if k >= 0 {
      assert Names(targets[k], targetName);
    }
  }

  /** The first argument names the target, and is dropped, iff it does not start with '-'. */
  function TargetArg(args: seq<string>): (r: (string, seq<string>))
    ensures |args| > 0 && !HasPrefix(args[0], "-") ==> [r.0] + r.1 == args
    ensures !(|args| > 0 && !HasPrefix(args[0], "-")) ==> r == ("", args)
  {
    if |args| > 0 && !HasPrefix(args[0], "-") then (args[0], args[1..]) else ("", args)
  }

  /** The suffix of the built binary. */
  function BinaryExt(goos: string): (r: string)
    ensures r == ".exe" <==> goos == "windows"
    ensures r != ".exe" ==> r == ""
  {
    if goos == "windows" then ".exe" else ""
  }

  /** The arguments kept, then "-o" out: the -o added is the first one. */
  function WithOutput(kept: seq<string>, out: string): (r: seq<string>)
    requires "-o" !in kept
    ensures FirstIndex(r, "-o") == |kept| && |r| == |kept| + 2
    ensures r[..|kept|] == kept && r[|kept|..] == ["-o", out]
  {
    var r := kept + ["-o", out];
    assert r[..|kept|] == kept;
    FirstIndexAt(r, |kept|, "-o");
    r
  }

  /** The -o rewriting: the new arguments and the new target name. A value after the first -o
      becomes the target name; a trailing -o, or none at all, gets "-o" name+ext at the end. */
  function OutputArgs(args: seq<string>, name: string, ext: string): (r: (seq<string>, string))
    ensures var k := FirstIndex(r.0, "-o");
      0 <= k < |r.0| - 1 && k <= |args| && r.0[..k] == args[..k]
    ensures var find := FirstIndex(args, "-o");
      0 <= find < |args| - 1 ==> r == (args, args[find + 1])
    ensures var find := FirstIndex(args, "-o");
      !(0 <= find < |args| - 1) ==>
        r.1 == name && |r.0| >= 2 && r.0[|r.0| - 2..] == ["-o", name + ext] &&
        r.0[..|r.0| - 2] == (if find < 0 then args else args[..find])
  {
    var find := FirstIndex(args, "-o");
    if find > -1 then
      if find < |args| - 1 then (args, args[find + 1])
      else
        (WithOutput(args[..find], name + ext), name)
    else (WithOutput(args, name + ext), name)
  }

  // ---------------------------------------------------------------------------
  // GOPATH in the child environment

  predicate IsGopath(env: string) {
    HasPrefix(env, "GOPATH=")
  }

  /** The index of the first GOPATH= entry, or -1. */
  function FirstGopathIndex(envs: seq<string>): (i: int)
    ensures -1 <= i < |envs|
    ensures i >= 0 ==> IsGopath(envs[i]) && forall k :: 0 <= k < i ==> !IsGopath(envs[k])
    ensures i < 0 ==> forall k :: 0 <= k < |envs| ==> !IsGopath(envs[k])
  {
    if envs == [] then -1
    else if IsGopath(envs[0]) then 0
    else
      var j := FirstGopathIndex(envs[1..]);
      if j < 0 then -1 else j + 1
  }

  /** The index of the last GOPATH= entry, or -1: the one a child process sees, since os/exec
      keeps the last value of a repeated variable. */
  function LastGopathIndex(envs: seq<string>): (i: int)
    ensures -1 <= i < |envs|
    ensures i >= 0 ==> IsGopath(envs[i]) && forall k :: i < k < |envs| ==> !IsGopath(envs[k])
    ensures i < 0 ==> forall k :: 0 <= k < |envs| ==> !IsGopath(envs[k])
  {
    if envs == [] then -1
    else if IsGopath(envs[|envs| - 1]) then |envs| - 1
    else LastGopathIndex(envs[..|envs| - 1])
  }

  /** The environment handed to the build: the first GOPATH= entry replaced when its index is
      above 0, otherwise a new entry appended. */
  function WithGopath(envs: seq<string>, root: Path): seq<string>
  {
    var i := FirstGopathIndex(envs);
    if i > 0 then envs[i := "GOPATH=" + root] else envs + ["GOPATH=" + root]
  }

  predicate AtMostOneGopath(envs: seq<string>) {
    forall a, b :: 0 <= a < b < |envs| && IsGopath(envs[a]) ==> !IsGopath(envs[b])
  }

  lemma GopathEntry(root: Path)
    ensures IsGopath("GOPATH=" + root)
  {
    assert ("GOPATH=" + root)[..|"GOPATH="|] == "GOPATH=";
  }

  /** With at most one GOPATH= entry to start from, the child sees GOPATH=root. */
  lemma EffectiveGopath(envs: seq<string>, root: Path)
    requires AtMostOneGopath(envs)
    ensures var r := WithGopath(envs, root);
      LastGopathIndex(r) >= 0 && r[LastGopathIndex(r)] == "GOPATH=" + root
  {
    GopathEntry(root);
    var r := WithGopath(envs, root);
    var i := FirstGopathIndex(envs);
    if i > 0 {
      assert IsGopath(envs[i]) && r[i] == "GOPATH=" + root;
      forall k | i < k < |r|
        ensures !IsGopath(r[k])
      {
        assert r[k] == envs[k];
        assert !IsGopath(envs[k]);
      }
      var j := LastGopathIndex(r);
      assert j >= i;
      assert LastGopathIndex(r) == i;
    } else {
      assert LastGopathIndex(r) == |envs|;
    }
  }

  /** A GOPATH= entry at index 0 is not replaced: the environment then holds two, the old one
      first. */
  lemma GopathAtZeroDuplicated(envs: seq<string>, root: Path)
    requires FirstGopathIndex(envs) == 0
    ensures var r := WithGopath(envs, root);
      |r| == |envs| + 1 && r[0] == envs[0] && IsGopath(r[0]) && r[|envs|] == "GOPATH=" + root
  {
  }

  /** The loop finding the first GOPATH= entry. */
  method GopathIndex(envs: seq<string>) returns (gopathIdx: int)
    ensures gopathIdx == FirstGopathIndex(envs)
  {
    gopathIdx := -1;
    var i := 0;
    while i < |envs|
      invariant 0 <= i <= |envs|
      invariant forall k :: 0 <= k < i ==> !IsGopath(envs[k])
    {
      if IsGopath(envs[i]) {
        gopathIdx := i;
        break;
      }
      i := i + 1;
    }
  }

  /** The environment rewriting of build, release, test and vet. */
  method SetGopathEnv(envs: seq<string>, root: Path) returns (r: seq<string>)
    ensures r == WithGopath(envs, root)
  {
    var gopathIdx := GopathIndex(envs);
    var newGopath := "GOPATH=" + root;
    r := envs;
    if gopathIdx > 0 {
      r := r[gopathIdx := newGopath];
    } else {
      r := r + [newGopath];
    }
  }

  /** The loop finding the first occurrence of a flag. */
  method FindFlag(args: seq<string>, flag: string) returns (find: int)
    ensures find == FirstIndex(args, flag)
  {
    find := -1;
    var i := 0;
    while i < |args|
      invariant 0 <= i <= |args|
      invariant flag !in args[..i]
    {
      if args[i] == flag {
        find := i;
        return;
      }
      assert args[..i + 1] == args[..i] + [args[i]];
      i := i + 1;
    }
    assert args[..i] == args;
  }

  /** The target chosen by the running process. */
  class Session {
    var curTarget: Option<Target>

    constructor ()
      ensures curTarget == None
    {
      curTarget := None;
    }

    /** analysisTarget. The match found by the directory-level loop is overwritten at once by
        {dirName, dirName}, so that loop has no effect and is not repeated here. */
    method AnalysisTarget(targets: seq<Target>, atTargetLevel: bool, dirName: string,
                          targetName: string, t: Fs, projectRoot: Path) returns (err: Option<Error>)
      modifies this
      ensures var r := AnalysisTargetSpec(old(curTarget), targets, atTargetLevel, dirName, targetName, t, projectRoot);
        (r.Ok? ==> err == None && curTarget == Some(r.value)) &&
        (r.Err? ==> err == Some(r.error) && curTarget == old(curTarget))
    {
      if targetName == "" {
        if atTargetLevel {
          curTarget := Some(Target(dirName, dirName, []));
        }
        if curTarget == None {
          if |targets| == 0 {
            return Some(NoTargets);
          }
          curTarget := Some(targets[0]);
        }
      } else {
        var i := 0;
        var found := false;
        while i < |targets|
          invariant 0 <= i <= |targets|
          invariant forall k :: 0 <= k < i ==> !Names(targets[k], targetName)
        {
          if targets[i].name == targetName || targets[i].dir == targetName {
            curTarget := Some(targets[i]);
            found := true;
            assert FirstNamed(targets, targetName) == i;
            break;
          }
          i := i + 1;
        }
        if !found && curTarget == None {
          if !IsExist(t, SrcDir(projectRoot, targetName)) {
            return Some(UnknownTarget);
          }
          curTarget := Some(Target(targetName, targetName, []));
        }
      }
      return None;
    }

    /** runBuild after the working directory and gop.yml are read: the command it starts. The
        target name a user-given -o value sets is written back into curTarget. */
    method RunBuild(t: Fs, projectRoot: Path, atTargetLevel: bool, dirName: string,
                    targets: seq<Target>, args: seq<string>, goos: string, envs: seq<string>)
      returns (r: Result<Invocation>)
      modifies this
      ensures var (targetName, rest) := TargetArg(args);
        var chosen := AnalysisTargetSpec(old(curTarget), targets, atTargetLevel, dirName, targetName, t, projectRoot);
        (chosen.Err? ==> r == Err(chosen.error) && curTarget == old(curTarget)) &&
        (chosen.Ok? ==>
          var (newArgs, newName) := OutputArgs(rest, chosen.value.name, BinaryExt(goos));
          curTarget == Some(chosen.value.(name := newName)) &&
          r == Ok(Invocation(newArgs, WithGopath(envs, projectRoot), SrcDir(projectRoot, chosen.value.dir))))
    {
      var targetName := "";
      var rest := args;
      if |args| > 0 && !HasPrefix(args[0], "-") {
        targetName := args[0];
        rest := args[1..];
      }
      var err := AnalysisTarget(targets, atTargetLevel, dirName, targetName, t, projectRoot);
      if err.Some? {
        return Err(err.value);
      }
      var cur := curTarget.value;
      var find := FindFlag(rest, "-o");
      var ext := BinaryExt(goos);
      if find > -1 {
        if find < |rest| - 1 {
          cur := cur.(name := rest[find + 1]);
          curTarget := Some(cur);
        } else {
          rest := rest[..find] + ["-o", cur.name + ext];
        }
      } else {
        rest := rest + ["-o", cur.name + ext];
      }
      var env := SetGopathEnv(envs, projectRoot);
      return Ok(Invocation(rest, env, SrcDir(projectRoot, cur.dir)));
    }
  }
}
