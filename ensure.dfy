/** cmd/ensure.go: ensure walks the imports of the project's target directory and brings each
    missing dependency into src/vendor, from $GOPATH/src or, with the get option, after a
    `go get`. With the update option every dependency is fetched again with `go get -u` and
    re-copied, once per process. */
module Ensure {
  import opened Wrappers
  import opened Strings
  import opened Files
  import opened CmdUtil
  import opened GoBuild
  import opened Add
  import Status
  import Build

  /** `go get [-u] name` run in the project, which is not part of this model: any change to the
      file system, with or without an error. The flag says whether -u is passed. */
  type Getter = (Fs, string, bool) -> (Fs, Option<Error>)

  /** The command's flags: --dry, --get and --update. */
  datatype Options = Options(dry: bool, get: bool, update: bool)

  /** How the handling of one import ends: go on with the next one, end the scan, or scan the
      project again from the start. */
  datatype Step = Continue(t: Fs) | Finish(t: Fs, err: Option<Error>) | Restart(t: Fs, updated: set<string>)

  /** Imports that ensure leaves alone: those present under the project's src directory, standard
      packages, "C" and relative names. */
  predicate Ignored(w: Toolchain, t: Fs, projectRoot: Path, imp: string) {
    IsExist(t, SrcDir(projectRoot, imp)) || imp in w.goRepoPath || IsPseudoOrRelative(imp)
  }

  /** The body of ensure's loop for one import, given the set of repositories updated so far. */
  function EnsureStep(w: Toolchain, get: Getter, opts: Options, t: Fs, updated: set<string>,
                      globalGoPath: Path, projectRoot: Path, imp: string): (r: Step)
    ensures Ignored(w, t, projectRoot, imp) || opts.dry ==> r == Continue(t)
    ensures r.Restart? && opts.update ==> RepoOf(imp) !in updated && r.updated == updated + {RepoOf(imp)}
    ensures r.Restart? && !opts.update ==> r.updated == updated
    ensures !opts.update && IsDir(t, Target(projectRoot, imp)) ==> r == Continue(t)
    ensures opts.update && RepoOf(imp) in updated ==> r == Continue(t)
  {
    if Ignored(w, t, projectRoot, imp) || opts.dry then Continue(t)
    else
      var parent := RepoOf(imp);
      var srcDir := Source(globalGoPath, imp);
      var dstDir := Target(projectRoot, imp);
      if opts.update then
        if parent in updated then Continue(t)
        else
          var (t1, e1) := get(t, parent, true);
          if e1.Some? then Finish(t1, e1)
          else
            var (t2, e2) := CopyDirSpec(AfterRemoveAll(t1, dstDir), srcDir, dstDir, GitFilter);
            if e2.Some? then Finish(t2, e2)
            else Restart(t2, updated + {parent})
      else match IsDirExist(t, dstDir)
        case Err(e) => Finish(t, Some(e))
        case Ok(true) => Continue(t)
        case Ok(false) =>
          match IsDirExist(t, srcDir)
          case Err(e) => Finish(t, Some(e))
          case Ok(false) =>
            if opts.get then
              var (t1, e1) := get(t, parent, false);
              if e1.Some? then Finish(t1, e1) else Restart(t1, updated)
            else Finish(t, None)
          case Ok(true) =>
            var (t1, e1) := CopyDirSpec(t, srcDir, dstDir, GitFilter);
            if e1.Some? then Finish(t1, e1) else Continue(t1)
  }

  /** ensure(cmd, globalGoPath, projectRoot, targetDir): the disk, the set of updated repositories
      and the error at the end. `fuel` is the depth of the goroutine stack, which each restart
      uses up. */
  function EnsureSpec(w: Toolchain, get: Getter, opts: Options, t: Fs, updated: set<string>,
                      globalGoPath: Path, projectRoot: Path, targetDir: Path, fuel: Fuel)
    : (r: (Fs, set<string>, Option<Error>))
    decreases fuel, 0
  {
    if fuel.Empty? then (t, updated, Some(StackExhausted))
    else match Status.ListImportsSpec(w, t, ".", PathJoin(projectRoot, "src"), targetDir, "", true, fuel.rest)
      case Err(e) => (t, updated, Some(e))
      case Ok(imports) => EnsureLoop(w, get, opts, t, updated, globalGoPath, projectRoot, targetDir, imports, 0, fuel.rest)
  }

  /** The loop of ensure over imports[i..]. */
  function EnsureLoop(w: Toolchain, get: Getter, opts: Options, t: Fs, updated: set<string>,
                      globalGoPath: Path, projectRoot: Path, targetDir: Path, imports: seq<string>, i: nat,
                      fuel: Fuel): (r: (Fs, set<string>, Option<Error>))
    requires i <= |imports|
    decreases fuel, 1, |imports| - i
  {
    if i == |imports| then (t, updated, None)
    else match EnsureStep(w, get, opts, t, updated, globalGoPath, projectRoot, imports[i])
      case Continue(t1) => EnsureLoop(w, get, opts, t1, updated, globalGoPath, projectRoot, targetDir, imports, i + 1, fuel)
      case Finish(t1, e) => (t1, updated, e)
      case Restart(t1, u1) => EnsureSpec(w, get, opts, t1, u1, globalGoPath, projectRoot, targetDir, fuel)
  }

  /** The process-wide set of repositories already updated, with ensure over it. */
  class Ensurer {
    var updated: set<string>

    constructor ()
      ensures updated == {}
    {
      updated := {};
    }

    /** ensure, as the source runs it: a restart is a nested call. */
    method Ensure(w: Toolchain, get: Getter, opts: Options, fs: FileSystem, globalGoPath: Path,
                  projectRoot: Path, targetDir: Path, fuel: Fuel) returns (err: Option<Error>)
      modifies this, fs
      ensures (fs.tree, updated, err)
           == EnsureSpec(w, get, opts, old(fs.tree), old(updated), globalGoPath, projectRoot, targetDir, fuel)
      decreases fuel
    {
      if fuel.Empty? {
        return Some(StackExhausted);
      }
      var listed := Status.ListImports(w, fs, ".", PathJoin(projectRoot, "src"), targetDir, "", true, fuel.rest);
      if listed.Err? {
        return Some(listed.error);
      }
      var imports := listed.value;
      for i := 0 to |imports|
        invariant EnsureLoop(w, get, opts, fs.tree, updated, globalGoPath, projectRoot, targetDir, imports, i, fuel.rest)
               == EnsureSpec(w, get, opts, old(fs.tree), old(updated), globalGoPath, projectRoot, targetDir, fuel)
      {
        var step := Handle(w, get, opts, fs, globalGoPath, projectRoot, imports[i]);
        if step.Finish? {
          return step.err;
        }
        if step.Restart? {
          err := Ensure(w, get, opts, fs, globalGoPath, projectRoot, targetDir, fuel.rest);
          return;
        }
      }
      return None;
    }

    /** One turn of the loop: it performs the step on the disk and the set, and reports how it
        ended. */
    method Handle(w: Toolchain, get: Getter, opts: Options, fs: FileSystem, globalGoPath: Path,
                  projectRoot: Path, imp: string) returns (step: Step)
      modifies this, fs
      ensures step == EnsureStep(w, get, opts, old(fs.tree), old(updated), globalGoPath, projectRoot, imp)
      ensures fs.tree == step.t
      ensures updated == if step.Restart? then step.updated else old(updated)
    {
      var t := fs.tree;
      if Ignored(w, t, projectRoot, imp) || opts.dry {
        return Continue(t);
      }
      var parent := RepoOf(imp);
      var srcDir := Source(globalGoPath, imp);
      var dstDir := Target(projectRoot, imp);
      if opts.update {
        if parent in updated {
          return Continue(t);
        }
        var got := get(t, parent, true);
        fs.tree := got.0;
        if got.1.Some? {
          return Finish(fs.tree, got.1);
        }
        fs.RemoveAll(dstDir);
        var e := CopyDir(fs, srcDir, dstDir, GitFilter);
        if e.Some? {
          return Finish(fs.tree, e);
        }
        updated := updated + {parent};
        return Restart(fs.tree, updated);
      }
      var exist := IsDirExist(t, dstDir);
      if exist.Err? {
        return Finish(t, Some(exist.error));
      }
      if !exist.value {
        exist := IsDirExist(t, srcDir);
        if exist.Err? {
          return Finish(t, Some(exist.error));
        }
        if !exist.value {
          if opts.get {
            var got := get(t, parent, false);
            fs.tree := got.0;
            if got.1.Some? {
              return Finish(fs.tree, got.1);
            }
            return Restart(fs.tree, updated);
          }
          return Finish(t, None);
        }
        var e := CopyDir(fs, srcDir, dstDir, GitFilter);
        if e.Some? {
          return Finish(fs.tree, e);
        }
      }
      return Continue(fs.tree);
    }
  }

  // ---------------------------------------------------------------------------
  // Properties

  /** runEnsure after the working directory, the project root and gop.yml are known. `gopathEnv`
      is the value of the GOPATH variable, if set, which is also the toolchain's $GOPATH; the first argument names the target unless it
      starts with '-'. */
  method RunEnsure(session: Build.Session, ensurer: Ensurer, fs: FileSystem, w: Toolchain, get: Getter,
                   opts: Options, gopathEnv: Option<Path>, projectRoot: Path, atTargetLevel: bool,
                   dirName: string, targets: seq<Build.Target>, args: seq<string>, fuel: Fuel)
    returns (err: Option<Error>)
    requires gopathEnv.Some? ==> gopathEnv.value == w.envGopath
    modifies session, ensurer, fs
    ensures gopathEnv.None? ==>
              err == Some(GopathNotFound) && fs.tree == old(fs.tree) && ensurer.updated == old(ensurer.updated) &&
              session.curTarget == old(session.curTarget)
    ensures var chosen := Build.AnalysisTargetSpec(old(session.curTarget), targets, atTargetLevel, dirName,
                                                   Build.TargetArg(args).0, old(fs.tree), projectRoot);
      gopathEnv.Some? && chosen.Err? ==>
        err == Some(chosen.error) && fs.tree == old(fs.tree) && ensurer.updated == old(ensurer.updated) &&
        session.curTarget == old(session.curTarget)
    ensures var chosen := Build.AnalysisTargetSpec(old(session.curTarget), targets, atTargetLevel, dirName,
                                                   Build.TargetArg(args).0, old(fs.tree), projectRoot);
      gopathEnv.Some? && chosen.Ok? ==> session.curTarget == Some(chosen.value)
    ensures var chosen := Build.AnalysisTargetSpec(old(session.curTarget), targets, atTargetLevel, dirName,
                                                   Build.TargetArg(args).0, old(fs.tree), projectRoot);
      gopathEnv.Some? && chosen.Ok? ==>
        (fs.tree, ensurer.updated, err)
        == EnsureSpec(w, get, opts, old(fs.tree), old(ensurer.updated), gopathEnv.value, projectRoot,
                      SrcDir(projectRoot, chosen.value.dir), fuel)
  {
    if gopathEnv.None? {
      return Some(GopathNotFound);
    }
    var targetName := "";
    if |args| > 0 && !HasPrefix(args[0], "-") {
      targetName := args[0];
    }
    err := session.AnalysisTarget(targets, atTargetLevel, dirName, targetName, fs.tree, projectRoot);
    if err.Some? {
      return;
    }
    var targetDir := SrcDir(projectRoot, session.curTarget.value.dir);
    err := ensurer.Ensure(w, get, opts, fs, gopathEnv.value, projectRoot, targetDir, fuel);
  }

  /** A dry run changes neither the disk nor the set, and fails only when the listing fails. */
  lemma {:induction false} DryRunChangesNothing(w: Toolchain, get: Getter, opts: Options, t: Fs, updated: set<string>,
                                                globalGoPath: Path, projectRoot: Path, targetDir: Path, fuel: Fuel)
    requires opts.dry
    ensures var r := EnsureSpec(w, get, opts, t, updated, globalGoPath, projectRoot, targetDir, fuel);
            && r.0 == t && r.1 == updated
            && (r.2.Some? <==> fuel.Empty? || Status.ListImportsSpec(w, t, ".", PathJoin(projectRoot, "src"), targetDir, "", true, fuel.rest).Err?)
  {
    if fuel.More? {
      var listed := Status.ListImportsSpec(w, t, ".", PathJoin(projectRoot, "src"), targetDir, "", true, fuel.rest);
      if listed.Ok? {
        DryLoopChangesNothing(w, get, opts, t, updated, globalGoPath, projectRoot, targetDir, listed.value, 0, fuel.rest);
      }
    }
  }

  lemma {:induction false} DryLoopChangesNothing(w: Toolchain, get: Getter, opts: Options, t: Fs, updated: set<string>,
                                                 globalGoPath: Path, projectRoot: Path, targetDir: Path,
                                                 imports: seq<string>, i: nat, fuel: Fuel)
    requires opts.dry && i <= |imports|
    ensures EnsureLoop(w, get, opts, t, updated, globalGoPath, projectRoot, targetDir, imports, i, fuel) == (t, updated, None)
    decreases |imports| - i
  {
    if i < |imports| {
      DryLoopChangesNothing(w, get, opts, t, updated, globalGoPath, projectRoot, targetDir, imports, i + 1, fuel);
    }
  }

  /** The set of updated repositories only grows. */
  lemma {:induction false} UpdatedGrows(w: Toolchain, get: Getter, opts: Options, t: Fs, updated: set<string>,
                                        globalGoPath: Path, projectRoot: Path, targetDir: Path, fuel: Fuel)
    ensures updated <= EnsureSpec(w, get, opts, t, updated, globalGoPath, projectRoot, targetDir, fuel).1
    decreases fuel, 0
  {
    if fuel.More? {
      var listed := Status.ListImportsSpec(w, t, ".", PathJoin(projectRoot, "src"), targetDir, "", true, fuel.rest);
      if listed.Ok? {
        LoopUpdatedGrows(w, get, opts, t, updated, globalGoPath, projectRoot, targetDir, listed.value, 0, fuel.rest);
      }
    }
  }

  lemma {:induction false} LoopUpdatedGrows(w: Toolchain, get: Getter, opts: Options, t: Fs, updated: set<string>,
                                            globalGoPath: Path, projectRoot: Path, targetDir: Path,
                                            imports: seq<string>, i: nat, fuel: Fuel)
    requires i <= |imports|
    ensures updated <= EnsureLoop(w, get, opts, t, updated, globalGoPath, projectRoot, targetDir, imports, i, fuel).1
    decreases fuel, 1, |imports| - i
  {
    if i < |imports| {
      match EnsureStep(w, get, opts, t, updated, globalGoPath, projectRoot, imports[i])
      case Continue(t1) =>
        LoopUpdatedGrows(w, get, opts, t1, updated, globalGoPath, projectRoot, targetDir, imports, i + 1, fuel);
      case Finish(_, _) =>
      case Restart(t1, u1) =>
        UpdatedGrows(w, get, opts, t1, u1, globalGoPath, projectRoot, targetDir, fuel);
    }
  }

  /** Without the update option the set stays as it was: only update mode records repositories. */
  lemma {:induction false} NoUpdateNoRecord(w: Toolchain, get: Getter, opts: Options, t: Fs, updated: set<string>,
                                            globalGoPath: Path, projectRoot: Path, targetDir: Path, fuel: Fuel)
    requires !opts.update
    ensures EnsureSpec(w, get, opts, t, updated, globalGoPath, projectRoot, targetDir, fuel).1 == updated
    decreases fuel, 0
  {
    if fuel.More? {
      var listed := Status.ListImportsSpec(w, t, ".", PathJoin(projectRoot, "src"), targetDir, "", true, fuel.rest);
      if listed.Ok? {
        LoopNoRecord(w, get, opts, t, updated, globalGoPath, projectRoot, targetDir, listed.value, 0, fuel.rest);
      }
    }
  }

  lemma {:induction false} LoopNoRecord(w: Toolchain, get: Getter, opts: Options, t: Fs, updated: set<string>,
                                        globalGoPath: Path, projectRoot: Path, targetDir: Path,
                                        imports: seq<string>, i: nat, fuel: Fuel)
    requires !opts.update && i <= |imports|
    ensures EnsureLoop(w, get, opts, t, updated, globalGoPath, projectRoot, targetDir, imports, i, fuel).1 == updated
    decreases fuel, 1, |imports| - i
  {
    if i < |imports| {
      match EnsureStep(w, get, opts, t, updated, globalGoPath, projectRoot, imports[i])
      case Continue(t1) =>
        LoopNoRecord(w, get, opts, t1, updated, globalGoPath, projectRoot, targetDir, imports, i + 1, fuel);
      case Finish(_, _) =>
      case Restart(t1, u1) =>
        NoUpdateNoRecord(w, get, opts, t1, u1, globalGoPath, projectRoot, targetDir, fuel);
    }
  }

  /** When neither the vendor copy nor the $GOPATH copy exists and the get option is off, the scan
      ends there without an error and without a change. */
  lemma {:induction false} NotFoundAbandons(w: Toolchain, get: Getter, opts: Options, t: Fs, updated: set<string>,
                         globalGoPath: Path, projectRoot: Path, imp: string)
    requires !opts.dry && !opts.update && !opts.get && !Ignored(w, t, projectRoot, imp)
    requires Stat(t, Target(projectRoot, imp)) == Missing && Stat(t, Source(globalGoPath, imp)) == Missing
    ensures EnsureStep(w, get, opts, t, updated, globalGoPath, projectRoot, imp) == Finish(t, None)
  {
  }

  /** A dependency only $GOPATH holds is copied into the vendor tree, without its ".git" entries. */
  lemma {:induction false} CopiedFromGopath(w: Toolchain, get: Getter, opts: Options, t: Fs, updated: set<string>,
                         globalGoPath: Path, projectRoot: Path, imp: string)
    requires !opts.dry && !opts.update && !Ignored(w, t, projectRoot, imp)
    requires Stat(t, Target(projectRoot, imp)) == Missing && IsDir(t, Source(globalGoPath, imp))
    requires EnsureStep(w, get, opts, t, updated, globalGoPath, projectRoot, imp).Continue?
    ensures var t1 := EnsureStep(w, get, opts, t, updated, globalGoPath, projectRoot, imp).t;
            && IsDirNode(t1, Target(projectRoot, imp))
            && (forall info | info in StatDirSpec(AfterMkdirAll(t, Target(projectRoot, imp)).0, Source(globalGoPath, imp), true).value
                                && !HasPrefix(info, ".git") ::
                  CopiedAs(t1, Target(projectRoot, imp), info))
            && (forall g | HasPrefix(g, ".git") && EntryTarget(Target(projectRoot, imp), g) !in t.nodes ::
                  EntryTarget(Target(projectRoot, imp), g) !in t1.nodes)
  {
    var src, dst := Source(globalGoPath, imp), Target(projectRoot, imp);
    CopyDirComplete(t, src, dst, GitFilter);
    forall g | HasPrefix(g, ".git") && EntryTarget(dst, g) !in t.nodes
      ensures EntryTarget(dst, g) !in CopyDirSpec(t, src, dst, GitFilter).0.nodes
    {
      CopyDirSkipsGit(t, src, dst, g);
    }
  }
}
