/** cmd/add.go: add copies a package from $GOPATH/src into the project's src/vendor, then adds
    the packages it imports, each once. */
module Add {
  import opened Wrappers
  import opened Strings
  import opened Files
  import opened CmdUtil
  import opened GoBuild
  import opened NameUtil
  import opened Seqs
  import Status

  /** The names add refuses: relative ("../", "./") and absolute ones. */
  predicate IsRejected(name: string) {
    HasPrefix(name, "../") || IsAbs(name) || HasPrefix(name, "./")
  }

  /** The repository a name belongs to, where add takes it from and where it puts it. */
  function RepoOf(name: string): string {
    NormalizeName(name).0
  }

  function Source(globalGoPath: Path, name: string): Path {
    SrcDir(globalGoPath, RepoOf(name))
  }

  function Target(projPath: Path, name: string): Path {
    VendorDir(projPath, RepoOf(name))
  }

  /** How the copy step of add ends, with the disk it leaves behind. */
  datatype CopyPhase = Failed(t: Fs, err: Error) | Skipped(t: Fs) | Copied(t: Fs)

  /** The copy step, decided by what os.Stat reports about the vendor copy: a missing copy is
      made, an existing one is kept unless isUpdate, in which case it must be a directory and is
      removed and made again. */
  function CopyStep(t: Fs, src: Path, dst: Path, isUpdate: bool): (r: CopyPhase)
    ensures r.Skipped? <==> IsExist(t, dst) && !isUpdate
    ensures r.Skipped? ==> r.t == t
    ensures Stat(t, dst) == Unreadable ==> r == Failed(t, StatFailed(dst))
    ensures Stat(t, dst) == IsFile && isUpdate ==> r == Failed(t, DestIsFile(dst))
  {
    match Stat(t, dst)
    case Unreadable => Failed(t, StatFailed(dst))
    case Missing =>
      var (t1, e) := CopyDirSpec(t, src, dst, GitFilter);
      if e.Some? then Failed(t1, e.value) else Copied(t1)
    case IsFile => if isUpdate then Failed(t, DestIsFile(dst)) else Skipped(t)
    case IsDirectory =>
      if !isUpdate then Skipped(t)
      else
        var (t1, e) := CopyDirSpec(AfterRemoveAll(t, dst), src, dst, GitFilter);
        if e.Some? then Failed(t1, e.value) else Copied(t1)
  }

  /** add(name, projPath, globalGoPath, isUpdate), with the disk before and after. `fuel` is the
      depth of the goroutine stack, which each nested add and listing uses up. */
  function AddSpec(w: Toolchain, t: Fs, name: string, projPath: Path, globalGoPath: Path,
                   isUpdate: bool, fuel: Fuel): (r: (Fs, Option<Error>))
    ensures fuel.More? && IsRejected(name) ==> r == (t, Some(RelativeOrAbsolute))
    decreases fuel, 0
  {
    if fuel.Empty? then (t, Some(StackExhausted))
    else if IsRejected(name) then (t, Some(RelativeOrAbsolute))
    else
      AfterPhase(w, CopyStep(t, Source(globalGoPath, name), Target(projPath, name), isUpdate),
                 name, projPath, globalGoPath, isUpdate, fuel.rest)
  }

  /** What add returns once the copy step has ended in `phase`, from the disk t it started on:
      the error it met, nothing when the copy was kept, or the imports of the fresh copy. */
  function AfterPhase(w: Toolchain, phase: CopyPhase, name: string, projPath: Path, globalGoPath: Path,
                      isUpdate: bool, fuel: Fuel): (r: (Fs, Option<Error>))
    decreases fuel, 3
  {
    match phase
    case Failed(t1, e) => (t1, Some(e))
    case Skipped(t1) => (t1, None)
    case Copied(t1) => AddImports(w, t1, name, projPath, globalGoPath, isUpdate, fuel)
  }

  /** What add does once the package is copied: list its imports from the copy's source, then
      add them. */
  function AddImports(w: Toolchain, t: Fs, name: string, projPath: Path, globalGoPath: Path,
                      isUpdate: bool, fuel: Fuel): (r: (Fs, Option<Error>))
    decreases fuel, 2
  {
    var src := Source(globalGoPath, name);
    match Status.ListImportsSpec(w, t, RepoOf(name), src, src, "", false, fuel)
    case Err(e) => (t, Some(e))
    case Ok(imports) => AddEach(w, t, imports, 0, projPath, globalGoPath, isUpdate, fuel)
  }

  /** The loop of add over imports[i..]: a name equal to an earlier one is skipped, every other is
      added in turn; the first failure ends the loop. */
  function AddEach(w: Toolchain, t: Fs, imports: seq<string>, i: nat, projPath: Path, globalGoPath: Path,
                   isUpdate: bool, fuel: Fuel): (r: (Fs, Option<Error>))
    requires i <= |imports|
    decreases fuel, 1, |imports| - i
  {
    if i == |imports| then (t, None)
    else if imports[i] in imports[..i] then AddEach(w, t, imports, i + 1, projPath, globalGoPath, isUpdate, fuel)
    else
      var (t1, e) := AddSpec(w, t, imports[i], projPath, globalGoPath, isUpdate, fuel);
      if e.Some? then (t1, e)
      else AddEach(w, t1, imports, i + 1, projPath, globalGoPath, isUpdate, fuel)
  }

  /** Adding the names one after another, stopping at the first failure. */
  function AddList(w: Toolchain, t: Fs, names: seq<string>, projPath: Path, globalGoPath: Path,
                   isUpdate: bool, fuel: Fuel): (r: (Fs, Option<Error>))
    decreases |names|
  {
    if names == [] then (t, None)
    else
      var (t1, e) := AddSpec(w, t, names[0], projPath, globalGoPath, isUpdate, fuel);
      if e.Some? then (t1, e)
      else AddList(w, t1, names[1..], projPath, globalGoPath, isUpdate, fuel)
  }

  /** add after its guards: what the copy step decides. */
  lemma {:induction false} AddByPhase(w: Toolchain, t: Fs, name: string, projPath: Path, globalGoPath: Path,
                   isUpdate: bool, fuel: Fuel)
    requires fuel.More? && !IsRejected(name)
    ensures AddSpec(w, t, name, projPath, globalGoPath, isUpdate, fuel) ==
      AfterPhase(w, CopyStep(t, Source(globalGoPath, name), Target(projPath, name), isUpdate),
                 name, projPath, globalGoPath, isUpdate, fuel.rest)
  {
  }

  /** The copy step of add, on the disk. */
  method CopyPackage(fs: FileSystem, src: Path, dst: Path, isUpdate: bool) returns (phase: CopyPhase)
    modifies fs
    ensures phase == CopyStep(old(fs.tree), src, dst, isUpdate)
    ensures fs.tree == phase.t
  {
    var info := Stat(fs.tree, dst);
    if info == Unreadable {
      return Failed(fs.tree, StatFailed(dst));
    } else if info == Missing {
      var err := CopyDir(fs, src, dst, GitFilter);
      return if err.Some? then Failed(fs.tree, err.value) else Copied(fs.tree);
    } else if isUpdate {
      if info == IsFile {
        return Failed(fs.tree, DestIsFile(dst));
      }
      fs.RemoveAll(dst);
      var err := CopyDir(fs, src, dst, GitFilter);
      return if err.Some? then Failed(fs.tree, err.value) else Copied(fs.tree);
    }
    return Skipped(fs.tree);
  }

  /** add, as the source runs it: the copy step, the listing and the loop with its inner search
      for an earlier equal name. */
  method Add(w: Toolchain, fs: FileSystem, name: string, projPath: Path, globalGoPath: Path,
             isUpdate: bool, fuel: Fuel) returns (err: Option<Error>)
    modifies fs
    ensures (fs.tree, err) == AddSpec(w, old(fs.tree), name, projPath, globalGoPath, isUpdate, fuel)
    decreases fuel, 1
  {
    if fuel.Empty? {
      return Some(StackExhausted);
    }
    if IsRejected(name) {
      return Some(RelativeOrAbsolute);
    }
    ghost var t := fs.tree;
    var phase := CopyPackage(fs, Source(globalGoPath, name), Target(projPath, name), isUpdate);
    err := FinishAdd(w, fs, phase, t, name, projPath, globalGoPath, isUpdate, fuel);
  }

  /** The rest of add after the copy step: the error it met, nothing when the copy was kept, or
      the imports of the fresh copy. */
  method FinishAdd(w: Toolchain, fs: FileSystem, phase: CopyPhase, ghost t: Fs, name: string, projPath: Path,
                   globalGoPath: Path, isUpdate: bool, fuel: Fuel) returns (err: Option<Error>)
    requires fuel.More? && !IsRejected(name)
    requires phase == CopyStep(t, Source(globalGoPath, name), Target(projPath, name), isUpdate)
    requires fs.tree == phase.t
    modifies fs
    ensures (fs.tree, err) == AddSpec(w, t, name, projPath, globalGoPath, isUpdate, fuel)
    decreases fuel, 0
  {
    match phase
    case Failed(_, e) => return Some(e);
    case Skipped(_) => return None;
    case Copied(_) =>
      err := ImportAll(w, fs, name, projPath, globalGoPath, isUpdate, fuel.rest);
  }

  /** The second half of add: the listing of the copied package and the loop over it, with its
      inner search for an earlier equal name. */
  method ImportAll(w: Toolchain, fs: FileSystem, name: string, projPath: Path, globalGoPath: Path,
                   isUpdate: bool, fuel: Fuel) returns (err: Option<Error>)
    modifies fs
    ensures (fs.tree, err) == AddImports(w, old(fs.tree), name, projPath, globalGoPath, isUpdate, fuel)
    decreases fuel, 2
  {
    var src := Source(globalGoPath, name);
    var listed := Status.ListImports(w, fs, RepoOf(name), src, src, "", false, fuel);
    if listed.Err? {
      return Some(listed.error);
    }
    var imports := listed.value;
    for i := 0 to |imports|
      invariant AddEach(w, fs.tree, imports, i, projPath, globalGoPath, isUpdate, fuel)
             == AddImports(w, old(fs.tree), name, projPath, globalGoPath, isUpdate, fuel)
    {
      var has := SeenBefore(imports, i);
      if !has {
        ghost var before := fs.tree;
        var e := Add(w, fs, imports[i], projPath, globalGoPath, isUpdate, fuel);
        if e.Some? {
          return e;
        }
        assert AddEach(w, before, imports, i, projPath, globalGoPath, isUpdate, fuel)
            == AddEach(w, fs.tree, imports, i + 1, projPath, globalGoPath, isUpdate, fuel);
      }
    }
    return None;
  }

  /** runAdd: every argument is added in turn; no argument, or no $GOPATH, is an error. */
  method RunAdd(w: Toolchain, fs: FileSystem, args: seq<string>, gopath: Option<string>, projectRoot: Path,
                isUpdate: bool, fuel: Fuel) returns (err: Option<Error>)
    modifies fs
    ensures |args| == 0 ==> err == Some(NoArguments) && fs.tree == old(fs.tree)
    ensures |args| > 0 && gopath.None? ==> err == Some(GopathNotFound) && fs.tree == old(fs.tree)
    ensures |args| > 0 && gopath.Some? ==>
              (fs.tree, err) == AddList(w, old(fs.tree), args, projectRoot, gopath.value, isUpdate, fuel)
  {
    if |args| == 0 {
      return Some(NoArguments);
    }
    if gopath.None? {
      return Some(GopathNotFound);
    }
    var i := 0;
    while i < |args|
      invariant 0 <= i <= |args|
      invariant AddList(w, fs.tree, args[i..], projectRoot, gopath.value, isUpdate, fuel)
             == AddList(w, old(fs.tree), args, projectRoot, gopath.value, isUpdate, fuel)
    {
      assert args[i..][1..] == args[i + 1..];
      err := Add(w, fs, args[i], projectRoot, gopath.value, isUpdate, fuel);
      if err.Some? {
        return;
      }
      i := i + 1;
    }
    return None;
  }

  // ---------------------------------------------------------------------------
  // Properties

  /** The loop adds the first occurrences of the names, in order: a repeated import is added
      once. */
  lemma {:induction false} AddEachIsDedup(w: Toolchain, t: Fs, imports: seq<string>, i: nat, projPath: Path,
                                          globalGoPath: Path, isUpdate: bool, fuel: Fuel)
    requires i <= |imports|
    ensures AddEach(w, t, imports, i, projPath, globalGoPath, isUpdate, fuel)
         == AddList(w, t, FirstOccurrences(imports, i), projPath, globalGoPath, isUpdate, fuel)
    decreases |imports| - i
  {
    if i < |imports| {
      var rest := FirstOccurrences(imports, i + 1);
      if imports[i] in imports[..i] {
        assert FirstOccurrences(imports, i) == rest;
        AddEachIsDedup(w, t, imports, i + 1, projPath, globalGoPath, isUpdate, fuel);
      } else {
        var names := FirstOccurrences(imports, i);
        assert names == [imports[i]] + rest;
        assert names[0] == imports[i] && names[1..] == rest;
        var (t1, e) := AddSpec(w, t, imports[i], projPath, globalGoPath, isUpdate, fuel);
        assert AddList(w, t, names, projPath, globalGoPath, isUpdate, fuel)
            == if e.Some? then (t1, e) else AddList(w, t1, rest, projPath, globalGoPath, isUpdate, fuel);
        assert AddEach(w, t, imports, i, projPath, globalGoPath, isUpdate, fuel)
            == if e.Some? then (t1, e) else AddEach(w, t1, imports, i + 1, projPath, globalGoPath, isUpdate, fuel);
        if e.None? {
          AddEachIsDedup(w, t1, imports, i + 1, projPath, globalGoPath, isUpdate, fuel);
        }
      }
    }
  }

  /** A name is refused exactly when its repository is, and names the same repository. */
  lemma RejectedByRepo(name: string)
    ensures IsRejected(name) <==> IsRejected(RepoOf(name))
    ensures RepoOf(RepoOf(name)) == RepoOf(name)
  {
    NormalizeIdempotent(name);
    var parent := RepoOf(name);
    if name != "" && IsSplit(name) {
      var host := Split(name, '/')[0];
      NormalizeKeepsHost(name);
      assert name[..3] == parent[..3] == (host + "/")[..3];
      assert name[..2] == parent[..2] && name[..1] == parent[..1];
    }
  }

  /** Only the repository matters: adding a name adds its NormalizeName parent, as adding the
      parent itself would. */
  lemma {:induction false} AddByRepo(w: Toolchain, t: Fs, name: string, projPath: Path, globalGoPath: Path,
                  isUpdate: bool, fuel: Fuel)
    ensures AddSpec(w, t, name, projPath, globalGoPath, isUpdate, fuel)
         == AddSpec(w, t, RepoOf(name), projPath, globalGoPath, isUpdate, fuel)
  {
    var parent := RepoOf(name);
    RejectedByRepo(name);
    assert Source(globalGoPath, parent) == Source(globalGoPath, name);
    assert Target(projPath, parent) == Target(projPath, name);
    if fuel.More? && !IsRejected(name) {
      AddByPhase(w, t, name, projPath, globalGoPath, isUpdate, fuel);
      AddByPhase(w, t, parent, projPath, globalGoPath, isUpdate, fuel);
    }
  }

  /** Without isUpdate, the copy step only ever adds to the file system. */
  lemma CopyStepGrows(t: Fs, src: Path, dst: Path)
    ensures Grows(t, CopyStep(t, src, dst, false).t)
  {
    if Stat(t, dst) == Missing {
      CopyDirGrows(t, src, dst, GitFilter);
    }
  }

  /** With isUpdate, a vendor copy that is a directory is removed and copied afresh: the step
      is the one a missing copy takes on the disk RemoveAll leaves, and once it succeeds nothing
      below the copy is left but what the fresh copy made for its kept entries. */
  lemma UpdateRecopies(t: Fs, src: Path, dst: Path)
    requires dst != "" && Stat(t, dst) == IsDirectory
    ensures CopyStep(t, src, dst, true) == CopyStep(AfterRemoveAll(t, dst), src, dst, false)
    ensures var t0 := AfterRemoveAll(t, dst);
            var r := CopyStep(t, src, dst, true);
            r.Copied? ==>
              && StatDirSpec(AfterMkdirAll(t0, dst).0, src, true).Ok?
              && forall q | q in r.t.nodes && InSubtree(q, dst) && q != dst ::
                   exists info :: info in StatDirSpec(AfterMkdirAll(t0, dst).0, src, true).value &&
                                  !GitFilter(info) && InSubtree(EntryTarget(dst, info), q)
  {
    var t0 := AfterRemoveAll(t, dst);
    RemoveAllEffects(t, dst);
    assert Stat(t0, dst) == Missing;
    if CopyStep(t, src, dst, true).Copied? {
      CopyDirComplete(t0, src, dst, GitFilter);
      forall q | InSubtree(q, dst) && q != dst
        ensures !InSubtree(dst, q)
      {
        SubtreeBelow(q, dst);
      }
    }
  }

  /** Whatever follows a copy step that only added to the file system only adds to it too. */
  lemma {:induction false} AfterPhaseGrows(w: Toolchain, t: Fs, phase: CopyPhase, name: string, projPath: Path,
                                           globalGoPath: Path, fuel: Fuel)
    requires Grows(t, phase.t)
    ensures Grows(t, AfterPhase(w, phase, name, projPath, globalGoPath, false, fuel).0)
    decreases fuel, 3
  {
    if phase.Copied? {
      AddImportsGrows(w, phase.t, name, projPath, globalGoPath, fuel);
      GrowsTransitive(t, phase.t, AddImports(w, phase.t, name, projPath, globalGoPath, false, fuel).0);
    }
  }

  /** Without isUpdate, add only ever adds to the file system. */
  lemma {:induction false} AddGrows(w: Toolchain, t: Fs, name: string, projPath: Path, globalGoPath: Path,
                                    fuel: Fuel)
    ensures Grows(t, AddSpec(w, t, name, projPath, globalGoPath, false, fuel).0)
    decreases fuel, 0
  {
    if fuel.More? && !IsRejected(name) {
      var src := Source(globalGoPath, name);
      var dst := Target(projPath, name);
      AddByPhase(w, t, name, projPath, globalGoPath, false, fuel);
      CopyStepGrows(t, src, dst);
      AfterPhaseGrows(w, t, CopyStep(t, src, dst, false), name, projPath, globalGoPath, fuel.rest);
    }
  }

  lemma {:induction false} AddImportsGrows(w: Toolchain, t: Fs, name: string, projPath: Path, globalGoPath: Path,
                                           fuel: Fuel)
    ensures Grows(t, AddImports(w, t, name, projPath, globalGoPath, false, fuel).0)
    decreases fuel, 2
  {
    var src := Source(globalGoPath, name);
    var listed := Status.ListImportsSpec(w, t, RepoOf(name), src, src, "", false, fuel);
    if listed.Ok? {
      AddEachGrows(w, t, listed.value, 0, projPath, globalGoPath, fuel);
    }
  }

  lemma {:induction false} AddEachGrows(w: Toolchain, t: Fs, imports: seq<string>, i: nat, projPath: Path,
                                        globalGoPath: Path, fuel: Fuel)
    requires i <= |imports|
    ensures Grows(t, AddEach(w, t, imports, i, projPath, globalGoPath, false, fuel).0)
    decreases fuel, 1, |imports| - i
  {
    if i < |imports| {
      if imports[i] in imports[..i] {
        AddEachGrows(w, t, imports, i + 1, projPath, globalGoPath, fuel);
      } else {
        var (t1, e) := AddSpec(w, t, imports[i], projPath, globalGoPath, false, fuel);
        AddGrows(w, t, imports[i], projPath, globalGoPath, fuel);
        if e.None? {
          AddEachGrows(w, t1, imports, i + 1, projPath, globalGoPath, fuel);
          GrowsTransitive(t, t1, AddEach(w, t, imports, i, projPath, globalGoPath, false, fuel).0);
        }
      }
    }
  }

  /** A node that exists keeps existing as the file system grows. */
  lemma {:induction false} ExistsWhileGrowing(t1: Fs, t2: Fs, p: Path)
    requires IsExist(t1, p) && Grows(t1, t2)
    ensures IsExist(t2, p)
  {
  }

  /** add fails unless it passes both of its guards. */
  lemma AddGuards(w: Toolchain, t: Fs, name: string, projPath: Path, globalGoPath: Path, isUpdate: bool, fuel: Fuel)
    requires AddSpec(w, t, name, projPath, globalGoPath, isUpdate, fuel).1.None?
    ensures fuel.More? && !IsRejected(name)
  {
  }

  /** A copy that was kept, or a fresh copy whose imports keep it, is there when add returns. */
  lemma PhaseVendors(w: Toolchain, phase: CopyPhase, name: string, projPath: Path, globalGoPath: Path,
                     fuel: Fuel, dst: Path)
    requires AfterPhase(w, phase, name, projPath, globalGoPath, false, fuel).1.None?
    requires phase.Skipped? ==> IsExist(phase.t, dst)
    requires phase.Copied? ==> IsExist(AddImports(w, phase.t, name, projPath, globalGoPath, false, fuel).0, dst)
    ensures IsExist(AfterPhase(w, phase, name, projPath, globalGoPath, false, fuel).0, dst)
  {
  }

  /** When add succeeds without isUpdate, the repository is in the project's vendor tree. */
  lemma {:induction false} AddVendors(w: Toolchain, t: Fs, name: string, projPath: Path, globalGoPath: Path, fuel: Fuel)
    requires AddSpec(w, t, name, projPath, globalGoPath, false, fuel).1.None?
    ensures fuel.More? && !IsRejected(name)
    ensures IsExist(AddSpec(w, t, name, projPath, globalGoPath, false, fuel).0, Target(projPath, name))
  {
    AddGuards(w, t, name, projPath, globalGoPath, false, fuel);
    AddByPhase(w, t, name, projPath, globalGoPath, false, fuel);
    var dst := Target(projPath, name);
    var phase := CopyStep(t, Source(globalGoPath, name), dst, false);
    if phase.Copied? {
      FreshCopyVendored(w, t, name, projPath, globalGoPath, fuel.rest, phase.t);
    }
    PhaseVendors(w, phase, name, projPath, globalGoPath, fuel.rest, dst);
  }

  /** A fresh vendor copy is a directory, and stays one whatever its imports add. */
  lemma {:induction false} FreshCopyVendored(w: Toolchain, t: Fs, name: string, projPath: Path, globalGoPath: Path,
                                             fuel: Fuel, t1: Fs)
    requires CopyStep(t, Source(globalGoPath, name), Target(projPath, name), false) == Copied(t1)
    ensures IsExist(AddImports(w, t1, name, projPath, globalGoPath, false, fuel).0, Target(projPath, name))
  {
    var src := Source(globalGoPath, name);
    var dst := Target(projPath, name);
    assert Stat(t, dst) == Missing && CopyDirSpec(t, src, dst, GitFilter) == (t1, None);
    var r := AddImports(w, t1, name, projPath, globalGoPath, false, fuel).0;
    CopyDirComplete(t, src, dst, GitFilter);
    CopyDirGrows(t, src, dst, GitFilter);
    AddImportsGrows(w, t1, name, projPath, globalGoPath, fuel);
    DirStaysWhileGrowing(t, t1, r, dst);
  }

  /** A directory made where nothing readable was stays in place as the disk grows. */
  lemma DirStaysWhileGrowing(t: Fs, t1: Fs, r: Fs, dst: Path)
    requires Stat(t, dst) == Missing && Grows(t, t1) && IsDirNode(t1, dst) && Grows(t1, r)
    ensures IsExist(r, dst)
  {
  }

  /** Re-adding without isUpdate changes nothing and succeeds. */
  lemma {:induction false} AddIdempotent(w: Toolchain, t: Fs, name: string, projPath: Path, globalGoPath: Path,
                      fuel: Fuel, fuel2: Fuel)
    requires AddSpec(w, t, name, projPath, globalGoPath, false, fuel).1.None?
    requires fuel2.More?
    ensures var t1 := AddSpec(w, t, name, projPath, globalGoPath, false, fuel).0;
            AddSpec(w, t1, name, projPath, globalGoPath, false, fuel2) == (t1, None)
  {
    AddVendors(w, t, name, projPath, globalGoPath, fuel);
  }

  /** The imports from position i on that s[..i] does not hold are all vendored in r. */
  ghost predicate VendoredFrom(r: Fs, imports: seq<string>, i: nat, projPath: Path)
    requires i <= |imports|
  {
    forall k :: i <= k < |imports| && imports[k] !in imports[..i] ==> IsExist(r, Target(projPath, imports[k]))
  }

  /** One step of the loop over the imports, on whatever disk the rest of the loop leaves: an
      import seen before adds nothing to cover, a new one must itself be vendored. */
  lemma VendoredStep(r: Fs, imports: seq<string>, i: nat, projPath: Path)
    requires i < |imports| && VendoredFrom(r, imports, i + 1, projPath)
    requires imports[i] !in imports[..i] ==> IsExist(r, Target(projPath, imports[i]))
    ensures VendoredFrom(r, imports, i, projPath)
  {
    assert imports[..i + 1] == imports[..i] + [imports[i]];
    forall k | i <= k < |imports| && imports[k] !in imports[..i]
      ensures IsExist(r, Target(projPath, imports[k]))
    {
      if k > i && imports[k] != imports[i] {
        assert imports[k] !in imports[..i + 1];
      }
    }
  }

  /** One successful step of the loop over the imports: a repeated name is skipped, a new one is
      added without error before the rest of the loop runs. */
  lemma AddEachStep(w: Toolchain, t: Fs, imports: seq<string>, i: nat, projPath: Path, globalGoPath: Path,
                    fuel: Fuel)
    requires i < |imports| && AddEach(w, t, imports, i, projPath, globalGoPath, false, fuel).1.None?
    ensures var t1 := if imports[i] in imports[..i] then t
                      else AddSpec(w, t, imports[i], projPath, globalGoPath, false, fuel).0;
            && (imports[i] !in imports[..i] ==> AddSpec(w, t, imports[i], projPath, globalGoPath, false, fuel).1.None?)
            && AddEach(w, t, imports, i, projPath, globalGoPath, false, fuel)
               == AddEach(w, t1, imports, i + 1, projPath, globalGoPath, false, fuel)
  {
  }

  /** When the loop succeeds without isUpdate, every import it reached that was not seen before
      position i ends up vendored. */
  lemma {:induction false} AddEachVendors(w: Toolchain, t: Fs, imports: seq<string>, i: nat, projPath: Path,
                                          globalGoPath: Path, fuel: Fuel)
    requires i <= |imports|
    requires AddEach(w, t, imports, i, projPath, globalGoPath, false, fuel).1.None?
    ensures VendoredFrom(AddEach(w, t, imports, i, projPath, globalGoPath, false, fuel).0, imports, i, projPath)
    decreases |imports| - i
  {
    if i < |imports| {
      var r := AddEach(w, t, imports, i, projPath, globalGoPath, false, fuel).0;
      AddEachStep(w, t, imports, i, projPath, globalGoPath, fuel);
      var isNew := imports[i] !in imports[..i];
      var t1 := if isNew then AddSpec(w, t, imports[i], projPath, globalGoPath, false, fuel).0 else t;
      AddEachVendors(w, t1, imports, i + 1, projPath, globalGoPath, fuel);
      if isNew {
        AddVendors(w, t, imports[i], projPath, globalGoPath, fuel);
        AddEachGrows(w, t1, imports, i + 1, projPath, globalGoPath, fuel);
        ExistsWhileGrowing(t1, r, Target(projPath, imports[i]));
      }
      VendoredStep(r, imports, i, projPath);
    }
  }

  /** After the copy, a successful pass vendors everything the package's listing reaches: each
      listed import, and so each dependency of a dependency. */
  lemma {:induction false} AddImportsVendors(w: Toolchain, t: Fs, name: string, projPath: Path, globalGoPath: Path, fuel: Fuel)
    requires AddImports(w, t, name, projPath, globalGoPath, false, fuel).1.None?
    ensures var src := Source(globalGoPath, name);
            var listed := Status.ListImportsSpec(w, t, RepoOf(name), src, src, "", false, fuel);
            && listed.Ok?
            && forall imp :: imp in listed.value ==>
                 IsExist(AddImports(w, t, name, projPath, globalGoPath, false, fuel).0, Target(projPath, imp))
  {
    var src := Source(globalGoPath, name);
    var listed := Status.ListImportsSpec(w, t, RepoOf(name), src, src, "", false, fuel);
    var r := AddImports(w, t, name, projPath, globalGoPath, false, fuel);
    assert listed.Ok? && r == AddEach(w, t, listed.value, 0, projPath, globalGoPath, false, fuel);
    AddEachVendors(w, t, listed.value, 0, projPath, globalGoPath, fuel);
    AllVendored(r.0, listed.value, projPath);
  }

  lemma AllVendored(r: Fs, imports: seq<string>, projPath: Path)
    requires VendoredFrom(r, imports, 0, projPath)
    ensures forall imp :: imp in imports ==> IsExist(r, Target(projPath, imp))
  {
    assert imports[..0] == [];
  }

  /** A first add without isUpdate vendors the package and everything its listing reaches. */
  lemma {:induction false} AddVendorsImports(w: Toolchain, t: Fs, name: string, projPath: Path, globalGoPath: Path, fuel: Fuel)
    requires Stat(t, Target(projPath, name)) == Missing
    requires AddSpec(w, t, name, projPath, globalGoPath, false, fuel).1.None?
    ensures fuel.More?
    ensures var src := Source(globalGoPath, name);
            var t1 := CopyDirSpec(t, src, Target(projPath, name), GitFilter).0;
            var listed := Status.ListImportsSpec(w, t1, RepoOf(name), src, src, "", false, fuel.rest);
            && listed.Ok?
            && forall imp :: imp in listed.value ==>
                 IsExist(AddSpec(w, t, name, projPath, globalGoPath, false, fuel).0, Target(projPath, imp))
  {
    AddGuards(w, t, name, projPath, globalGoPath, false, fuel);
    AddByPhase(w, t, name, projPath, globalGoPath, false, fuel);
    var src := Source(globalGoPath, name);
    var t1 := CopyDirSpec(t, src, Target(projPath, name), GitFilter).0;
    assert CopyStep(t, src, Target(projPath, name), false) == Copied(t1);
    AddImportsVendors(w, t1, name, projPath, globalGoPath, fuel.rest);
  }

  /** Adding a package that $GOPATH/src does not hold fails, and leaves behind the vendor
      directory it created, empty. */
  lemma {:induction false} AddMissingSource(w: Toolchain, t: Fs, name: string, projPath: Path, globalGoPath: Path,
                         isUpdate: bool, fuel: Fuel)
    requires fuel.More? && !IsRejected(name)
    requires Stat(t, Target(projPath, name)) == Missing
    requires AfterMkdirAll(t, Target(projPath, name)).1.None?
    requires !IsDir(t, Source(globalGoPath, name))
    requires !InSubtree(Target(projPath, name), Source(globalGoPath, name))
    ensures var r := AddSpec(w, t, name, projPath, globalGoPath, isUpdate, fuel);
            && r.1 == Some(NotADirectory(Source(globalGoPath, name)))
            && IsDirNode(r.0, Target(projPath, name))
            && r.0.nodes[Target(projPath, name)] == Dir([])
  {
    var src := Source(globalGoPath, name);
    var dst := Target(projPath, name);
    MkdirAllGrows(t, dst);
    var t1 := AfterMkdirAll(t, dst).0;
    assert !IsDir(t1, src);
  }
}
