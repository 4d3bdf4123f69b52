/** cmd/update.go: update replaces a package's vendor copy with a fresh copy from $GOPATH/src, then
    updates its dependencies: all of them with the full option, otherwise only those the vendor
    tree lacks. */
module Update {
  import opened Wrappers
  import opened Files
  import opened CmdUtil
  import opened GoBuild
  import opened Seqs
  import opened Add
  import Package

  /** copyPkg(src, dst, test), which is not part of this model: any change to the file system,
      with or without an error. */
  type Copier = (Fs, Path, Path, bool) -> (Fs, Option<Error>)

  /** The command's flags: --test, --tags and --full. */
  datatype Options = Options(test: bool, tags: string, full: bool)

  /** Why update refuses to start: the source must exist, the vendor copy must be readable and
      not a file. None when it may go ahead. */
  function Refusal(t: Fs, src: Path, dst: Path): (r: Option<Error>)
    ensures r.None? <==> IsExist(t, src) && (Stat(t, dst) == Missing || Stat(t, dst) == IsDirectory)
    ensures IsExist(t, src) && Stat(t, dst) == IsFile ==> r == Some(DestIsFile(dst))
  {
    match Stat(t, src)
    case Unreadable => Some(StatFailed(src))
    case Missing => Some(NotExist(src))
    case _ =>
      match Stat(t, dst)
      case Unreadable => Some(StatFailed(dst))
      case IsFile => Some(DestIsFile(dst))
      case _ => None
  }

  /** The vendor copy is removed, then copyPkg makes it again. */
  function Recopy(copyPkg: Copier, t: Fs, src: Path, dst: Path, test: bool): (Fs, Option<Error>) {
    copyPkg(AfterRemoveAll(t, dst), src, dst, test)
  }

  /** update(ctx, name, projPath, globalGoPath), with the disk before and after. The name is used
      as it is, not normalized. `fuel` is the depth of the goroutine stack. */
  function UpdateSpec(w: Toolchain, copyPkg: Copier, opts: Options, t: Fs, name: string, projPath: Path,
                      globalGoPath: Path, fuel: Fuel): (r: (Fs, Option<Error>))
    ensures fuel.More? && IsRejected(name) ==> r == (t, Some(RelativeOrAbsolute))
    ensures fuel.More? && Refusal(t, SrcDir(globalGoPath, name), VendorDir(projPath, name)).Some? ==> r.0 == t && r.1.Some?
    decreases fuel, 0
  {
    if fuel.Empty? then (t, Some(StackExhausted))
    else if IsRejected(name) then (t, Some(RelativeOrAbsolute))
    else
      var src := SrcDir(globalGoPath, name);
      var dst := VendorDir(projPath, name);
      match Refusal(t, src, dst)
      case Some(e) => (t, Some(e))
      case None =>
        var (t1, e) := Recopy(copyPkg, t, src, dst, opts.test);
        if e.Some? then (t1, e)
        else UpdateImports(w, copyPkg, opts, t1, name, projPath, globalGoPath, fuel.rest)
  }

  /** The typed listing of the fresh copy, then the loop over it. */
  function UpdateImports(w: Toolchain, copyPkg: Copier, opts: Options, t: Fs, name: string, projPath: Path,
                         globalGoPath: Path, fuel: Fuel): (r: (Fs, Option<Error>))
    decreases fuel, 2
  {
    match Package.ListImportsSpec(w, t, globalGoPath, name, projPath, SrcDir(globalGoPath, name), opts.tags, opts.test, fuel)
    case Err(e) => (t, Some(e))
    case Ok(imports) => UpdateEach(w, copyPkg, opts, t, imports, 0, projPath, globalGoPath, fuel)
  }

  /** Whether a dependency is updated: always with --full, otherwise when isDirExist does not
      report its vendor directory (an error counts as absent). */
  function NeedUpdate(opts: Options, t: Fs, projPath: Path, p: Package.Pkg): (r: bool)
    ensures r <==> opts.full || !IsDir(t, VendorDir(projPath, p.name))
  {
    opts.full || IsDirExist(t, VendorDir(projPath, p.name)) != Ok(true)
  }

  /** The loop of update over imports[i..]: a record equal to an earlier one is skipped, every
      other one updated when it needs to be; the first failure ends the loop. */
  function UpdateEach(w: Toolchain, copyPkg: Copier, opts: Options, t: Fs, imports: seq<Package.Pkg>, i: nat,
                      projPath: Path, globalGoPath: Path, fuel: Fuel): (r: (Fs, Option<Error>))
    requires i <= |imports|
    decreases fuel, 1, |imports| - i
  {
    if i == |imports| then (t, None)
    else if imports[i] in imports[..i] || !NeedUpdate(opts, t, projPath, imports[i]) then
      UpdateEach(w, copyPkg, opts, t, imports, i + 1, projPath, globalGoPath, fuel)
    else
      var (t1, e) := UpdateSpec(w, copyPkg, opts, t, imports[i].name, projPath, globalGoPath, fuel);
      if e.Some? then (t1, e)
      else UpdateEach(w, copyPkg, opts, t1, imports, i + 1, projPath, globalGoPath, fuel)
  }

  /** Going through the records one after another, updating those that need it. */
  function UpdateList(w: Toolchain, copyPkg: Copier, opts: Options, t: Fs, pkgs: seq<Package.Pkg>,
                      projPath: Path, globalGoPath: Path, fuel: Fuel): (r: (Fs, Option<Error>))
    decreases |pkgs|
  {
    if pkgs == [] then (t, None)
    else if !NeedUpdate(opts, t, projPath, pkgs[0]) then
      UpdateList(w, copyPkg, opts, t, pkgs[1..], projPath, globalGoPath, fuel)
    else
      var (t1, e) := UpdateSpec(w, copyPkg, opts, t, pkgs[0].name, projPath, globalGoPath, fuel);
      if e.Some? then (t1, e)
      else UpdateList(w, copyPkg, opts, t1, pkgs[1..], projPath, globalGoPath, fuel)
  }

  /** update, as the source runs it. */
  method UpdateOne(w: Toolchain, copyPkg: Copier, opts: Options, fs: FileSystem, name: string, projPath: Path,
                   globalGoPath: Path, fuel: Fuel) returns (err: Option<Error>)
    modifies fs
    ensures (fs.tree, err) == UpdateSpec(w, copyPkg, opts, old(fs.tree), name, projPath, globalGoPath, fuel)
    decreases fuel, 0
  {
    if fuel.Empty? {
      return Some(StackExhausted);
    }
    if IsRejected(name) {
      return Some(RelativeOrAbsolute);
    }
    var src := SrcDir(globalGoPath, name);
    var dst := VendorDir(projPath, name);
    var refusal := Refusal(fs.tree, src, dst);
    if refusal.Some? {
      return refusal;
    }
    fs.RemoveAll(dst);
    var copied := copyPkg(fs.tree, src, dst, opts.test);
    fs.tree := copied.0;
    if copied.1.Some? {
      return copied.1;
    }
    err := UpdateDependencies(w, copyPkg, opts, fs, name, projPath, globalGoPath, fuel.rest);
  }

  /** The second half of update: the listing of the fresh copy and the loop over it. */
  method UpdateDependencies(w: Toolchain, copyPkg: Copier, opts: Options, fs: FileSystem, name: string,
                            projPath: Path, globalGoPath: Path, fuel: Fuel) returns (err: Option<Error>)
    modifies fs
    ensures (fs.tree, err) == UpdateImports(w, copyPkg, opts, old(fs.tree), name, projPath, globalGoPath, fuel)
    decreases fuel, 1
  {
    var listed := Package.ListImports(w, fs, globalGoPath, name, projPath, SrcDir(globalGoPath, name),
                                      opts.tags, opts.test, fuel);
    if listed.Err? {
      return Some(listed.error);
    }
    var imports := listed.value;
    for i := 0 to |imports|
      invariant UpdateEach(w, copyPkg, opts, fs.tree, imports, i, projPath, globalGoPath, fuel)
             == UpdateImports(w, copyPkg, opts, old(fs.tree), name, projPath, globalGoPath, fuel)
    {
      var has := SeenBefore(imports, i);
      if !has {
        var needUpdate := opts.full;
        if !needUpdate {
          var exist := IsDirExist(fs.tree, VendorDir(projPath, imports[i].name));
          needUpdate := exist != Ok(true);
        }
        if needUpdate {
          ghost var before := fs.tree;
          var e := UpdateOne(w, copyPkg, opts, fs, imports[i].name, projPath, globalGoPath, fuel);
          if e.Some? {
            return e;
          }
          assert UpdateEach(w, copyPkg, opts, before, imports, i, projPath, globalGoPath, fuel)
              == UpdateEach(w, copyPkg, opts, fs.tree, imports, i + 1, projPath, globalGoPath, fuel);
        }
      }
    }
    return None;
  }

  /** runUpdate: every argument is updated in turn; no argument, or no $GOPATH, is an error. */
  method RunUpdate(w: Toolchain, copyPkg: Copier, opts: Options, fs: FileSystem, args: seq<string>,
                   gopath: Option<string>, projectRoot: Path, fuel: Fuel) returns (err: Option<Error>)
    modifies fs
    ensures |args| == 0 ==> err == Some(NoArguments) && fs.tree == old(fs.tree)
    ensures |args| > 0 && gopath.None? ==> err == Some(GopathNotFound) && fs.tree == old(fs.tree)
    ensures |args| > 0 && gopath.Some? ==>
              (fs.tree, err) == UpdateNames(w, copyPkg, opts, old(fs.tree), args, projectRoot, gopath.value, fuel)
  {
    if |args| == 0 {
      return Some(NoArguments);
    }
    if gopath.None? {
      return Some(GopathNotFound);
    }
    var i := 0;
    while i < |args|
      invariant 0 <= i <= |args|
      invariant UpdateNames(w, copyPkg, opts, fs.tree, args[i..], projectRoot, gopath.value, fuel)
             == UpdateNames(w, copyPkg, opts, old(fs.tree), args, projectRoot, gopath.value, fuel)
    {
      assert args[i..][1..] == args[i + 1..];
      err := UpdateOne(w, copyPkg, opts, fs, args[i], projectRoot, gopath.value, fuel);
      if err.Some? {
        return;
      }
      i := i + 1;
    }
    return None;
  }

  /** Updating the named packages one after another, stopping at the first failure. */
  function UpdateNames(w: Toolchain, copyPkg: Copier, opts: Options, t: Fs, names: seq<string>,
                       projPath: Path, globalGoPath: Path, fuel: Fuel): (r: (Fs, Option<Error>))
    decreases |names|
  {
    if names == [] then (t, None)
    else
      var (t1, e) := UpdateSpec(w, copyPkg, opts, t, names[0], projPath, globalGoPath, fuel);
      if e.Some? then (t1, e)
      else UpdateNames(w, copyPkg, opts, t1, names[1..], projPath, globalGoPath, fuel)
  }

  // ---------------------------------------------------------------------------
  // Properties

  /** copyPkg always starts from a tree in which nothing is left at or below the vendor copy. */
  lemma RecopyStartsEmpty(t: Fs, src: Path, dst: Path)
    requires Refusal(t, src, dst).None? && dst != ""
    ensures forall q :: InSubtree(q, dst) ==> q !in AfterRemoveAll(t, dst).nodes
    ensures forall q :: q in t.nodes && !InSubtree(q, dst) ==> q in AfterRemoveAll(t, dst).nodes
  {
    RemoveAllEffects(t, dst);
  }

  /** The loop updates the first occurrences of the records, in order: a repeated record is
      processed once. */
  lemma {:induction false} UpdateEachIsDedup(w: Toolchain, copyPkg: Copier, opts: Options, t: Fs,
                                             imports: seq<Package.Pkg>, i: nat, projPath: Path,
                                             globalGoPath: Path, fuel: Fuel)
    requires i <= |imports|
    ensures UpdateEach(w, copyPkg, opts, t, imports, i, projPath, globalGoPath, fuel)
         == UpdateList(w, copyPkg, opts, t, FirstOccurrences(imports, i), projPath, globalGoPath, fuel)
    decreases |imports| - i
  {
    if i < |imports| {
      var rest := FirstOccurrences(imports, i + 1);
      UpdateEachIsDedup(w, copyPkg, opts, t, imports, i + 1, projPath, globalGoPath, fuel);
      if imports[i] in imports[..i] {
        assert FirstOccurrences(imports, i) == rest;
      } else {
        var t1 := UpdateSpec(w, copyPkg, opts, t, imports[i].name, projPath, globalGoPath, fuel).0;
        UpdateEachIsDedup(w, copyPkg, opts, t1, imports, i + 1, projPath, globalGoPath, fuel);
        UpdateFirstStep(w, copyPkg, opts, t, imports, i, projPath, globalGoPath, fuel);
      }
    }
  }

  /** The step of UpdateEachIsDedup for a record seen for the first time: given the loop and the
      list agree from i + 1 on, on the disk before and after this record, they agree from i on. */
  lemma UpdateFirstStep(w: Toolchain, copyPkg: Copier, opts: Options, t: Fs, imports: seq<Package.Pkg>, i: nat,
                        projPath: Path, globalGoPath: Path, fuel: Fuel)
    requires i < |imports| && imports[i] !in imports[..i]
    requires UpdateEach(w, copyPkg, opts, t, imports, i + 1, projPath, globalGoPath, fuel)
          == UpdateList(w, copyPkg, opts, t, FirstOccurrences(imports, i + 1), projPath, globalGoPath, fuel)
    requires var t1 := UpdateSpec(w, copyPkg, opts, t, imports[i].name, projPath, globalGoPath, fuel).0;
      UpdateEach(w, copyPkg, opts, t1, imports, i + 1, projPath, globalGoPath, fuel)
      == UpdateList(w, copyPkg, opts, t1, FirstOccurrences(imports, i + 1), projPath, globalGoPath, fuel)
    ensures UpdateEach(w, copyPkg, opts, t, imports, i, projPath, globalGoPath, fuel)
         == UpdateList(w, copyPkg, opts, t, FirstOccurrences(imports, i), projPath, globalGoPath, fuel)
  {
    var pkgs := FirstOccurrences(imports, i);
    assert pkgs == [imports[i]] + FirstOccurrences(imports, i + 1);
    assert pkgs[0] == imports[i] && pkgs[1..] == FirstOccurrences(imports, i + 1);
  }

  /** Without --full, records whose vendor directories all exist are left alone: nothing is
      updated and nothing changes. */
  lemma {:induction false} VendoredLeftAlone(w: Toolchain, copyPkg: Copier, opts: Options, t: Fs,
                                             pkgs: seq<Package.Pkg>, projPath: Path, globalGoPath: Path, fuel: Fuel)
    requires !opts.full
    requires forall k :: 0 <= k < |pkgs| ==> IsDir(t, VendorDir(projPath, pkgs[k].name))
    ensures UpdateList(w, copyPkg, opts, t, pkgs, projPath, globalGoPath, fuel) == (t, None)
    decreases |pkgs|
  {
    if pkgs != [] {
      assert forall k :: 1 <= k < |pkgs| ==> pkgs[1..][k - 1] == pkgs[k];
      VendoredLeftAlone(w, copyPkg, opts, t, pkgs[1..], projPath, globalGoPath, fuel);
    }
  }
}
