/** cmd/package.go: the standard-library membership set, the package classifier and the typed
    import walk (the revision whose ListImports returns Pkg records). */
module Package {
  import opened Wrappers
  import opened Strings
  import opened Files
  import opened CmdUtil
  import opened GoBuild

  // ---------------------------------------------------------------------------
  // goRepoPath

  /** What one standard package path adds to goRepoPath: nothing for a "vendor/" path, otherwise
      the path and each of its cuts at a '/'. */
  function Contribution(p: string): set<string> {
    if HasPrefix(p, "vendor/") then {} else SlashPrefixes(p)
  }

  /** The union of the contributions of a list of standard package paths. */
  function RepoClosure(std: seq<string>): set<string>
  {
    if std == [] then {} else RepoClosure(std[..|std| - 1]) + Contribution(std[|std| - 1])
  }

  /** init: goRepoPath starts as {"builtin"}; every standard path not under "vendor/" is added
      together with each shorter path obtained by cutting it at its last '/'. The standard paths
      (from `go list std`) are a parameter; the order in which the map is walked does not matter. */
  method InitGoRepoPath(standardPath: seq<string>) returns (goRepoPath: set<string>)
    ensures goRepoPath == {"builtin"} + RepoClosure(standardPath)
  {
    goRepoPath := {"builtin"};
    for n := 0 to |standardPath|
      invariant goRepoPath == {"builtin"} + RepoClosure(standardPath[..n])
    {
      assert standardPath[..n + 1][..n] == standardPath[..n];
      var p := standardPath[n];
      if !HasPrefix(p, "vendor/") {
        ghost var before := goRepoPath;
        while true
          invariant goRepoPath + SlashPrefixes(p) == before + SlashPrefixes(standardPath[n])
          decreases |p|
        {
          goRepoPath := goRepoPath + {p};
          var i := LastIndexOf(p, '/');
          if i < 0 {
            break;
          }
          p := p[..i];
        }
      }
    }
    assert standardPath[..|standardPath|] == standardPath;
  }

  /** goRepoPath holds exactly "builtin" and, for every standard path not under "vendor/", that
      path and each of its cuts at a '/'. So "vendor/" paths contribute nothing. */
  lemma {:induction false} GoRepoMembership(std: seq<string>, q: string)
    ensures q in {"builtin"} + RepoClosure(std) <==>
              q == "builtin" ||
              exists k :: 0 <= k < |std| && !HasPrefix(std[k], "vendor/") && (q == std[k] || IsCutAtSlash(q, std[k]))
  {
    ClosureMembership(std, q);
  }

  lemma {:induction false} ClosureMembership(std: seq<string>, q: string)
    ensures q in RepoClosure(std) <==>
              exists k :: 0 <= k < |std| && !HasPrefix(std[k], "vendor/") && (q == std[k] || IsCutAtSlash(q, std[k]))
    decreases |std|
  {
    if std != [] {
      var init := std[..|std| - 1];
      var last := std[|std| - 1];
      ClosureMembership(init, q);
      SlashPrefixesExactly(last, q);
      if q in RepoClosure(std) {
        if q !in RepoClosure(init) {
          assert q in Contribution(last);
          assert !HasPrefix(std[|std| - 1], "vendor/") && (q == std[|std| - 1] || IsCutAtSlash(q, std[|std| - 1]));
        } else {
          var k :| 0 <= k < |init| && !HasPrefix(init[k], "vendor/") && (q == init[k] || IsCutAtSlash(q, init[k]));
          assert std[k] == init[k];
        }
      }
      if exists k :: 0 <= k < |std| && !HasPrefix(std[k], "vendor/") && (q == std[k] || IsCutAtSlash(q, std[k])) {
        var k :| 0 <= k < |std| && !HasPrefix(std[k], "vendor/") && (q == std[k] || IsCutAtSlash(q, std[k]));
        if k < |std| - 1 {
          assert init[k] == std[k];
        }
      }
    }
  }

  /** IsGoRepoPath: plain membership. */
  predicate IsGoRepoPath(goRepoPath: set<string>, importPath: string) {
    importPath in goRepoPath
  }

  // ---------------------------------------------------------------------------
  // getPkgType

  datatype PkgType = Unknown | GoRoot | GlobalGoPath | ProjectGoPath | ProjectVendor

  /** Some entry name has extension ".go". */
  predicate HasGoEntry(names: seq<string>) {
    exists k :: 0 <= k < |names| && Ext(names[k]) == ".go"
  }

  /** The checks after the project's own directories: GOPATH's vendor directory, then the
      standard library, then an absent global package. */
  function GlobalOrStd(t: Fs, goRepoPath: set<string>, globalGoPath: Path, name: string): (r: Result<(PkgType, bool)>)
    ensures r == Ok((GlobalGoPath, true)) <==> IsDirExist(t, VendorDir(globalGoPath, name)) == Ok(true)
    ensures r == Ok((GoRoot, true)) <==> IsDirExist(t, VendorDir(globalGoPath, name)) == Ok(false) && name in goRepoPath
    ensures r == Ok((GlobalGoPath, false)) <==> IsDirExist(t, VendorDir(globalGoPath, name)) == Ok(false) && name !in goRepoPath
  {
    var e := IsDirExist(t, VendorDir(globalGoPath, name));
    if e.Err? then Err(e.error)
    else if e.value then Ok((GlobalGoPath, true))
    else if IsGoRepoPath(goRepoPath, name) then Ok((GoRoot, true))
    else Ok((GlobalGoPath, false))
  }

  /** getPkgType(globalGoPath, projectRoot, name): the first of project src, project vendor (only
      when it holds a ".go" entry), GOPATH vendor, standard library, absent global package. */
  function GetPkgType(t: Fs, goRepoPath: set<string>, globalGoPath: Path, projectRoot: Path, name: string)
    : (r: Result<(PkgType, bool)>)
    ensures r.Ok? ==> r.value.0 != Unknown
    ensures r.Ok? && !r.value.1 ==> r.value == (GlobalGoPath, false) && name !in goRepoPath
    ensures IsDir(t, SrcDir(projectRoot, name)) ==> r == Ok((ProjectGoPath, true))
    ensures r == Ok((ProjectVendor, true)) ==>
              IsDir(t, VendorDir(projectRoot, name)) && HasGoEntry(t.nodes[VendorDir(projectRoot, name)].names)
    ensures Stat(t, SrcDir(projectRoot, name)) == Missing &&
            (Stat(t, VendorDir(projectRoot, name)) == Missing ||
             (IsDir(t, VendorDir(projectRoot, name)) && !HasGoEntry(t.nodes[VendorDir(projectRoot, name)].names)))
            ==> r == GlobalOrStd(t, goRepoPath, globalGoPath, name)
    ensures r.Ok? && r.value.0 == GoRoot ==> name in goRepoPath && !IsDir(t, SrcDir(projectRoot, name))
    ensures Stat(t, SrcDir(projectRoot, name)) == Missing && IsDir(t, VendorDir(projectRoot, name)) &&
            HasGoEntry(t.nodes[VendorDir(projectRoot, name)].names)
            ==> r == Ok((ProjectVendor, true))
    ensures Stat(t, SrcDir(projectRoot, name)) == IsFile ==> r == Err(SameNameFile(SrcDir(projectRoot, name)))
    ensures Stat(t, SrcDir(projectRoot, name)) == Unreadable ==> r == Err(StatFailed(SrcDir(projectRoot, name)))
    ensures Stat(t, SrcDir(projectRoot, name)) == Missing && Stat(t, VendorDir(projectRoot, name)) == IsFile ==>
            r == Err(SameNameFile(VendorDir(projectRoot, name)))
    ensures Stat(t, SrcDir(projectRoot, name)) == Missing && Stat(t, VendorDir(projectRoot, name)) == Unreadable ==>
            r == Err(StatFailed(VendorDir(projectRoot, name)))
  {
    var own := IsDirExist(t, SrcDir(projectRoot, name));
    if own.Err? then Err(own.error)
    else if own.value then Ok((ProjectGoPath, true))
    else
      var vendorPath := VendorDir(projectRoot, name);
      var vendored := IsDirExist(t, vendorPath);
      if vendored.Err? then Err(vendored.error)
      else if vendored.value && HasGoEntry(t.nodes[vendorPath].names) then Ok((ProjectVendor, true))
      else GlobalOrStd(t, goRepoPath, globalGoPath, name)
  }

  // ---------------------------------------------------------------------------
  // ListImports (typed revision)

  datatype Pkg = Pkg(name: string, pkgType: PkgType, exist: bool)

  /** What the walk may record: no "C", no relative name, nothing from the standard library,
      and never a set Exist field. */
  predicate Recordable(p: Pkg) {
    && !IsPseudoOrRelative(p.name)
    && p.pkgType in {GlobalGoPath, ProjectGoPath, ProjectVendor}
    && !p.exist
  }

  predicate AllRecordable(ps: seq<Pkg>) {
    forall k :: 0 <= k < |ps| ==> Recordable(ps[k])
  }

  /** The GOPATH and source directory the walk descends into for a package of each type. */
  function SubGopath(w: Toolchain, projectRoot: Path, ty: PkgType): Path {
    if ty == GlobalGoPath then w.envGopath else projectRoot
  }

  function SubSrc(w: Toolchain, projectRoot: Path, ty: PkgType): Path {
    match ty
    case GlobalGoPath => PathJoin(w.envGopath, "src")
    case ProjectVendor => PathJoin(PathJoin(projectRoot, "src"), "vendor")
    case _ => PathJoin(projectRoot, "src")
  }

  /** ListImports(gopath, importPath, projectRoot, srcPath, tags, isTest): the pre-order flattening
      of the imports reachable from importPath. `fuel` is the depth of the goroutine stack. */
  function ListImportsSpec(w: Toolchain, t: Fs, gopath: Path, importPath: string, projectRoot: Path,
                           srcPath: Path, tags: string, isTest: bool, fuel: Fuel): (r: Result<seq<Pkg>>)
    ensures r.Ok? ==> AllRecordable(r.value)
    decreases fuel, 0
  {
    if fuel.Empty? then Err(StackExhausted)
    else
      var read := w.importer(ImportRequest(gopath, importPath, srcPath, tags));
      if read.ReadError? then Err(ImportFailed(importPath))
      else WalkImports(w, t, projectRoot, tags, isTest, RawImports(read, isTest), fuel.rest)
  }

  /** The loop of ListImports over the raw import names, in order. */
  function WalkImports(w: Toolchain, t: Fs, projectRoot: Path, tags: string, isTest: bool,
                       names: seq<string>, fuel: Fuel): (r: Result<seq<Pkg>>)
    ensures r.Ok? ==> AllRecordable(r.value)
    decreases fuel, 3, |names|
  {
    if names == [] then Ok([])
    else match ImportStep(w, t, projectRoot, tags, isTest, names[0], fuel)
      case Err(e) => Err(e)
      case Ok(s) => Then(s, WalkImports(w, t, projectRoot, tags, isTest, names[1..], fuel))
  }

  /** What one raw import adds: nothing for "C", a relative name or a standard package; otherwise
      its record, followed by its own listing when it exists. */
  function ImportStep(w: Toolchain, t: Fs, projectRoot: Path, tags: string, isTest: bool,
                      name: string, fuel: Fuel): (r: Result<seq<Pkg>>)
    ensures r.Ok? ==> AllRecordable(r.value)
    decreases fuel, 2
  {
    if IsPseudoOrRelative(name) then Ok([])
    else match GetPkgType(t, w.goRepoPath, w.envGopath, projectRoot, name)
      case Err(e) => Err(e)
      case Ok((ty, exist)) =>
        match ty
        case Unknown => Err(UnknownPkgType)
        case GoRoot => Ok([])
        case _ =>
          if exist then Then([Pkg(name, ty, false)], SubImports(w, t, projectRoot, tags, isTest, name, ty, fuel))
          else Ok([Pkg(name, ty, false)])
  }

  /** The listing of an existing dependency, read from the GOPATH and source directory of its type. */
  function SubImports(w: Toolchain, t: Fs, projectRoot: Path, tags: string, isTest: bool,
                      name: string, ty: PkgType, fuel: Fuel): (r: Result<seq<Pkg>>)
    ensures r.Ok? ==> AllRecordable(r.value)
    decreases fuel, 1
  {
    ListImportsSpec(w, t, SubGopath(w, projectRoot, ty), name, projectRoot, SubSrc(w, projectRoot, ty), tags, isTest, fuel)
  }

  /** ListImports, as the loop and recursion the source runs. */
  method ListImports(w: Toolchain, fs: FileSystem, gopath: Path, importPath: string, projectRoot: Path,
                     srcPath: Path, tags: string, isTest: bool, fuel: Fuel) returns (r: Result<seq<Pkg>>)
    ensures r == ListImportsSpec(w, fs.tree, gopath, importPath, projectRoot, srcPath, tags, isTest, fuel)
    decreases fuel
  {
    if fuel.Empty? {
      return Err(StackExhausted);
    }
    var read := w.importer(ImportRequest(gopath, importPath, srcPath, tags));
    if read.ReadError? {
      return Err(ImportFailed(importPath));
    }
    var rawImports := RawImports(read, isTest);
    var imports: seq<Pkg> := [];
    assert rawImports[0..] == rawImports;
    ThenEmpty(WalkImports(w, fs.tree, projectRoot, tags, isTest, rawImports, fuel.rest));
    for i := 0 to |rawImports|
      invariant ListImportsSpec(w, fs.tree, gopath, importPath, projectRoot, srcPath, tags, isTest, fuel)
             == Then(imports, WalkImports(w, fs.tree, projectRoot, tags, isTest, rawImports[i..], fuel.rest))
    {
      var name := rawImports[i];
      assert rawImports[i..][1..] == rawImports[i + 1..];
      var entry: seq<Pkg> := [];
      if !IsPseudoOrRelative(name) {
        var cls := GetPkgType(fs.tree, w.goRepoPath, w.envGopath, projectRoot, name);
        if cls.Err? {
          return Err(cls.error);
        }
        var (ty, exist) := cls.value;
        if ty == Unknown {
          return Err(UnknownPkgType);
        }
        if ty != GoRoot {
          entry := [Pkg(name, ty, false)];
          if exist {
            var more := ListImports(w, fs, SubGopath(w, projectRoot, ty), name, projectRoot,
                                    SubSrc(w, projectRoot, ty), tags, isTest, fuel.rest);
            assert more == SubImports(w, fs.tree, projectRoot, tags, isTest, name, ty, fuel.rest);
            if more.Err? {
              assert ImportStep(w, fs.tree, projectRoot, tags, isTest, name, fuel.rest) == Err(more.error);
              return more;
            }
            entry := entry + more.value;
          }
        }
      }
      assert ImportStep(w, fs.tree, projectRoot, tags, isTest, name, fuel.rest) == Ok(entry);
      ThenThen(imports, entry, WalkImports(w, fs.tree, projectRoot, tags, isTest, rawImports[i + 1..], fuel.rest));
      imports := imports + entry;
    }
    assert imports + [] == imports;
    return Ok(imports);
  }

  /** Every raw import that is not skipped is recorded, with its classification, and when it
      exists the whole of its own listing is recorded too. */
  lemma {:induction false} WalkCovers(w: Toolchain, t: Fs, projectRoot: Path, tags: string, isTest: bool,
                                      names: seq<string>, fuel: Fuel, k: nat)
    requires k < |names| && !IsPseudoOrRelative(names[k])
    requires WalkImports(w, t, projectRoot, tags, isTest, names, fuel).Ok?
    ensures GetPkgType(t, w.goRepoPath, w.envGopath, projectRoot, names[k]).Ok?
    ensures var (ty, exist) := GetPkgType(t, w.goRepoPath, w.envGopath, projectRoot, names[k]).value;
            var r := WalkImports(w, t, projectRoot, tags, isTest, names, fuel).value;
            ty != GoRoot ==>
              && Pkg(names[k], ty, false) in r
              && (exist ==>
                    var more := SubImports(w, t, projectRoot, tags, isTest, names[k], ty, fuel);
                    more.Ok? && forall p :: p in more.value ==> p in r)
    decreases |names|
  {
    var step := ImportStep(w, t, projectRoot, tags, isTest, names[0], fuel);
    var rest := WalkImports(w, t, projectRoot, tags, isTest, names[1..], fuel);
    var r := WalkImports(w, t, projectRoot, tags, isTest, names, fuel).value;
    assert r == step.value + rest.value;
    if k > 0 {
      WalkCovers(w, t, projectRoot, tags, isTest, names[1..], fuel, k - 1);
      assert names[1..][k - 1] == names[k];
    }
  }

  /** A package found neither in the project nor in GOPATH's vendor directory nor in the standard
      library is recorded as a global package and not listed further. */
  lemma {:induction false} AbsentNotExpanded(w: Toolchain, t: Fs, projectRoot: Path, tags: string, isTest: bool,
                          name: string, rest: seq<string>, fuel: Fuel)
    requires !IsPseudoOrRelative(name)
    requires GetPkgType(t, w.goRepoPath, w.envGopath, projectRoot, name) == Ok((GlobalGoPath, false))
    ensures WalkImports(w, t, projectRoot, tags, isTest, [name] + rest, fuel)
         == Then([Pkg(name, GlobalGoPath, false)], WalkImports(w, t, projectRoot, tags, isTest, rest, fuel))
  {
    assert ([name] + rest)[1..] == rest;
    assert [Pkg(name, GlobalGoPath, false)] + [] == [Pkg(name, GlobalGoPath, false)];
  }

  /** The walk keeps no set of visited packages: a project package that imports itself exhausts
      the stack, however deep it is. */
  lemma {:induction false} SelfImportExhausts(w: Toolchain, t: Fs, projectRoot: Path, name: string,
                                              tags: string, isTest: bool, fuel: Fuel)
    requires !IsPseudoOrRelative(name)
    requires IsDir(t, SrcDir(projectRoot, name))
    requires w.importer(ImportRequest(projectRoot, name, PathJoin(projectRoot, "src"), tags)) == Found([name], [])
    ensures ListImportsSpec(w, t, projectRoot, name, projectRoot, PathJoin(projectRoot, "src"), tags, isTest, fuel)
         == Err(StackExhausted)
  {
    if fuel.More? {
      SelfImportExhausts(w, t, projectRoot, name, tags, isTest, fuel.rest);
      var raw := RawImports(Found([name], []), isTest);
      assert raw == [name];
      assert GetPkgType(t, w.goRepoPath, w.envGopath, projectRoot, name) == Ok((ProjectGoPath, true));
      assert SubImports(w, t, projectRoot, tags, isTest, name, ProjectGoPath, fuel.rest) == Err(StackExhausted);
      assert ImportStep(w, t, projectRoot, tags, isTest, name, fuel.rest) == Err(StackExhausted);
    }
  }
}
