/** cmd/status.go: the static standard-library table and its closure, the string revision of
    ListImports, and the report loop of runStatus. */
module Status {
  import opened Wrappers
  import opened Strings
  import opened Files
  import opened CmdUtil
  import opened GoBuild
  import opened Seqs
  import Build

  /** standardPath: the standard packages this revision knows of, in the order of the source's
      table, written in groups of fifteen. */
  const StandardPath: seq<string> :=
    StandardPath0 + StandardPath1 + StandardPath2 + StandardPath3 + StandardPath4 +
    StandardPath5 + StandardPath6 + StandardPath7 + StandardPath8

  const StandardPath0: seq<string> := [
    "builtin", "archive/tar", "archive/zip", "bufio", "bytes", "compress/bzip2", "compress/flate",
    "compress/gzip", "compress/lzw", "compress/zlib", "container/heap", "container/list",
    "container/ring", "context", "crypto"
  ]

  const StandardPath1: seq<string> := [
    "crypto/aes", "crypto/cipher", "crypto/des", "crypto/dsa", "crypto/ecdsa", "crypto/elliptic",
    "crypto/hmac", "crypto/md5", "crypto/rand", "crypto/rc4", "crypto/rsa", "crypto/sha1",
    "crypto/sha256", "crypto/sha512", "crypto/subtle"
  ]

  const StandardPath2: seq<string> := [
    "crypto/tls", "crypto/x509", "crypto/x509/pkix", "database/sql", "database/sql/driver",
    "debug/dwarf", "debug/elf", "debug/gosym", "debug/macho", "debug/pe", "encoding",
    "encoding/ascii85", "encoding/asn1", "encoding/base32", "encoding/base64"
  ]

  const StandardPath3: seq<string> := [
    "encoding/binary", "encoding/csv", "encoding/gob", "encoding/hex", "encoding/json",
    "encoding/pem", "encoding/xml", "errors", "expvar", "flag", "fmt", "go/ast", "go/build",
    "go/doc", "go/format"
  ]

  const StandardPath4: seq<string> := [
    "go/parser", "go/printer", "go/scanner", "go/token", "hash", "hash/adler32", "hash/crc32",
    "hash/crc64", "hash/fnv", "html", "html/template", "image", "image/color",
    "image/color/palette", "image/draw"
  ]

  const StandardPath5: seq<string> := [
    "image/gif", "image/jpeg", "image/png", "index/suffixarray", "io", "io/ioutil", "log",
    "log/syslog", "math", "math/big", "math/cmplx", "math/rand", "mime", "mime/multipart", "net"
  ]

  const StandardPath6: seq<string> := [
    "net/http", "net/http/cgi", "net/http/cookiejar", "net/http/fcgi", "net/http/httptest",
    "net/http/httputil", "net/http/pprof", "net/mail", "net/rpc", "net/rpc/jsonrpc", "net/smtp",
    "net/textproto", "net/url", "os", "os/exec"
  ]

  const StandardPath7: seq<string> := [
    "os/signal", "os/user", "path", "path/filepath", "reflect", "regexp", "regexp/syntax",
    "runtime", "runtime/cgo", "runtime/debug", "runtime/pprof", "runtime/race", "sort", "strconv",
    "strings"
  ]

  const StandardPath8: seq<string> := [
    "sync", "sync/atomic", "syscall", "testing", "testing/iotest", "testing/quick", "text/scanner",
    "text/tabwriter", "text/template", "text/template/parse", "time", "unicode", "unicode/utf16",
    "unicode/utf8", "unsafe"
  ]

  /** The union of each path's cuts at '/', without any exclusion. */
  function StdClosure(std: seq<string>): set<string>
  {
    if std == [] then {} else StdClosure(std[..|std| - 1]) + SlashPrefixes(std[|std| - 1])
  }

  /** init: every table entry is added, then cut at its last '/' again and again. */
  method InitGoRepoPath() returns (goRepoPath: set<string>)
    ensures goRepoPath == StdClosure(StandardPath)
  {
    goRepoPath := CloseTable(StandardPath);
  }

  /** The loops of init over a table of package paths. */
  method CloseTable(std: seq<string>) returns (goRepoPath: set<string>)
    ensures goRepoPath == StdClosure(std)
  {
    goRepoPath := {};
    for n := 0 to |std|
      invariant goRepoPath == StdClosure(std[..n])
    {
      assert std[..n + 1][..n] == std[..n];
      var p := std[n];
      ghost var before := goRepoPath;
      while true
        invariant goRepoPath + SlashPrefixes(p) == before + SlashPrefixes(std[n])
        decreases |p|
      {
        goRepoPath := goRepoPath + {p};
        var i := LastIndexOf(p, '/');
        if i < 0 {
          break;
        }
        p := p[..i];
      }
    }
    assert std[..|std|] == std;
  }

  /** The closure holds exactly the listed paths and their cuts at a '/'. */
  lemma {:induction false} StdClosureMembership(std: seq<string>, q: string)
    ensures q in StdClosure(std) <==> exists k :: 0 <= k < |std| && (q == std[k] || IsCutAtSlash(q, std[k]))
    decreases |std|
  {
    if std != [] {
      var init := std[..|std| - 1];
      StdClosureMembership(init, q);
      SlashPrefixesExactly(std[|std| - 1], q);
      if q in StdClosure(init) {
        var k :| 0 <= k < |init| && (q == init[k] || IsCutAtSlash(q, init[k]));
        assert std[k] == init[k];
      }
      if exists k :: 0 <= k < |std| && (q == std[k] || IsCutAtSlash(q, std[k])) {
        var k :| 0 <= k < |std| && (q == std[k] || IsCutAtSlash(q, std[k]));
        if k < |std| - 1 {
          assert init[k] == std[k];
        }
      }
    }
  }

  /** "crypto/x509/pkix" brings "crypto/x509" and "crypto" into the set. */
  lemma {:induction false} PkixClosure()
    ensures {"crypto/x509/pkix", "crypto/x509", "crypto"} <= StdClosure(StandardPath)
  {
    assert StandardPath2[2] == "crypto/x509/pkix";
    assert "crypto/x509/pkix" in StandardPath;
    var k :| 0 <= k < |StandardPath| && StandardPath[k] == "crypto/x509/pkix";
    PkixCuts(StandardPath[k]);
    InClosure(StandardPath, k, "crypto/x509/pkix");
    InClosure(StandardPath, k, "crypto/x509");
    InClosure(StandardPath, k, "crypto");
  }

  lemma PkixCuts(p: string)
    requires p == "crypto/x509/pkix"
    ensures IsCutAtSlash("crypto/x509", p) && IsCutAtSlash("crypto", p)
  {
    assert p[11] == '/' && p[..11] == "crypto/x509";
    assert p[6] == '/' && p[..6] == "crypto";
  }

  /** A listed path and each of its cuts are in the closure. */
  lemma InClosure(std: seq<string>, k: nat, q: string)
    requires k < |std| && (q == std[k] || IsCutAtSlash(q, std[k]))
    ensures q in StdClosure(std)
  {
    StdClosureMembership(std, q);
  }

  // ---------------------------------------------------------------------------
  // ListImports (string revision)

  /** What the walk may record: neither a standard package, nor "C", nor a relative name. */
  predicate Recordable(goRepoPath: set<string>, name: string) {
    name !in goRepoPath && !IsPseudoOrRelative(name)
  }

  predicate AllRecordable(goRepoPath: set<string>, names: seq<string>) {
    forall k :: 0 <= k < |names| ==> Recordable(goRepoPath, names[k])
  }

  /** The directory a dependency not found under rootPath is listed from: $GOPATH/src/name. */
  function GopathDir(w: Toolchain, name: string): Path {
    PathJoin(PathJoin(w.envGopath, "src"), name)
  }

  /** ListImports(importPath, rootPath, srcPath, tags, isTest): the pre-order flattening of the
      imports reachable from importPath. `fuel` is the depth of the goroutine stack. */
  function ListImportsSpec(w: Toolchain, t: Fs, importPath: string, rootPath: Path, srcPath: Path,
                           tags: string, isTest: bool, fuel: Fuel): (r: Result<seq<string>>)
    ensures r.Ok? ==> AllRecordable(w.goRepoPath, r.value)
    decreases fuel, 0
  {
    if fuel.Empty? then Err(StackExhausted)
    else
      var read := w.importer(ImportRequest(w.envGopath, importPath, srcPath, tags));
      if read.ReadError? then Err(ImportFailed(importPath))
      else WalkImports(w, t, rootPath, tags, isTest, RawImports(read, isTest), fuel.rest)
  }

  /** The loop of ListImports over the raw import names: a name found under rootPath is listed
      again as "./name" from rootPath with isTest passed on, any other from $GOPATH/src/name
      without tests. */
  function WalkImports(w: Toolchain, t: Fs, rootPath: Path, tags: string, isTest: bool,
                       names: seq<string>, fuel: Fuel): (r: Result<seq<string>>)
    ensures r.Ok? ==> AllRecordable(w.goRepoPath, r.value)
    decreases fuel, 1, |names|
  {
    if names == [] then Ok([])
    else
      var rest := WalkImports(w, t, rootPath, tags, isTest, names[1..], fuel);
      var name := names[0];
      if name in w.goRepoPath || IsPseudoOrRelative(name) then rest
      else match IsDirExist(t, PathJoin(rootPath, name))
        case Err(e) => Err(e)
        case Ok(exist) =>
          var more :=
            if exist then ListImportsSpec(w, t, "./" + name, rootPath, rootPath, tags, isTest, fuel)
            else ListImportsSpec(w, t, name, GopathDir(w, name), GopathDir(w, name), tags, false, fuel);
          match more
          case Err(e) => Err(e)
          case Ok(s) => Then([name] + s, rest)
  }

  /** ListImports, as the loop and recursion the source runs. */
  method ListImports(w: Toolchain, fs: FileSystem, importPath: string, rootPath: Path, srcPath: Path,
                     tags: string, isTest: bool, fuel: Fuel) returns (r: Result<seq<string>>)
    ensures r == ListImportsSpec(w, fs.tree, importPath, rootPath, srcPath, tags, isTest, fuel)
    decreases fuel
  {
    if fuel.Empty? {
      return Err(StackExhausted);
    }
    var read := w.importer(ImportRequest(w.envGopath, importPath, srcPath, tags));
    if read.ReadError? {
      return Err(ImportFailed(importPath));
    }
    var rawImports := RawImports(read, isTest);
    var imports: seq<string> := [];
    assert rawImports[0..] == rawImports;
    ThenEmpty(WalkImports(w, fs.tree, rootPath, tags, isTest, rawImports, fuel.rest));
    for i := 0 to |rawImports|
      invariant ListImportsSpec(w, fs.tree, importPath, rootPath, srcPath, tags, isTest, fuel)
             == Then(imports, WalkImports(w, fs.tree, rootPath, tags, isTest, rawImports[i..], fuel.rest))
    {
      var name := rawImports[i];
      assert rawImports[i..][1..] == rawImports[i + 1..];
      if !(name in w.goRepoPath || IsPseudoOrRelative(name)) {
        var exist := IsDirExist(fs.tree, PathJoin(rootPath, name));
        if exist.Err? {
          return Err(exist.error);
        }
        var more;
        if exist.value {
          more := ListImports(w, fs, "./" + name, rootPath, rootPath, tags, isTest, fuel.rest);
        } else {
          more := ListImports(w, fs, name, GopathDir(w, name), GopathDir(w, name), tags, false, fuel.rest);
        }
        if more.Err? {
          return more;
        }
        ThenThen(imports, [name] + more.value, WalkImports(w, fs.tree, rootPath, tags, isTest, rawImports[i + 1..], fuel.rest));
        imports := imports + ([name] + more.value);
      }
    }
    assert imports + [] == imports;
    return Ok(imports);
  }

  /** The listing the walk appends after a recorded name. */
  function SubListing(w: Toolchain, t: Fs, rootPath: Path, tags: string, isTest: bool, name: string, fuel: Fuel)
    : Result<seq<string>>
    requires IsDirExist(t, PathJoin(rootPath, name)).Ok?
  {
    if IsDirExist(t, PathJoin(rootPath, name)).value
    then ListImportsSpec(w, t, "./" + name, rootPath, rootPath, tags, isTest, fuel)
    else ListImportsSpec(w, t, name, GopathDir(w, name), GopathDir(w, name), tags, false, fuel)
  }

  /** Every raw import that is not skipped is recorded, followed somewhere by everything of its
      own listing: the walk reaches the dependencies of dependencies. */
  lemma {:induction false} WalkCovers(w: Toolchain, t: Fs, rootPath: Path, tags: string, isTest: bool,
                                      names: seq<string>, fuel: Fuel, k: nat)
    requires k < |names| && Recordable(w.goRepoPath, names[k])
    requires WalkImports(w, t, rootPath, tags, isTest, names, fuel).Ok?
    ensures names[k] in WalkImports(w, t, rootPath, tags, isTest, names, fuel).value
    ensures IsDirExist(t, PathJoin(rootPath, names[k])).Ok?
    ensures SubListing(w, t, rootPath, tags, isTest, names[k], fuel).Ok?
    ensures forall n :: n in SubListing(w, t, rootPath, tags, isTest, names[k], fuel).value ==>
              n in WalkImports(w, t, rootPath, tags, isTest, names, fuel).value
    decreases |names|
  {
    var rest := WalkImports(w, t, rootPath, tags, isTest, names[1..], fuel);
    if k > 0 {
      WalkCovers(w, t, rootPath, tags, isTest, names[1..], fuel, k - 1);
      assert names[1..][k - 1] == names[k];
      var name := names[0];
      if Recordable(w.goRepoPath, name) {
        var r := WalkImports(w, t, rootPath, tags, isTest, names, fuel).value;
        assert r[|r| - |rest.value|..] == rest.value;
      }
    }
  }

  /** Listing a package records each of its direct imports that is not skipped, and everything
      those list in turn. */
  lemma {:induction false} ListingCovers(w: Toolchain, t: Fs, importPath: string, rootPath: Path, srcPath: Path,
                      tags: string, isTest: bool, fuel: Fuel, name: string)
    requires ListImportsSpec(w, t, importPath, rootPath, srcPath, tags, isTest, fuel).Ok?
    requires !w.importer(ImportRequest(w.envGopath, importPath, srcPath, tags)).ReadError?
    requires name in RawImports(w.importer(ImportRequest(w.envGopath, importPath, srcPath, tags)), isTest)
    requires Recordable(w.goRepoPath, name)
    ensures fuel.More?
    ensures name in ListImportsSpec(w, t, importPath, rootPath, srcPath, tags, isTest, fuel).value
    ensures IsDirExist(t, PathJoin(rootPath, name)).Ok?
    ensures SubListing(w, t, rootPath, tags, isTest, name, fuel.rest).Ok?
    ensures forall n :: n in SubListing(w, t, rootPath, tags, isTest, name, fuel.rest).value ==>
              n in ListImportsSpec(w, t, importPath, rootPath, srcPath, tags, isTest, fuel).value
  {
    var raw := RawImports(w.importer(ImportRequest(w.envGopath, importPath, srcPath, tags)), isTest);
    var k :| 0 <= k < |raw| && raw[k] == name;
    WalkCovers(w, t, rootPath, tags, isTest, raw, fuel.rest, k);
  }

  // ---------------------------------------------------------------------------
  // runStatus

  /** One printed line: "[X] name" when vendored, "[ ] name" otherwise. */
  datatype ReportLine = ReportLine(name: string, vendored: bool)

  /** The report loop over imports[i..]: names present under projectRoot/src and repeats of an
      earlier name are skipped; a same-named file in the vendor directory aborts. */
  function ReportFrom(t: Fs, projectRoot: Path, imports: seq<string>, i: nat): Result<seq<ReportLine>>
    requires i <= |imports|
    decreases |imports| - i
  {
    if i == |imports| then Ok([])
    else
      var imp := imports[i];
      var rest := ReportFrom(t, projectRoot, imports, i + 1);
      if IsExist(t, PathJoin(PathJoin(projectRoot, "src"), imp)) || imp in imports[..i] then rest
      else match IsDirExist(t, PathJoin(PathJoin(PathJoin(projectRoot, "src"), "vendor"), imp))
        case Err(e) => Err(e)
        case Ok(exist) => Then([ReportLine(imp, exist)], rest)
  }

  /** The loop of runStatus over the listed imports. */
  method Report(fs: FileSystem, projectRoot: Path, imports: seq<string>) returns (r: Result<seq<ReportLine>>)
    ensures r == ReportFrom(fs.tree, projectRoot, imports, 0)
  {
    var vendorDir := PathJoin(PathJoin(projectRoot, "src"), "vendor");
    var lines: seq<ReportLine> := [];
    ThenEmpty(ReportFrom(fs.tree, projectRoot, imports, 0));
    for i := 0 to |imports|
      invariant ReportFrom(fs.tree, projectRoot, imports, 0) == Then(lines, ReportFrom(fs.tree, projectRoot, imports, i))
    {
      var imp := imports[i];
      var pkg := PathJoin(PathJoin(projectRoot, "src"), imp);
      if !IsExist(fs.tree, pkg) {
        var has := SeenBefore(imports, i);
        if !has {
          var exist := IsDirExist(fs.tree, PathJoin(vendorDir, imp));
          if exist.Err? {
            return Err(exist.error);
          }
          ThenThen(lines, [ReportLine(imp, exist.value)], ReportFrom(fs.tree, projectRoot, imports, i + 1));
          lines := lines + [ReportLine(imp, exist.value)];
        }
      }
    }
    assert lines + [] == lines;
    return Ok(lines);
  }

  /** runStatus after the working directory, the project root and gop.yml are known. `gopathEnv`
      is the value of the GOPATH variable, if set, which is also the toolchain's $GOPATH; the first argument names the target unless it
      starts with '-'. The imports of the target's directory are listed, then reported. */
  method RunStatus(session: Build.Session, w: Toolchain, fs: FileSystem, gopathEnv: Option<Path>,
                   projectRoot: Path, atTargetLevel: bool, dirName: string, targets: seq<Build.Target>,
                   args: seq<string>, fuel: Fuel)
    returns (r: Result<seq<ReportLine>>)
    requires gopathEnv.Some? ==> gopathEnv.value == w.envGopath
    modifies session
    ensures gopathEnv.None? ==> r == Err(GopathNotFound) && session.curTarget == old(session.curTarget)
    ensures var chosen := Build.AnalysisTargetSpec(old(session.curTarget), targets, atTargetLevel, dirName,
                                                   Build.TargetArg(args).0, fs.tree, projectRoot);
      gopathEnv.Some? ==>
        (chosen.Err? ==> r == Err(chosen.error) && session.curTarget == old(session.curTarget)) &&
        (chosen.Ok? ==> session.curTarget == Some(chosen.value))
    ensures var chosen := Build.AnalysisTargetSpec(old(session.curTarget), targets, atTargetLevel, dirName,
                                                   Build.TargetArg(args).0, fs.tree, projectRoot);
      gopathEnv.Some? && chosen.Ok? ==>
        var imports := ListImportsSpec(w, fs.tree, ".", PathJoin(projectRoot, "src"),
                                       SrcDir(projectRoot, chosen.value.dir), "", true, fuel);
        r == if imports.Err? then Err(imports.error) else ReportFrom(fs.tree, projectRoot, imports.value, 0)
  {
    if gopathEnv.None? {
      return Err(GopathNotFound);
    }
    var targetName := "";
    if |args| > 0 && !HasPrefix(args[0], "-") {
      targetName := args[0];
    }
    var err := session.AnalysisTarget(targets, atTargetLevel, dirName, targetName, fs.tree, projectRoot);
    if err.Some? {
      return Err(err.value);
    }
    var srcDir := SrcDir(projectRoot, session.curTarget.value.dir);
    var imports := ListImports(w, fs, ".", PathJoin(projectRoot, "src"), srcDir, "", true, fuel);
    if imports.Err? {
      return Err(imports.error);
    }
    r := Report(fs, projectRoot, imports.value);
  }

  /** A report line is sound for the loop from position i: it names an import of imports[i..]
      not seen before i and absent from projectRoot/src, and is marked exactly when
      src/vendor/name is a directory. */
  ghost predicate Reported(t: Fs, projectRoot: Path, imports: seq<string>, i: nat, line: ReportLine)
    requires i <= |imports|
  {
    && line.name in imports[i..]
    && line.name !in imports[..i]
    && !IsExist(t, PathJoin(PathJoin(projectRoot, "src"), line.name))
    && (line.vendored <==>
          IsDirExist(t, PathJoin(PathJoin(PathJoin(projectRoot, "src"), "vendor"), line.name)) == Ok(true))
  }

  /** A line the loop reports after position i, on a name other than imports[i], is sound from
      position i too. */
  lemma ReportedStep(t: Fs, projectRoot: Path, imports: seq<string>, i: nat, line: ReportLine)
    requires i < |imports| && Reported(t, projectRoot, imports, i + 1, line)
    ensures Reported(t, projectRoot, imports, i, line)
  {
    CutAt(imports, i);
  }

  /** One step of the report loop: position i is skipped, or reported before the rest. */
  lemma ReportStep(t: Fs, projectRoot: Path, imports: seq<string>, i: nat)
    requires i < |imports| && ReportFrom(t, projectRoot, imports, i).Ok?
    ensures ReportFrom(t, projectRoot, imports, i + 1).Ok?
    ensures var lines := ReportFrom(t, projectRoot, imports, i).value;
            var rest := ReportFrom(t, projectRoot, imports, i + 1).value;
            var vendor := PathJoin(PathJoin(PathJoin(projectRoot, "src"), "vendor"), imports[i]);
            if IsExist(t, PathJoin(PathJoin(projectRoot, "src"), imports[i])) || imports[i] in imports[..i]
            then lines == rest
            else IsDirExist(t, vendor).Ok? && lines == [ReportLine(imports[i], IsDirExist(t, vendor).value)] + rest
  {
  }

  /** Every line of the report is sound. */
  lemma {:induction false} ReportLinesSound(t: Fs, projectRoot: Path, imports: seq<string>, i: nat)
    requires i <= |imports|
    requires ReportFrom(t, projectRoot, imports, i).Ok?
    ensures var lines := ReportFrom(t, projectRoot, imports, i).value;
            forall a :: 0 <= a < |lines| ==> Reported(t, projectRoot, imports, i, lines[a])
    decreases |imports| - i
  {
    if i < |imports| {
      ReportStep(t, projectRoot, imports, i);
      ReportLinesSound(t, projectRoot, imports, i + 1);
      var rest := ReportFrom(t, projectRoot, imports, i + 1).value;
      var lines := ReportFrom(t, projectRoot, imports, i).value;
      forall a | 0 <= a < |rest|
        ensures Reported(t, projectRoot, imports, i, rest[a])
      {
        ReportedStep(t, projectRoot, imports, i, rest[a]);
      }
      if lines != rest {
        CutAt(imports, i);
        assert Reported(t, projectRoot, imports, i, lines[0]);
        assert forall a :: 0 < a < |lines| ==> lines[a] == rest[a - 1];
      }
    }
  }

  /** No two lines of the report name the same import. */
  lemma {:induction false} ReportDistinct(t: Fs, projectRoot: Path, imports: seq<string>, i: nat)
    requires i <= |imports|
    requires ReportFrom(t, projectRoot, imports, i).Ok?
    ensures var lines := ReportFrom(t, projectRoot, imports, i).value;
            forall a, b :: 0 <= a < b < |lines| ==> lines[a].name != lines[b].name
    decreases |imports| - i
  {
    if i < |imports| {
      ReportStep(t, projectRoot, imports, i);
      ReportDistinct(t, projectRoot, imports, i + 1);
      var rest := ReportFrom(t, projectRoot, imports, i + 1).value;
      var lines := ReportFrom(t, projectRoot, imports, i).value;
      if lines != rest {
        ReportHeadNew(t, projectRoot, imports, i);
      }
    }
  }

  /** A line reported for imports[i] comes before the lines of the later imports, none of which
      carries its name. */
  lemma ReportHeadNew(t: Fs, projectRoot: Path, imports: seq<string>, i: nat)
    requires i < |imports|
    requires ReportFrom(t, projectRoot, imports, i).Ok? && ReportFrom(t, projectRoot, imports, i + 1).Ok?
    requires ReportFrom(t, projectRoot, imports, i).value != ReportFrom(t, projectRoot, imports, i + 1).value
    ensures var lines := ReportFrom(t, projectRoot, imports, i).value;
            var rest := ReportFrom(t, projectRoot, imports, i + 1).value;
            |lines| == |rest| + 1 &&
            forall a :: 0 < a < |lines| ==> lines[a] == rest[a - 1] && lines[a].name != lines[0].name
  {
    ReportStep(t, projectRoot, imports, i);
    var rest := ReportFrom(t, projectRoot, imports, i + 1).value;
    var lines := ReportFrom(t, projectRoot, imports, i).value;
    ReportLinesSound(t, projectRoot, imports, i + 1);
    CutAt(imports, i);
    forall a | 0 < a < |lines|
      ensures lines[a] == rest[a - 1] && lines[a].name != lines[0].name
    {
      assert Reported(t, projectRoot, imports, i + 1, rest[a - 1]);
    }
  }

  /** The report names each import at most once, only imports absent from projectRoot/src, and
      marks a name exactly when src/vendor/name is a directory. */
  lemma ReportSound(t: Fs, projectRoot: Path, imports: seq<string>, i: nat)
    requires i <= |imports|
    requires ReportFrom(t, projectRoot, imports, i).Ok?
    ensures var lines := ReportFrom(t, projectRoot, imports, i).value;
            && (forall a :: 0 <= a < |lines| ==> Reported(t, projectRoot, imports, i, lines[a]))
            && (forall a, b :: 0 <= a < b < |lines| ==> lines[a].name != lines[b].name)
  {
    ReportLinesSound(t, projectRoot, imports, i);
    ReportDistinct(t, projectRoot, imports, i);
  }

  /** The first occurrence of the element at position k. */
  lemma {:induction false} FirstOccurrence(s: seq<string>, k: nat)
    requires k < |s|
    ensures exists k0 :: 0 <= k0 <= k && s[k0] == s[k] && s[k] !in s[..k0]
  {
    if s[k] in s[..k] {
      var j :| 0 <= j < k && s[..k][j] == s[k];
      FirstOccurrence(s, j);
      var k0 :| 0 <= k0 <= j && s[k0] == s[j] && s[j] !in s[..k0];
      assert 0 <= k0 <= k && s[k0] == s[k] && s[k] !in s[..k0];
    } else {
      assert s[..k] == s[..k];
    }
  }

  lemma {:induction false} ReportIncludes(t: Fs, projectRoot: Path, imports: seq<string>, i: nat, k: nat)
    requires i <= k < |imports|
    requires ReportFrom(t, projectRoot, imports, i).Ok?
    requires imports[k] !in imports[..k] && !IsExist(t, PathJoin(PathJoin(projectRoot, "src"), imports[k]))
    ensures exists a :: 0 <= a < |ReportFrom(t, projectRoot, imports, i).value| &&
                        ReportFrom(t, projectRoot, imports, i).value[a].name == imports[k]
    decreases k - i
  {
    var lines := ReportFrom(t, projectRoot, imports, i).value;
    if i == k {
      assert lines[0].name == imports[k];
    } else {
      ReportIncludes(t, projectRoot, imports, i + 1, k);
      var rest := ReportFrom(t, projectRoot, imports, i + 1).value;
      var a :| 0 <= a < |rest| && rest[a].name == imports[k];
      assert lines[|lines| - |rest| + a] == rest[a];
    }
  }

  /** Every import absent from projectRoot/src is reported. */
  lemma {:induction false} ReportComplete(t: Fs, projectRoot: Path, imports: seq<string>, k: nat)
    requires k < |imports|
    requires ReportFrom(t, projectRoot, imports, 0).Ok?
    requires !IsExist(t, PathJoin(PathJoin(projectRoot, "src"), imports[k]))
    ensures exists a :: 0 <= a < |ReportFrom(t, projectRoot, imports, 0).value| &&
                        ReportFrom(t, projectRoot, imports, 0).value[a].name == imports[k]
  {
    FirstOccurrence(imports, k);
    var k0 :| 0 <= k0 <= k && imports[k0] == imports[k] && imports[k] !in imports[..k0];
    ReportIncludes(t, projectRoot, imports, 0, k0);
  }

  /** The walk keeps no set of visited packages: a package below rootPath that imports itself
      exhausts the stack, however deep it is. */
  lemma {:induction false} SelfImportExhausts(w: Toolchain, t: Fs, rootPath: Path, name: string,
                                              tags: string, isTest: bool, fuel: Fuel)
    requires Recordable(w.goRepoPath, name)
    requires IsDir(t, PathJoin(rootPath, name))
    requires w.importer(ImportRequest(w.envGopath, "./" + name, rootPath, tags)) == Found([name], [])
    ensures ListImportsSpec(w, t, "./" + name, rootPath, rootPath, tags, isTest, fuel) == Err(StackExhausted)
  {
    if fuel.More? {
      SelfImportExhausts(w, t, rootPath, name, tags, isTest, fuel.rest);
      assert RawImports(Found([name], []), isTest) == [name];
      assert IsDirExist(t, PathJoin(rootPath, name)) == Ok(true);
      assert WalkImports(w, t, rootPath, tags, isTest, [name], fuel.rest) == Err(StackExhausted);
    }
  }
}
