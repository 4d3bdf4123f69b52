/** The part of the Go toolchain the resolver consults: go/build's Context.Import. Its package
    reader is not part of this model; it is an oracle from the exact request to what it reports. */
module GoBuild {
  import opened Strings

  /** One call ctxt.Import(importPath, srcDir, build.AllowBinary) with ctxt.GOPATH = gopath and
      the build tags taken from `tags`. */
  datatype ImportRequest = ImportRequest(gopath: string, importPath: string, srcDir: string, tags: string)

  /** What the reader reports. */
  datatype PkgRead =
    | Found(imports: seq<string>, testImports: seq<string>)
    | NoGo       // *build.NoGoError: no buildable Go file, so no imports either
    | ReadError  // any other error (package not found, unreadable directory, parse error)

  type Importer = ImportRequest -> PkgRead

  /** The process-wide inputs of an import walk: the package reader, the standard-library set
      goRepoPath of the revision at hand, and the value of $GOPATH. */
  datatype Toolchain = Toolchain(importer: Importer, goRepoPath: set<string>, envGopath: string)

  /** rawImports: the package's imports, followed by its test imports when tests are included. */
  function RawImports(read: PkgRead, isTest: bool): seq<string>
    requires !read.ReadError?
  {
    match read
    case NoGo => []
    case Found(imports, testImports) => if isTest then imports + testImports else imports
  }

  /** The import names no listing follows: cgo's "C" and relative paths. */
  predicate IsPseudoOrRelative(name: string) {
    name == "C" || HasPrefix(name, "../") || HasPrefix(name, "./")
  }
}
