/** Failure-carrying results and the errors the gop commands can report. */
module Wrappers {

  datatype Option<+T> = None | Some(value: T)

  /** How many more nested calls the goroutine stack can take: none left, or one more and then
      `rest`. */
  datatype Fuel = Empty | More(rest: Fuel)

  /** The errors of the modelled commands; each names the Go error it stands for. */
  datatype Error =
    | StatFailed(path: string)          // an os.Stat/os.Open error other than "does not exist"
    | NotExist(path: string)            // the os.Stat "does not exist" error, when it is returned
    | SameNameFile(path: string)        // isDirExist: "the same name file exist"
    | SameNameDir(path: string)         // isFileExist: "the same name directory exist"
    | NotADirectory(path: string)       // StatDir: "not a directory or does not exist"
    | AlreadyExists(path: string)       // CopyDir: "file or directory alreay exists"
    | MkdirFailed(path: string)         // os.MkdirAll failure
    | CopyFailed(path: string)          // Copy failure
    | ImportFailed(importPath: string)  // ListImports: "fail to get imports(...)"
    | UnknownPkgType                    // ListImports: "unkonw type package"
    | StackExhausted                    // the goroutine stack overflows (unbounded recursion)
    | RelativeOrAbsolute                // add/update: "relative pkg and absolute pkg is not supported"
    | DestIsFile(path: string)          // add/update: "Dest dir %s is a file"
    | NoArguments                       // "You have to indicate more than one package"
    | GopathNotFound                    // "Not found GOPATH"
    | UnknownTarget                     // analysisTarget: "unknow target"
    | NoTargets                         // index out of range on config.Targets[0]
    | HomeBlank                         // "HOMEDRIVE, HOMEPATH, and USERPROFILE are blank"
    | TypeAssertionPanic                // a failed interface type assertion
    | ExternalFailed(what: string)      // a failing external command (go get)

  datatype Result<+T> = Ok(value: T) | Err(error: Error) {
    predicate IsFailure() { Err? }
    function PropagateFailure<U>(): Result<U>
      requires Err?
    {
      Err(error)
    }
    function Extract(): T
      requires Ok?
    {
      value
    }
  }

  /** A listed prefix followed by the rest of a listing, keeping the rest's error. */
  function Then<T>(prefix: seq<T>, r: Result<seq<T>>): (q: Result<seq<T>>)
    ensures q.Ok? <==> r.Ok?
    ensures q.Ok? ==> q.value == prefix + r.value
  {
    match r
    case Ok(s) => Ok(prefix + s)
    case Err(e) => Err(e)
  }

  lemma ThenEmpty<T>(r: Result<seq<T>>)
    ensures Then([], r) == r
  {
    if r.Ok? {
      assert [] + r.value == r.value;
    }
  }

  lemma ThenThen<T>(a: seq<T>, b: seq<T>, r: Result<seq<T>>)
    ensures Then(a, Then(b, r)) == Then(a + b, r)
  {
    if r.Ok? {
      assert a + (b + r.value) == a + b + r.value;
    }
  }
}
