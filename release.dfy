/** gop release: builds the project into wd/bin/Name, replacing any -o the user gave. */
module Release {
  import opened Wrappers
  import opened Strings
  import opened Files
  import opened Seqs
  import opened Build

  /** config.Name: the base name of the working directory, unless gop.yml sets a name. */
  function ReleaseName(wd: Path, loadedName: Option<string>): string
  {
    if loadedName.Some? then loadedName.value else Base(wd)
  }

  /** The part of the arguments the scan reads: up to the first -o, or all of them. */
  function Scanned(args: seq<string>): seq<string> {
    var find := FirstIndex(args, "-o");
    if find < 0 then args else args[..find]
  }

  /** The scan of runRelease: -v seen before the first -o, and the index of that -o. */
  method ScanRelease(args: seq<string>) returns (showLog: bool, find: int)
    ensures showLog <==> "-v" in Scanned(args)
    ensures find == FirstIndex(args, "-o")
  {
    showLog := false;
    find := -1;
    var i := 0;
    while i < |args|
      invariant 0 <= i <= |args|
      invariant "-o" !in args[..i]
      invariant showLog <==> "-v" in args[..i]
    {
      assert args[..i + 1] == args[..i] + [args[i]];
      if args[i] == "-v" {
        showLog := true;
        i := i + 1;
        continue;
      }
      if args[i] == "-o" {
        find := i;
        break;
      }
      i := i + 1;
    }
    assert find < 0 ==> args[..i] == args;
  }

  /** Cutting out the -o at find and the value after it, if any, as the two branches of
      runRelease do, keeps every other argument in order. */
  lemma DropOutputFlag(args: seq<string>, find: nat)
    requires find < |args|
    ensures (if find < |args| - 2 then args[..find] + args[find + 2..] else args[..find]) ==
            Omit(args, find, find + 1)
  {
    OmitIsDel(args, find, find + 1);
    DropPair(args, find);
  }

  /** Deleting the element after find, then the one at find. */
  lemma DropPair(args: seq<string>, find: nat)
    requires find < |args|
    ensures Del(Del(args, find + 1), find) ==
            if find < |args| - 2 then args[..find] + args[find + 2..] else args[..find]
  {
    if find + 1 < |args| {
      var d := Del(args, find + 1);
      assert d[..find] == args[..find];
      assert d[find + 1..] == args[find + 2..];
      if find == |args| - 2 {
        assert args[find + 2..] == [];
        assert args[..find] + [] == args[..find];
      }
    } else {
      assert Del(args, find + 1) == args;
      assert args[find + 1..] == [];
      assert args[..find] + [] == args[..find];
    }
  }

  /** runRelease after the working directory and gop.yml are read: whether -v was seen before
      the first -o, and the build it starts in src. */
  method RunRelease(wd: Path, loadedName: Option<string>, args: seq<string>, envs: seq<string>)
    returns (showLog: bool, inv: Invocation)
    ensures showLog <==> "-v" in Scanned(args)
    ensures var find := FirstIndex(args, "-o");
      inv.args == (if find < 0 then args else Omit(args, find, find + 1)) +
                  ["-o", PathJoin(PathJoin(wd, "bin"), ReleaseName(wd, loadedName))]
    ensures inv.env == WithGopath(envs, wd) && inv.dir == "src"
  {
    var name := Base(wd);
    if loadedName.Some? {
      name := loadedName.value;
    }
    var find;
    showLog, find := ScanRelease(args);
    var rest := args;
    if find > -1 {
      DropOutputFlag(args, find);
      if find < |args| - 2 {
        rest := args[..find] + args[find + 2..];
      } else {
        rest := args[..find];
      }
    }
    rest := rest + ["-o", PathJoin(PathJoin(wd, "bin"), name)];
    var env := SetGopathEnv(envs, wd);
    inv := Invocation(rest, env, "src");
  }

  /** With at most one -o given, the release path is the only output the build sees: the
      appended pair is the only -o left. */
  lemma ReleaseSingleOutput(args: seq<string>, out: Path)
    requires out != "-o"
    requires forall a, b :: 0 <= a < b < |args| && args[a] == "-o" ==> args[b] != "-o"
    ensures var find := FirstIndex(args, "-o");
      var kept := if find < 0 then args else Omit(args, find, find + 1);
      var r := kept + ["-o", out];
      forall j :: 0 <= j < |r| && r[j] == "-o" ==> j == |kept|
  {
    var find := FirstIndex(args, "-o");
    var kept := if find < 0 then args else Omit(args, find, find + 1);
    if find >= 0 {
      NoOtherOutput(args, find);
    }
    assert "-o" !in kept;
  }

  /** Dropping the only -o and its value leaves no -o behind. */
  lemma NoOtherOutput(args: seq<string>, find: nat)
    requires find < |args| && args[find] == "-o" && "-o" !in args[..find]
    requires forall a, b :: 0 <= a < b < |args| && args[a] == "-o" ==> args[b] != "-o"
    ensures "-o" !in Omit(args, find, find + 1)
  {
    DropOutputFlag(args, find);
    var kept := Omit(args, find, find + 1);
    forall j | 0 <= j < |kept|
      ensures kept[j] != "-o"
    {
      if j < find {
        assert kept[j] == args[..find][j];
      } else {
        assert kept[j] == args[j + 2];
      }
    }
  }
}
