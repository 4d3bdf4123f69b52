/** gop rm: removes a vendored repository, named by any package path inside it, from the
    project's src/vendor directory. */
module Rm {
  import opened Wrappers
  import opened Strings
  import opened Files
  import opened NameUtil
  import opened Add

  /** The project's vendor directory, projectRoot/src/vendor. */
  function VendorRoot(projectRoot: Path): Path {
    PathJoin(PathJoin(projectRoot, "src"), "vendor")
  }

  /** What runRemove leaves on disk and returns. Without arguments it refuses; otherwise it
      removes the repository directory of the first argument and reports no error, whatever
      RemoveAll met. */
  function RemoveSpec(t: Fs, args: seq<string>, projectRoot: Path): (r: (Fs, Option<Error>))
    ensures args == [] ==> r == (t, Some(NoArguments))
    ensures args != [] ==> r.1 == None && r.0.broken == t.broken
    ensures args != [] && Target(projectRoot, args[0]) !in t.broken ==>
      forall q :: InSubtree(q, Target(projectRoot, args[0])) ==> q !in r.0.nodes
    ensures forall q :: q in r.0.nodes ==> q in t.nodes
  {
    if args == [] then (t, Some(NoArguments))
    else
      var dst := Target(projectRoot, args[0]);
      assert |PathJoin(projectRoot, "src")| >= 3;
      (AfterRemoveAll(t, dst), None)
  }

  /** runRemove, changing the disk in place. */
  method RunRemove(fs: FileSystem, args: seq<string>, projectRoot: Path) returns (err: Option<Error>)
    modifies fs
    ensures (fs.tree, err) == RemoveSpec(old(fs.tree), args, projectRoot)
  {
    if |args| <= 0 {
      return Some(NoArguments);
    }
    var parentPkg := NormalizeName(args[0]).0;
    var dstPath := PathJoin(VendorRoot(projectRoot), parentPkg);
    fs.RemoveAll(dstPath);
    return None;
  }

  lemma PrefixCancel(x: string, a: string, b: string)
    ensures HasPrefix(x + a, x + b) <==> HasPrefix(a, b)
  {
    if HasPrefix(a, b) {
      assert (x + a)[..|x + b|] == x + a[..|b|];
    }
    if HasPrefix(x + a, x + b) {
      assert (x + a)[..|x + b|] == x + a[..|b|];
      assert a[..|b|] == (x + a)[..|x + b|][|x|..];
    }
  }

  /** Another repository vendored beside the removed one survives, unless its path lies inside
      the removed repository's; the vendor directory itself survives whenever the argument names
      a repository at all. */
  lemma RemoveKeepsOthers(t: Fs, args: seq<string>, projectRoot: Path, other: string)
    requires args != [] && other != "" && RepoOf(args[0]) != ""
    requires !InSubtree(other, RepoOf(args[0]))
    ensures var r := RemoveSpec(t, args, projectRoot).0;
      (VendorDir(projectRoot, other) in t.nodes ==> VendorDir(projectRoot, other) in r.nodes) &&
      (VendorRoot(projectRoot) in t.nodes ==> VendorRoot(projectRoot) in r.nodes)
  {
    var v := VendorRoot(projectRoot);
    var repo := RepoOf(args[0]);
    var dst := Target(projectRoot, args[0]);
    assert |PathJoin(projectRoot, "src")| >= 3;
    assert dst == v + "/" + repo;
    assert VendorDir(projectRoot, other) == v + "/" + other;
    assert (v + "/" + other)[|v| + 1..] == other && dst[|v| + 1..] == repo;
    if v + "/" + other != dst {
      assert (v + "/") + other == v + "/" + other;
      assert (v + "/") + (repo + "/") == dst + "/";
      PrefixCancel(v + "/", other, repo + "/");
    }
    assert !InSubtree(v, dst) by {
      assert |v| < |dst|;
    }
  }

  /** A first argument that names no repository, the empty string, removes the whole vendor
      directory. */
  lemma EmptyNameRemovesVendor(t: Fs, args: seq<string>, projectRoot: Path)
    requires args != [] && args[0] == "" && VendorRoot(projectRoot) !in t.broken
    ensures VendorRoot(projectRoot) !in RemoveSpec(t, args, projectRoot).0.nodes
  {
    assert Target(projectRoot, args[0]) == VendorRoot(projectRoot);
  }
}
