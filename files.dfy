/** The file system the commands work on, as a value, and the os primitives that change it.

    A path names at most one node. A directory node lists the names of its entries in the order
    a directory read returns them. `broken` holds the paths whose stat, open or create fails with
    an error other than "does not exist" (a permission error, say). A path without '/' sits at
    the top level and is listed in no directory. */
module Files {
  import opened Wrappers
  import opened Strings

  type Path = string

  datatype Node = File | Dir(names: seq<string>)

  datatype Fs = Fs(nodes: map<Path, Node>, broken: set<Path>)

  /** What os.Stat reports about a path. */
  datatype StatInfo = Missing | IsFile | IsDirectory | Unreadable

  function Stat(t: Fs, p: Path): (s: StatInfo)
    ensures s == IsDirectory <==> p !in t.broken && p in t.nodes && t.nodes[p].Dir?
    ensures s == Missing <==> p !in t.broken && p !in t.nodes
  {
    if p in t.broken then Unreadable
    else if p !in t.nodes then Missing
    else if t.nodes[p].Dir? then IsDirectory
    else IsFile
  }

  /** The directory part of a path (filepath.Dir without cleaning); "" at the top level. */
  function Parent(p: Path): (r: Path)
    ensures |r| < |p| || (r == "" && p == "")
  {
    var i := LastIndexOf(p, '/');
    if i < 0 then "" else p[..i]
  }

  /** A path lies below its non-empty parent. */
  lemma ParentAbove(p: Path)
    requires Parent(p) != ""
    ensures HasPrefix(p, Parent(p) + "/")
  {
    var i := LastIndexOf(p, '/');
    assert p[..i + 1] == p[..i] + "/";
  }

  /** The last element of a path. */
  function Base(p: Path): string
  {
    var i := LastIndexOf(p, '/');
    p[i + 1..]
  }

  /** filepath.Join(root, "src", name). */
  function SrcDir(root: Path, name: string): Path {
    PathJoin(PathJoin(root, "src"), name)
  }

  /** filepath.Join(root, "src", "vendor", name). */
  function VendorDir(root: Path, name: string): Path {
    PathJoin(PathJoin(PathJoin(root, "src"), "vendor"), name)
  }

  predicate IsDirNode(t: Fs, p: Path) {
    p in t.nodes && t.nodes[p].Dir?
  }

  /** Creates node p; a new entry is also appended to its parent directory's listing. */
  function Attach(t: Fs, p: Path, node: Node): (r: Fs)
    ensures r.broken == t.broken
    ensures r.nodes.Keys == t.nodes.Keys + {p}
    ensures r.nodes[p] == node
  {
    var nodes := t.nodes[p := node];
    var parent := Parent(p);
    if p !in t.nodes && parent != p && IsDirNode(t, parent) then
      Fs(nodes[parent := Dir(t.nodes[parent].names + [Base(p)])], t.broken)
    else
      Fs(nodes, t.broken)
  }

  /** Attaching a node changes the kind of no other node. */
  lemma AttachKeepsKinds(t: Fs, p: Path, node: Node)
    ensures forall q :: q in t.nodes && q != p ==> Attach(t, p, node).nodes[q].Dir? == t.nodes[q].Dir?
  {
  }

  /** t2 keeps every node of t1 with its kind, and the same unreadable paths. */
  ghost predicate Grows(t1: Fs, t2: Fs) {
    t2.broken == t1.broken && KindsKept(t1.nodes, t2.nodes)
  }

  /** n2 holds every path of n1, as a directory exactly when n1 has one there. */
  ghost predicate KindsKept(n1: map<Path, Node>, n2: map<Path, Node>) {
    forall q :: q in n1 ==> q in n2 && n2[q].Dir? == n1[q].Dir?
  }

  lemma GrowsTransitive(t1: Fs, t2: Fs, t3: Fs)
    requires Grows(t1, t2) && Grows(t2, t3)
    ensures Grows(t1, t3)
  {
  }

  /** os.MkdirAll: creates the missing directories on the way to p, outermost first. A failure
      leaves the directories already created in place. */
  function AfterMkdirAll(t: Fs, p: Path): (r: (Fs, Option<Error>))
    decreases |p|
  {
    if p in t.broken then (t, Some(MkdirFailed(p)))
    else if p in t.nodes then (t, if t.nodes[p].Dir? then None else Some(MkdirFailed(p)))
    else
      var parent := Parent(p);
      var (t1, e) := if parent == "" then (t, None) else AfterMkdirAll(t, parent);
      if e.Some? then (t1, e)
      else (Attach(t1, p, Dir([])), None)
  }

  /** MkdirAll only adds, only p and directories above it, and when it succeeds p is a directory. */
  lemma {:induction false} MkdirAllGrows(t: Fs, p: Path)
    ensures Grows(t, AfterMkdirAll(t, p).0)
    ensures forall q :: q in AfterMkdirAll(t, p).0.nodes && q !in t.nodes ==> InSubtree(p, q)
    ensures AfterMkdirAll(t, p).1.None? ==> IsDirNode(AfterMkdirAll(t, p).0, p)
    ensures AfterMkdirAll(t, p).1.None? <==> p !in t.broken && (p in t.nodes ==> t.nodes[p].Dir?) &&
                                             (p !in t.nodes && Parent(p) != "" ==> AfterMkdirAll(t, Parent(p)).1.None?)
    decreases |p|
  {
    if p !in t.broken && p !in t.nodes {
      var parent := Parent(p);
      if parent != "" {
        MkdirAllGrows(t, parent);
        AboveParent(p);
        var t1 := AfterMkdirAll(t, parent).0;
        if AfterMkdirAll(t, parent).1.None? {
          AttachKeepsKinds(t1, p, Dir([]));
          GrowsTransitive(t, t1, Attach(t1, p, Dir([])));
        }
      } else {
        AttachKeepsKinds(t, p, Dir([]));
      }
    }
  }

  /** What lies at or above the parent of p lies at or above p. */
  lemma AboveParent(p: Path)
    requires Parent(p) != ""
    ensures forall q :: InSubtree(Parent(p), q) ==> InSubtree(p, q)
  {
    var parent := Parent(p);
    ParentAbove(p);
    forall q | InSubtree(parent, q)
      ensures InSubtree(p, q)
    {
      if q != parent {
        assert p[..|q| + 1] == parent[..|q| + 1];
      }
    }
  }

  /** Copy of one file: the content is abstract, only the new node is recorded. */
  function AfterCopy(t: Fs, src: Path, dst: Path): (r: (Fs, Option<Error>))
  {
    if src in t.broken || src !in t.nodes || t.nodes[src].Dir? then (t, Some(CopyFailed(src)))
    else if dst in t.broken || IsDirNode(t, dst) then (t, Some(CopyFailed(dst)))
    else if Parent(dst) != "" && !IsDirNode(t, Parent(dst)) then (t, Some(CopyFailed(dst)))
    else (Attach(t, dst, File), None)
  }

  lemma CopyGrows(t: Fs, src: Path, dst: Path)
    ensures Grows(t, AfterCopy(t, src, dst).0)
    ensures AfterCopy(t, src, dst).1.None? ==> dst in AfterCopy(t, src, dst).0.nodes && AfterCopy(t, src, dst).0.nodes[dst] == File
    ensures forall q :: q in AfterCopy(t, src, dst).0.nodes && q !in t.nodes ==> q == dst
  {
  }

  /** The nodes at or below p. */
  predicate InSubtree(q: Path, p: Path) {
    q == p || HasPrefix(q, p + "/")
  }

  function RemoveName(names: seq<string>, name: string): (r: seq<string>)
    ensures forall k :: 0 <= k < |r| ==> r[k] != name
  {
    if names == [] then []
    else if names[0] == name then RemoveName(names[1..], name)
    else [names[0]] + RemoveName(names[1..], name)
  }

  /** os.RemoveAll: p and everything below it disappear, and p leaves its parent's listing. A
      missing path is not an error, and callers ignore the error of an unreadable one. */
  function AfterRemoveAll(t: Fs, p: Path): (r: Fs)
    ensures r.broken == t.broken
  {
    if p == "" || p in t.broken then t
    else
      var kept := map q | q in t.nodes && !InSubtree(q, p) :: t.nodes[q];
      var parent := Parent(p);
      if p in t.nodes && parent in kept && kept[parent].Dir? then
        Fs(kept[parent := Dir(RemoveName(kept[parent].names, Base(p)))], t.broken)
      else
        Fs(kept, t.broken)
  }

  /** RemoveAll empties the subtree at p, unless p is unreadable, and keeps everything else
      with its kind. */
  lemma RemoveAllEffects(t: Fs, p: Path)
    ensures var r := AfterRemoveAll(t, p);
      && (p != "" && p !in t.broken ==> forall q :: InSubtree(q, p) ==> q !in r.nodes)
      && (forall q :: q in t.nodes && !InSubtree(q, p) ==> q in r.nodes && r.nodes[q].Dir? == t.nodes[q].Dir?)
      && (forall q :: q in r.nodes ==> q in t.nodes)
  {
  }

  /** The disk, whose contents the commands change in place. */
  class FileSystem {
    var tree: Fs

    constructor (t: Fs)
      ensures tree == t
    {
      tree := t;
    }

    method MkdirAll(p: Path) returns (err: Option<Error>)
      modifies this
      ensures (tree, err) == AfterMkdirAll(old(tree), p)
    {
      var r := AfterMkdirAll(tree, p);
      tree := r.0;
      err := r.1;
    }

    method Copy(src: Path, dst: Path) returns (err: Option<Error>)
      modifies this
      ensures (tree, err) == AfterCopy(old(tree), src, dst)
    {
      var r := AfterCopy(tree, src, dst);
      tree := r.0;
      err := r.1;
    }

    method RemoveAll(p: Path)
      modifies this
      ensures tree == AfterRemoveAll(old(tree), p)
    {
      tree := AfterRemoveAll(tree, p);
    }
  }
}
