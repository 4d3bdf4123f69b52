/** cmd/util.go: existence checks, the depth-first directory listing, the filtered directory copy
    and the Windows home-directory lookup. cmd/ensure.go carries verbatim copies of IsDir, IsExist,
    statDir, StatDir and CopyDir, and cmd/status.go one of isDirExist; they are modelled once, here. */
module CmdUtil {
  import opened Wrappers
  import opened Strings
  import opened Files

  /** isDirExist: a missing path is (false, nil), a directory (true, nil), anything else an error. */
  function IsDirExist(t: Fs, p: Path): (r: Result<bool>)
    ensures r == Ok(true) <==> Stat(t, p) == IsDirectory
    ensures r == Ok(false) <==> Stat(t, p) == Missing
    ensures r == Err(SameNameFile(p)) <==> Stat(t, p) == IsFile
    ensures r.Err? && r.error != SameNameFile(p) ==> r.error == StatFailed(p) && Stat(t, p) == Unreadable
  {
    match Stat(t, p)
    case Unreadable => Err(StatFailed(p))
    case Missing => Ok(false)
    case IsFile => Err(SameNameFile(p))
    case IsDirectory => Ok(true)
  }

  /** isFileExist mirrors isDirExist with the roles of files and directories swapped. */
  function IsFileExist(t: Fs, p: Path): (r: Result<bool>)
    ensures r == Ok(true) <==> Stat(t, p) == IsFile
    ensures r == Ok(false) <==> Stat(t, p) == Missing
    ensures r == Err(SameNameDir(p)) <==> Stat(t, p) == IsDirectory
    ensures r.Err? && r.error != SameNameDir(p) ==> r.error == StatFailed(p) && Stat(t, p) == Unreadable
  {
    match Stat(t, p)
    case Unreadable => Err(StatFailed(p))
    case Missing => Ok(false)
    case IsFile => Ok(true)
    case IsDirectory => Err(SameNameDir(p))
  }

  /** IsDir: false for a file, a missing path, or a path whose stat fails. */
  predicate IsDir(t: Fs, p: Path) {
    Stat(t, p) == IsDirectory
  }

  /** IsExist: a stat error other than "does not exist" counts as absent too. */
  predicate IsExist(t: Fs, p: Path) {
    Stat(t, p) == IsFile || Stat(t, p) == IsDirectory
  }

  // ---------------------------------------------------------------------------
  // statDir / StatDir

  /** The directories at least as long as d: the measure of the descent below d. */
  ghost function Deeper(t: Fs, d: Path): set<Path> {
    set q | q in t.nodes && |q| >= |d|
  }

  lemma DeeperShrinks(t: Fs, d: Path, c: Path)
    requires d in t.nodes && |c| > |d|
    ensures Deeper(t, c) < Deeper(t, d)
  {
    assert d in Deeper(t, d) && d !in Deeper(t, c);
  }

  /** statDir(dirPath, recPath, includeDir, isDirOnly): the depth-first listing of dirPath, with
      entry paths relative to recPath; directories are listed as "rel/" before their contents. */
  function Listing(t: Fs, dirPath: Path, recPath: string, includeDir: bool, isDirOnly: bool): Result<seq<string>>
    decreases Deeper(t, dirPath), 2
  {
    if dirPath in t.broken || !IsDirNode(t, dirPath) then Err(StatFailed(dirPath))
    else ListEntries(t, dirPath, recPath, t.nodes[dirPath].names, includeDir, isDirOnly)
  }

  /** The listing of the entries `names` of directory dirPath, in order. */
  function ListEntries(t: Fs, dirPath: Path, recPath: string, names: seq<string>,
                       includeDir: bool, isDirOnly: bool): Result<seq<string>>
    requires IsDirNode(t, dirPath)
    decreases Deeper(t, dirPath), 1, |names|
  {
    if names == [] then Ok([])
    else match EntryListing(t, dirPath, recPath, names[0], includeDir, isDirOnly)
      case Err(e) => Err(e)
      case Ok(s) => Then(s, ListEntries(t, dirPath, recPath, names[1..], includeDir, isDirOnly))
  }

  /** What one entry `name` of directory dirPath contributes: nothing for a ".DS_Store" name,
      "rel/" (when directories are included) followed by the subdirectory's own listing, or "rel"
      for a file (unless only directories are wanted). */
  function EntryListing(t: Fs, dirPath: Path, recPath: string, name: string,
                        includeDir: bool, isDirOnly: bool): Result<seq<string>>
    requires IsDirNode(t, dirPath)
    decreases Deeper(t, dirPath), 0
  {
    if Contains(name, ".DS_Store") then Ok([])
    else
      var relPath := PathJoin(recPath, name);
      var curPath := dirPath + "/" + name;
      if IsDirNode(t, curPath) then
        DeeperShrinks(t, dirPath, curPath);
        Then(if includeDir then [relPath + "/"] else [], Listing(t, curPath, relPath, includeDir, isDirOnly))
      else if !isDirOnly then Ok([relPath])
      else Ok([])
  }

  /** StatDir(rootPath, includeDir): an error unless the root is a directory, else its listing. */
  function StatDirSpec(t: Fs, rootPath: Path, includeDir: bool): (r: Result<seq<string>>)
    ensures !IsDir(t, rootPath) ==> r == Err(NotADirectory(rootPath))
  {
    if !IsDir(t, rootPath) then Err(NotADirectory(rootPath))
    else Listing(t, rootPath, "", includeDir, false)
  }

  /** statDir, as the recursive loop the source runs. */
  method ListDir(fs: FileSystem, dirPath: Path, recPath: string, includeDir: bool, isDirOnly: bool)
    returns (r: Result<seq<string>>)
    ensures r == Listing(fs.tree, dirPath, recPath, includeDir, isDirOnly)
    decreases Deeper(fs.tree, dirPath)
  {
    var t := fs.tree;
    if dirPath in t.broken || !IsDirNode(t, dirPath) {
      return Err(StatFailed(dirPath));
    }
    var names := t.nodes[dirPath].names;
    var statList: seq<string> := [];
    var i := 0;
    assert names[0..] == names;
    assert Listing(t, dirPath, recPath, includeDir, isDirOnly) == ListEntries(t, dirPath, recPath, names, includeDir, isDirOnly);
    ThenEmpty(ListEntries(t, dirPath, recPath, names, includeDir, isDirOnly));
    while i < |names|
      invariant 0 <= i <= |names|
      invariant Listing(t, dirPath, recPath, includeDir, isDirOnly)
             == Then(statList, ListEntries(t, dirPath, recPath, names[i..], includeDir, isDirOnly))
    {
      var name := names[i];
      assert names[i..][1..] == names[i + 1..];
      var entry: seq<string> := [];
      if !Contains(name, ".DS_Store") {
        var relPath := PathJoin(recPath, name);
        var curPath := dirPath + "/" + name;
        if IsDirNode(t, curPath) {
          if includeDir {
            entry := [relPath + "/"];
          }
          DeeperShrinks(t, dirPath, curPath);
          var s := ListDir(fs, curPath, relPath, includeDir, isDirOnly);
          if s.Err? {
            return Err(s.error);
          }
          entry := entry + s.value;
        } else if !isDirOnly {
          entry := [relPath];
        }
      }
      assert EntryListing(t, dirPath, recPath, name, includeDir, isDirOnly) == Ok(entry);
      ThenThen(statList, entry, ListEntries(t, dirPath, recPath, names[i + 1..], includeDir, isDirOnly));
      statList := statList + entry;
      i := i + 1;
    }
    assert statList + [] == statList;
    return Ok(statList);
  }

  /** StatDir: gathers the listing of a directory depth-first, or fails on a non-directory. */
  method StatDir(fs: FileSystem, rootPath: Path, includeDir: bool) returns (r: Result<seq<string>>)
    ensures r == StatDirSpec(fs.tree, rootPath, includeDir)
  {
    if !IsDir(fs.tree, rootPath) {
      return Err(NotADirectory(rootPath));
    }
    r := ListDir(fs, rootPath, "", includeDir, false);
  }

  /** No path component of rel contains ".DS_Store". */
  predicate AvoidsDsStore(rel: string) {
    forall k :: 0 <= k < |Split(rel, '/')| ==> !Contains(Split(rel, '/')[k], ".DS_Store")
  }

  /** Every directory entry name is non-empty and holds no '/', as on a real disk. */
  ghost predicate NamesWellFormed(t: Fs) {
    forall d, k :: d in t.nodes && t.nodes[d].Dir? && 0 <= k < |t.nodes[d].names| ==>
      t.nodes[d].names[k] != "" && '/' !in t.nodes[d].names[k]
  }

  /** entry is the listing of rel (relative to dirPath), recorded relative to recPath: "rel/" for a
      directory when directories are included, "rel" for anything else unless only directories
      are wanted. */
  ghost predicate ListedAs(t: Fs, dirPath: Path, recPath: string, includeDir: bool, isDirOnly: bool,
                           entry: string, rel: string) {
    && rel != ""
    && AvoidsDsStore(rel)
    && ((includeDir && IsDirNode(t, dirPath + "/" + rel) && entry == PathJoin(recPath, rel) + "/")
        || (!isDirOnly && !IsDirNode(t, dirPath + "/" + rel) && entry == PathJoin(recPath, rel)))
  }

  ghost predicate Listed(t: Fs, dirPath: Path, recPath: string, includeDir: bool, isDirOnly: bool, entry: string) {
    exists rel :: ListedAs(t, dirPath, recPath, includeDir, isDirOnly, entry, rel)
  }

  ghost predicate AllListed(t: Fs, dirPath: Path, recPath: string, includeDir: bool, isDirOnly: bool,
                            s: seq<string>) {
    forall k :: 0 <= k < |s| ==> Listed(t, dirPath, recPath, includeDir, isDirOnly, s[k])
  }

  /** Every listed path names a node below the listed directory, relative to recPath, with the
      trailing '/' exactly on directories, and reached through no ".DS_Store" entry. */
  lemma {:induction false} ListingShape(t: Fs, dirPath: Path, recPath: string, includeDir: bool, isDirOnly: bool)
    requires NamesWellFormed(t)
    ensures Listing(t, dirPath, recPath, includeDir, isDirOnly).Ok? ==>
              AllListed(t, dirPath, recPath, includeDir, isDirOnly, Listing(t, dirPath, recPath, includeDir, isDirOnly).value)
    decreases Deeper(t, dirPath), 2
  {
    if !(dirPath in t.broken || !IsDirNode(t, dirPath)) {
      EntriesShape(t, dirPath, recPath, t.nodes[dirPath].names, includeDir, isDirOnly);
    }
  }

  lemma {:induction false} EntriesShape(t: Fs, dirPath: Path, recPath: string, names: seq<string>,
                                        includeDir: bool, isDirOnly: bool)
    requires NamesWellFormed(t) && IsDirNode(t, dirPath)
    requires forall k :: 0 <= k < |names| ==> names[k] != "" && '/' !in names[k]
    ensures ListEntries(t, dirPath, recPath, names, includeDir, isDirOnly).Ok? ==>
              AllListed(t, dirPath, recPath, includeDir, isDirOnly, ListEntries(t, dirPath, recPath, names, includeDir, isDirOnly).value)
    decreases Deeper(t, dirPath), 1, |names|
  {
    if names != [] {
      var here := EntryListing(t, dirPath, recPath, names[0], includeDir, isDirOnly);
      var rest := ListEntries(t, dirPath, recPath, names[1..], includeDir, isDirOnly);
      EntryShape(t, dirPath, recPath, names[0], includeDir, isDirOnly);
      EntriesShape(t, dirPath, recPath, names[1..], includeDir, isDirOnly);
      if here.Ok? && rest.Ok? {
        assert ListEntries(t, dirPath, recPath, names, includeDir, isDirOnly) == Ok(here.value + rest.value);
        AllListedAppend(t, dirPath, recPath, includeDir, isDirOnly, here.value, rest.value);
      }
    }
  }

  lemma AllListedAppend(t: Fs, dirPath: Path, recPath: string, includeDir: bool, isDirOnly: bool,
                        a: seq<string>, b: seq<string>)
    requires AllListed(t, dirPath, recPath, includeDir, isDirOnly, a)
    requires AllListed(t, dirPath, recPath, includeDir, isDirOnly, b)
    ensures AllListed(t, dirPath, recPath, includeDir, isDirOnly, a + b)
  {
    forall k | 0 <= k < |a + b|
      ensures Listed(t, dirPath, recPath, includeDir, isDirOnly, (a + b)[k])
    {
      if k < |a| {
        assert (a + b)[k] == a[k];
      } else {
        assert (a + b)[k] == b[k - |a|];
      }
    }
  }

  lemma {:induction false} EntryShape(t: Fs, dirPath: Path, recPath: string, name: string,
                                      includeDir: bool, isDirOnly: bool)
    requires NamesWellFormed(t) && IsDirNode(t, dirPath)
    requires name != "" && '/' !in name
    ensures EntryListing(t, dirPath, recPath, name, includeDir, isDirOnly).Ok? ==>
              AllListed(t, dirPath, recPath, includeDir, isDirOnly, EntryListing(t, dirPath, recPath, name, includeDir, isDirOnly).value)
    decreases Deeper(t, dirPath), 0
  {
    if !Contains(name, ".DS_Store") {
      var relPath := PathJoin(recPath, name);
      var curPath := dirPath + "/" + name;
      SplitNoSep(name, '/');
      assert AvoidsDsStore(name);
      if IsDirNode(t, curPath) {
        DeeperShrinks(t, dirPath, curPath);
        var sub := Listing(t, curPath, relPath, includeDir, isDirOnly);
        ListingShape(t, curPath, relPath, includeDir, isDirOnly);
        if sub.Ok? {
          var head := if includeDir then [relPath + "/"] else [];
          var s := head + sub.value;
          assert EntryListing(t, dirPath, recPath, name, includeDir, isDirOnly) == Ok(s);
          forall k | 0 <= k < |s|
            ensures Listed(t, dirPath, recPath, includeDir, isDirOnly, s[k])
          {
            if k < |head| {
              assert ListedAs(t, dirPath, recPath, includeDir, isDirOnly, s[k], name);
            } else {
              var e := sub.value[k - |head|];
              assert s[k] == e;
              assert Listed(t, curPath, relPath, includeDir, isDirOnly, e);
              var rel2 :| ListedAs(t, curPath, relPath, includeDir, isDirOnly, e, rel2);
              var rel := name + "/" + rel2;
              NestedRel(recPath, name, rel2);
              assert dirPath + "/" + rel == curPath + "/" + rel2;
              assert ListedAs(t, dirPath, recPath, includeDir, isDirOnly, s[k], rel);
            }
          }
        }
      } else if !isDirOnly {
        assert ListedAs(t, dirPath, recPath, includeDir, isDirOnly, relPath, name);
        assert EntryListing(t, dirPath, recPath, name, includeDir, isDirOnly) == Ok([relPath]);
      }
    }
  }

  /** A path below a separator-free entry name is joined on the way down. */
  lemma NestedRel(recPath: string, name: string, rel2: string)
    requires name != "" && '/' !in name && rel2 != "" && AvoidsDsStore(rel2) && AvoidsDsStore(name)
    ensures PathJoin(PathJoin(recPath, name), rel2) == PathJoin(recPath, name + "/" + rel2)
    ensures AvoidsDsStore(name + "/" + rel2)
  {
    SplitCons(name, '/', rel2);
    assert name + "/" + rel2 == name + ['/'] + rel2;
    SplitNoSep(name, '/');
  }

  /** rel names a node below dirPath through the directory listings: an entry of dirPath, or an
      entry of dirPath that is a directory, followed by '/' and a path reached below it. */
  ghost predicate Reached(t: Fs, dirPath: Path, rel: string)
    decreases |rel|
  {
    IsDirNode(t, dirPath) &&
    exists k :: 0 <= k < |t.nodes[dirPath].names| &&
      var name := t.nodes[dirPath].names[k];
      rel == name ||
      (|name| + 1 < |rel| && rel[..|name| + 1] == name + "/" && Reached(t, dirPath + "/" + name, rel[|name| + 1..]))
  }

  /** A reached path is not empty and does not end in '/'. */
  lemma {:induction false} ReachedShape(t: Fs, dirPath: Path, rel: string)
    requires NamesWellFormed(t) && Reached(t, dirPath, rel)
    ensures rel != "" && !HasSuffix(rel, "/")
    decreases |rel|
  {
    var names := t.nodes[dirPath].names;
    var k :| 0 <= k < |names| && (rel == names[k] ||
      (|names[k]| + 1 < |rel| && rel[..|names[k]| + 1] == names[k] + "/" &&
       Reached(t, dirPath + "/" + names[k], rel[|names[k]| + 1..])));
    var name := names[k];
    if rel != name {
      var rel2 := rel[|name| + 1..];
      ReachedShape(t, dirPath + "/" + name, rel2);
      assert rel[|rel| - 1] == rel2[|rel2| - 1];
    } else {
      assert rel[|rel| - 1] in name;
    }
  }

  /** Whatever the listing of the entries holds, the whole listing holds too. */
  lemma {:induction false} EntryInEntries(t: Fs, dirPath: Path, recPath: string, names: seq<string>, k: nat,
                                          includeDir: bool, isDirOnly: bool)
    requires IsDirNode(t, dirPath) && k < |names|
    requires ListEntries(t, dirPath, recPath, names, includeDir, isDirOnly).Ok?
    ensures EntryListing(t, dirPath, recPath, names[k], includeDir, isDirOnly).Ok?
    ensures forall x :: x in EntryListing(t, dirPath, recPath, names[k], includeDir, isDirOnly).value ==>
              x in ListEntries(t, dirPath, recPath, names, includeDir, isDirOnly).value
    decreases k
  {
    var all := ListEntries(t, dirPath, recPath, names, includeDir, isDirOnly);
    var here := EntryListing(t, dirPath, recPath, names[0], includeDir, isDirOnly);
    var rest := ListEntries(t, dirPath, recPath, names[1..], includeDir, isDirOnly);
    assert here.Ok? && rest.Ok? && all.value == here.value + rest.value;
    if k > 0 {
      EntryInEntries(t, dirPath, recPath, names[1..], k - 1, includeDir, isDirOnly);
      assert names[1..][k - 1] == names[k];
    }
  }

  /** The components of name/rel2 are name and those of rel2. */
  lemma AvoidsDsStoreCons(name: string, rel2: string)
    requires name != "" && '/' !in name
    ensures AvoidsDsStore(name + "/" + rel2) <==> !Contains(name, ".DS_Store") && AvoidsDsStore(rel2)
  {
    SplitCons(name, '/', rel2);
    assert name + "/" + rel2 == name + ['/'] + rel2;
    var parts := Split(name + "/" + rel2, '/');
    var tail := Split(rel2, '/');
    assert parts == [name] + tail;
    if AvoidsDsStore(name + "/" + rel2) {
      assert parts[0] == name;
      forall k | 0 <= k < |tail|
        ensures !Contains(tail[k], ".DS_Store")
      {
        assert tail[k] == parts[k + 1];
      }
    }
    if !Contains(name, ".DS_Store") && AvoidsDsStore(rel2) {
      forall k | 0 <= k < |parts|
        ensures !Contains(parts[k], ".DS_Store")
      {
        if k > 0 {
          assert parts[k] == tail[k - 1];
        }
      }
    }
  }

  /** statDir misses nothing: every node reached below dirPath through no ".DS_Store" component
      is listed, as "rel/" when it is a directory and directories are included, and as "rel" when
      it is not a directory and files are wanted. */
  lemma {:induction false} ListingComplete(t: Fs, dirPath: Path, recPath: string, includeDir: bool,
                                           isDirOnly: bool, rel: string)
    requires NamesWellFormed(t)
    requires Reached(t, dirPath, rel) && AvoidsDsStore(rel)
    requires Listing(t, dirPath, recPath, includeDir, isDirOnly).Ok?
    ensures var listing := Listing(t, dirPath, recPath, includeDir, isDirOnly).value;
      (includeDir && IsDirNode(t, dirPath + "/" + rel) ==> PathJoin(recPath, rel) + "/" in listing) &&
      (!isDirOnly && !IsDirNode(t, dirPath + "/" + rel) ==> PathJoin(recPath, rel) in listing)
    decreases Deeper(t, dirPath), 1
  {
    var k := ReachedEntry(t, dirPath, rel);
    var name := t.nodes[dirPath].names[k];
    if rel == name {
      ListedHere(t, dirPath, recPath, includeDir, isDirOnly, k);
    } else {
      var rel2 := rel[|name| + 1..];
      AvoidsDsStoreCons(name, rel2);
      ListingCompleteBelow(t, dirPath, recPath, includeDir, isDirOnly, k, rel2);
    }
  }

  /** The entry of dirPath through which a reached path goes. */
  lemma ReachedEntry(t: Fs, dirPath: Path, rel: string) returns (k: nat)
    requires NamesWellFormed(t) && Reached(t, dirPath, rel)
    ensures IsDirNode(t, dirPath) && k < |t.nodes[dirPath].names|
    ensures var name := t.nodes[dirPath].names[k];
      name != "" && '/' !in name &&
      (rel == name ||
       (|name| + 1 < |rel| && rel == name + "/" + rel[|name| + 1..] &&
        Reached(t, dirPath + "/" + name, rel[|name| + 1..])))
  {
    var names := t.nodes[dirPath].names;
    k :| 0 <= k < |names| && (rel == names[k] ||
      (|names[k]| + 1 < |rel| && rel[..|names[k]| + 1] == names[k] + "/" &&
       Reached(t, dirPath + "/" + names[k], rel[|names[k]| + 1..])));
    var name := names[k];
    if rel != name {
      assert rel == rel[..|name| + 1] + rel[|name| + 1..];
    }
  }

  /** ListingComplete for a path rel2 reached below the k-th entry of dirPath. */
  lemma {:induction false} ListingCompleteBelow(t: Fs, dirPath: Path, recPath: string, includeDir: bool,
                                                isDirOnly: bool, k: nat, rel2: string)
    requires NamesWellFormed(t) && IsDirNode(t, dirPath) && k < |t.nodes[dirPath].names|
    requires var name := t.nodes[dirPath].names[k];
      !Contains(name, ".DS_Store") && Reached(t, dirPath + "/" + name, rel2) && AvoidsDsStore(rel2)
    requires Listing(t, dirPath, recPath, includeDir, isDirOnly).Ok?
    ensures var listing := Listing(t, dirPath, recPath, includeDir, isDirOnly).value;
      var rel := t.nodes[dirPath].names[k] + "/" + rel2;
      (includeDir && IsDirNode(t, dirPath + "/" + rel) ==> PathJoin(recPath, rel) + "/" in listing) &&
      (!isDirOnly && !IsDirNode(t, dirPath + "/" + rel) ==> PathJoin(recPath, rel) in listing)
    decreases Deeper(t, dirPath), 0
  {
    var name := t.nodes[dirPath].names[k];
    var curPath := dirPath + "/" + name;
    DeeperShrinks(t, dirPath, curPath);
    ReachedShape(t, curPath, rel2);
    SubListingOk(t, dirPath, recPath, includeDir, isDirOnly, k);
    ListingComplete(t, curPath, PathJoin(recPath, name), includeDir, isDirOnly, rel2);
    ListedBelow(t, dirPath, recPath, includeDir, isDirOnly, k, rel2);
  }

  /** The case of ListingComplete where rel is the k-th entry of dirPath itself. */
  lemma ListedHere(t: Fs, dirPath: Path, recPath: string, includeDir: bool, isDirOnly: bool, k: nat)
    requires IsDirNode(t, dirPath) && k < |t.nodes[dirPath].names|
    requires var name := t.nodes[dirPath].names[k]; name != "" && '/' !in name && AvoidsDsStore(name)
    requires Listing(t, dirPath, recPath, includeDir, isDirOnly).Ok?
    ensures var listing := Listing(t, dirPath, recPath, includeDir, isDirOnly).value;
      var name := t.nodes[dirPath].names[k];
      (includeDir && IsDirNode(t, dirPath + "/" + name) ==> PathJoin(recPath, name) + "/" in listing) &&
      (!isDirOnly && !IsDirNode(t, dirPath + "/" + name) ==> PathJoin(recPath, name) in listing)
  {
    var names := t.nodes[dirPath].names;
    var name := names[k];
    SplitNoSep(name, '/');
    assert Split(name, '/')[0] == name;
    EntryInEntries(t, dirPath, recPath, names, k, includeDir, isDirOnly);
    EntryListsItself(t, dirPath, recPath, name, includeDir, isDirOnly);
  }

  /** A listing that succeeds has succeeded on every directory entry below it. */
  lemma SubListingOk(t: Fs, dirPath: Path, recPath: string, includeDir: bool, isDirOnly: bool, k: nat)
    requires IsDirNode(t, dirPath) && k < |t.nodes[dirPath].names|
    requires var name := t.nodes[dirPath].names[k];
      !Contains(name, ".DS_Store") && IsDirNode(t, dirPath + "/" + name)
    requires Listing(t, dirPath, recPath, includeDir, isDirOnly).Ok?
    ensures Listing(t, dirPath + "/" + t.nodes[dirPath].names[k], PathJoin(recPath, t.nodes[dirPath].names[k]),
                    includeDir, isDirOnly).Ok?
  {
    EntryInEntries(t, dirPath, recPath, t.nodes[dirPath].names, k, includeDir, isDirOnly);
    EntryListsBelow(t, dirPath, recPath, t.nodes[dirPath].names[k], includeDir, isDirOnly);
  }

  /** The case of ListingComplete where rel is rel2 below the k-th entry of dirPath: what the
      entry's own listing holds, the whole listing holds, joined below the entry. */
  lemma ListedBelow(t: Fs, dirPath: Path, recPath: string, includeDir: bool, isDirOnly: bool, k: nat, rel2: string)
    requires IsDirNode(t, dirPath) && k < |t.nodes[dirPath].names|
    requires var name := t.nodes[dirPath].names[k];
      name != "" && '/' !in name && !Contains(name, ".DS_Store") && rel2 != "" && AvoidsDsStore(rel2) &&
      IsDirNode(t, dirPath + "/" + name)
    requires Listing(t, dirPath, recPath, includeDir, isDirOnly).Ok?
    requires Listing(t, dirPath + "/" + t.nodes[dirPath].names[k], PathJoin(recPath, t.nodes[dirPath].names[k]),
                     includeDir, isDirOnly).Ok?
    requires var name := t.nodes[dirPath].names[k];
      var sub := Listing(t, dirPath + "/" + name, PathJoin(recPath, name), includeDir, isDirOnly).value;
      var cur := dirPath + "/" + name;
      (includeDir && IsDirNode(t, cur + "/" + rel2) ==> PathJoin(PathJoin(recPath, name), rel2) + "/" in sub) &&
      (!isDirOnly && !IsDirNode(t, cur + "/" + rel2) ==> PathJoin(PathJoin(recPath, name), rel2) in sub)
    ensures var listing := Listing(t, dirPath, recPath, includeDir, isDirOnly).value;
      var name := t.nodes[dirPath].names[k];
      var rel := name + "/" + rel2;
      (includeDir && IsDirNode(t, dirPath + "/" + rel) ==> PathJoin(recPath, rel) + "/" in listing) &&
      (!isDirOnly && !IsDirNode(t, dirPath + "/" + rel) ==> PathJoin(recPath, rel) in listing)
  {
    var name := t.nodes[dirPath].names[k];
    EntryInEntries(t, dirPath, recPath, t.nodes[dirPath].names, k, includeDir, isDirOnly);
    EntryListsBelow(t, dirPath, recPath, name, includeDir, isDirOnly);
    SplitNoSep(name, '/');
    NestedRel(recPath, name, rel2);
    assert (dirPath + "/" + name) + "/" + rel2 == dirPath + "/" + (name + "/" + rel2);
  }

  /** An entry that is not a ".DS_Store" name is listed itself, as "rel/" or as "rel". */
  lemma EntryListsItself(t: Fs, dirPath: Path, recPath: string, name: string, includeDir: bool, isDirOnly: bool)
    requires IsDirNode(t, dirPath) && !Contains(name, ".DS_Store")
    requires EntryListing(t, dirPath, recPath, name, includeDir, isDirOnly).Ok?
    ensures var entry := EntryListing(t, dirPath, recPath, name, includeDir, isDirOnly).value;
      (includeDir && IsDirNode(t, dirPath + "/" + name) ==> PathJoin(recPath, name) + "/" in entry) &&
      (!isDirOnly && !IsDirNode(t, dirPath + "/" + name) ==> PathJoin(recPath, name) in entry)
  {
    var entry := EntryListing(t, dirPath, recPath, name, includeDir, isDirOnly).value;
    if includeDir && IsDirNode(t, dirPath + "/" + name) {
      assert entry[0] == PathJoin(recPath, name) + "/";
    }
  }

  /** A directory entry that is not a ".DS_Store" name lists the directory's own listing. */
  lemma EntryListsBelow(t: Fs, dirPath: Path, recPath: string, name: string, includeDir: bool, isDirOnly: bool)
    requires IsDirNode(t, dirPath) && !Contains(name, ".DS_Store") && IsDirNode(t, dirPath + "/" + name)
    requires EntryListing(t, dirPath, recPath, name, includeDir, isDirOnly).Ok?
    ensures Listing(t, dirPath + "/" + name, PathJoin(recPath, name), includeDir, isDirOnly).Ok?
    ensures forall x :: x in Listing(t, dirPath + "/" + name, PathJoin(recPath, name), includeDir, isDirOnly).value ==>
              x in EntryListing(t, dirPath, recPath, name, includeDir, isDirOnly).value
  {
  }

  // ---------------------------------------------------------------------------
  // CopyDir

  /** The destination of one listed entry: a "rel/" entry names the directory rel. */
  function EntryTarget(root: Path, info: string): Path {
    if HasSuffix(info, "/") then PathJoin(root, info[..|info| - 1]) else PathJoin(root, info)
  }

  /** The copy loop of CopyDir over the listed entries, stopping at the first failure. */
  function CopyEntries(t: Fs, src: Path, dst: Path, infos: seq<string>, filter: string -> bool): (r: (Fs, Option<Error>))
    decreases |infos|
  {
    if infos == [] then (t, None)
    else if filter(infos[0]) then CopyEntries(t, src, dst, infos[1..], filter)
    else
      var info := infos[0];
      var (t1, e) :=
        if HasSuffix(info, "/") then AfterMkdirAll(t, EntryTarget(dst, info))
        else AfterCopy(t, PathJoin(src, info), PathJoin(dst, info));
      if e.Some? then (t1, e)
      else CopyEntries(t1, src, dst, infos[1..], filter)
  }

  /** CopyDir(srcPath, destPath, filter): refuses an existing destination; otherwise creates it,
      lists the source and copies every entry the filter keeps. */
  function CopyDirSpec(t: Fs, src: Path, dst: Path, filter: string -> bool): (r: (Fs, Option<Error>))
    ensures IsExist(t, dst) ==> r == (t, Some(AlreadyExists(dst)))
  {
    if IsExist(t, dst) then (t, Some(AlreadyExists(dst)))
    else
      var (t1, e1) := AfterMkdirAll(t, dst);
      if e1.Some? then (t1, e1)
      else match StatDirSpec(t1, src, true)
        case Err(e) => (t1, Some(e))
        case Ok(infos) => CopyEntries(t1, src, dst, infos, filter)
  }

  method CopyDir(fs: FileSystem, src: Path, dst: Path, filter: string -> bool) returns (err: Option<Error>)
    modifies fs
    ensures (fs.tree, err) == CopyDirSpec(old(fs.tree), src, dst, filter)
  {
    if IsExist(fs.tree, dst) {
      return Some(AlreadyExists(dst));
    }
    err := fs.MkdirAll(dst);
    if err.Some? {
      return;
    }
    var infos := StatDir(fs, src, true);
    if infos.Err? {
      return Some(infos.error);
    }
    var list := infos.value;
    var i := 0;
    while i < |list|
      invariant 0 <= i <= |list|
      invariant CopyEntries(fs.tree, src, dst, list[i..], filter) == CopyDirSpec(old(fs.tree), src, dst, filter)
    {
      var info := list[i];
      assert list[i..][1..] == list[i + 1..];
      if !filter(info) {
        var e;
        if HasSuffix(info, "/") {
          e := fs.MkdirAll(EntryTarget(dst, info));
        } else {
          e := fs.Copy(PathJoin(src, info), PathJoin(dst, info));
        }
        if e.Some? {
          return e;
        }
      }
      i := i + 1;
    }
    return None;
  }

  /** The filter add and ensure copy packages with: it drops every listed path that begins with
      ".git". */
  const GitFilter: string -> bool := path => HasPrefix(path, ".git")

  /** CopyDir only ever adds to the file system, whether it succeeds or not. */
  lemma CopyDirGrows(t: Fs, src: Path, dst: Path, filter: string -> bool)
    ensures Grows(t, CopyDirSpec(t, src, dst, filter).0)
  {
    if !IsExist(t, dst) {
      var (t1, e1) := AfterMkdirAll(t, dst);
      MkdirAllGrows(t, dst);
      if e1.None? {
        CopyDirLeavesDestination(t, src, dst, filter);
      }
    }
  }

  /** The entries a filter keeps, in order. */
  function Kept(infos: seq<string>, filter: string -> bool): (r: seq<string>)
    ensures forall k :: 0 <= k < |r| ==> !filter(r[k]) && r[k] in infos
  {
    if infos == [] then []
    else if filter(infos[0]) then Kept(infos[1..], filter)
    else [infos[0]] + Kept(infos[1..], filter)
  }

  /** The filter acts on each listed path independently: copying with it is copying the kept
      entries with no filter at all. */
  lemma {:induction false} FilterIsPerEntry(t: Fs, src: Path, dst: Path, infos: seq<string>, filter: string -> bool)
    ensures CopyEntries(t, src, dst, infos, filter) == CopyEntries(t, src, dst, Kept(infos, filter), _ => false)
    decreases |infos|
  {
    if infos != [] {
      if filter(infos[0]) {
        FilterIsPerEntry(t, src, dst, infos[1..], filter);
      } else {
        var info := infos[0];
        var r := if HasSuffix(info, "/") then AfterMkdirAll(t, EntryTarget(dst, info))
                 else AfterCopy(t, PathJoin(src, info), PathJoin(dst, info));
        FilterIsPerEntry(r.0, src, dst, infos[1..], filter);
        assert Kept(infos, filter)[1..] == Kept(infos[1..], filter);
      }
    }
  }

  /** The entry info was copied to its place below dst: a "rel/" entry as a directory, any other
      entry as a file. */
  ghost predicate CopiedAs(r: Fs, dst: Path, info: string) {
    EntryTarget(dst, info) in r.nodes && (r.nodes[EntryTarget(dst, info)].Dir? <==> HasSuffix(info, "/"))
  }

  /** Copying never removes anything: a failure keeps the copies made before it. When the copy
      loop succeeds, every kept entry is at its destination with its kind. */
  lemma {:induction false} CopyEntriesGrows(t: Fs, src: Path, dst: Path, infos: seq<string>, filter: string -> bool)
    ensures Grows(t, CopyEntries(t, src, dst, infos, filter).0)
    ensures CopyEntries(t, src, dst, infos, filter).1.None? ==>
              forall k :: 0 <= k < |infos| && !filter(infos[k]) ==>
                CopiedAs(CopyEntries(t, src, dst, infos, filter).0, dst, infos[k])
    decreases |infos|
  {
    if infos != [] {
      var r := CopyEntries(t, src, dst, infos, filter);
      if filter(infos[0]) {
        CopyEntriesGrows(t, src, dst, infos[1..], filter);
        assert forall k :: 1 <= k < |infos| ==> infos[k] == infos[1..][k - 1];
      } else {
        var info := infos[0];
        var step := if HasSuffix(info, "/") then AfterMkdirAll(t, EntryTarget(dst, info))
                    else AfterCopy(t, PathJoin(src, info), PathJoin(dst, info));
        if HasSuffix(info, "/") {
          MkdirAllGrows(t, EntryTarget(dst, info));
        } else {
          CopyGrows(t, PathJoin(src, info), PathJoin(dst, info));
        }
        if step.1.None? {
          CopyEntriesGrows(step.0, src, dst, infos[1..], filter);
          GrowsTransitive(t, step.0, r.0);
          assert CopiedAs(step.0, dst, info);
          assert forall k :: 1 <= k < |infos| ==> infos[k] == infos[1..][k - 1];
        }
      }
    }
  }

  /** The copy loop creates nothing but the kept entries' targets and the directories above
      them. */
  lemma {:induction false} CopyEntriesOnlyTargets(t: Fs, src: Path, dst: Path, infos: seq<string>, filter: string -> bool)
    ensures forall q :: q in CopyEntries(t, src, dst, infos, filter).0.nodes && q !in t.nodes ==>
              exists k :: 0 <= k < |infos| && !filter(infos[k]) && InSubtree(EntryTarget(dst, infos[k]), q)
    decreases |infos|
  {
    if infos != [] {
      var r := CopyEntries(t, src, dst, infos, filter);
      if filter(infos[0]) {
        CopyEntriesOnlyTargets(t, src, dst, infos[1..], filter);
        forall q | q in r.0.nodes && q !in t.nodes
          ensures exists k :: 0 <= k < |infos| && !filter(infos[k]) && InSubtree(EntryTarget(dst, infos[k]), q)
        {
          var k :| 0 <= k < |infos[1..]| && !filter(infos[1..][k]) && InSubtree(EntryTarget(dst, infos[1..][k]), q);
          assert infos[1..][k] == infos[k + 1];
        }
      } else {
        var info := infos[0];
        var step := if HasSuffix(info, "/") then AfterMkdirAll(t, EntryTarget(dst, info))
                    else AfterCopy(t, PathJoin(src, info), PathJoin(dst, info));
        if HasSuffix(info, "/") {
          MkdirAllGrows(t, EntryTarget(dst, info));
        } else {
          CopyGrows(t, PathJoin(src, info), PathJoin(dst, info));
        }
        assert forall q :: q in step.0.nodes && q !in t.nodes ==> InSubtree(EntryTarget(dst, info), q);
        if step.1.None? {
          CopyEntriesOnlyTargets(step.0, src, dst, infos[1..], filter);
          forall q | q in r.0.nodes && q !in t.nodes
            ensures exists k :: 0 <= k < |infos| && !filter(infos[k]) && InSubtree(EntryTarget(dst, infos[k]), q)
          {
            if q !in step.0.nodes {
              var k :| 0 <= k < |infos[1..]| && !filter(infos[1..][k]) && InSubtree(EntryTarget(dst, infos[1..][k]), q);
              assert infos[1..][k] == infos[k + 1];
            } else {
              assert InSubtree(EntryTarget(dst, infos[0]), q);
            }
          }
        }
      }
    }
  }

  /** Whatever happens after the destination is created, it is left behind as a directory; so a
      missing or unreadable source yields an error and an empty destination directory. */
  lemma CopyDirLeavesDestination(t: Fs, src: Path, dst: Path, filter: string -> bool)
    requires !IsExist(t, dst) && AfterMkdirAll(t, dst).1.None?
    ensures IsDirNode(CopyDirSpec(t, src, dst, filter).0, dst)
    ensures Grows(t, CopyDirSpec(t, src, dst, filter).0)
  {
    var t1 := AfterMkdirAll(t, dst).0;
    MkdirAllGrows(t, dst);
    var listing := StatDirSpec(t1, src, true);
    if listing.Ok? {
      CopyEntriesGrows(t1, src, dst, listing.value, filter);
      GrowsTransitive(t, t1, CopyDirSpec(t, src, dst, filter).0);
    }
  }

  /** A successful copy creates the destination and every entry of the source listing that the
      filter keeps, each with its kind, and nothing else but the directories above them. */
  lemma CopyDirComplete(t: Fs, src: Path, dst: Path, filter: string -> bool)
    requires CopyDirSpec(t, src, dst, filter).1.None?
    ensures !IsExist(t, dst)
    ensures IsDirNode(CopyDirSpec(t, src, dst, filter).0, dst)
    ensures StatDirSpec(AfterMkdirAll(t, dst).0, src, true).Ok?
    ensures forall info | info in StatDirSpec(AfterMkdirAll(t, dst).0, src, true).value && !filter(info) ::
              CopiedAs(CopyDirSpec(t, src, dst, filter).0, dst, info)
    ensures forall q | q in CopyDirSpec(t, src, dst, filter).0.nodes && q !in t.nodes ::
              InSubtree(dst, q) ||
              exists info :: info in StatDirSpec(AfterMkdirAll(t, dst).0, src, true).value && !filter(info) &&
                             InSubtree(EntryTarget(dst, info), q)
  {
    CopyDirLeavesDestination(t, src, dst, filter);
    MkdirAllGrows(t, dst);
    var t1 := AfterMkdirAll(t, dst).0;
    var infos := StatDirSpec(t1, src, true).value;
    CopyEntriesGrows(t1, src, dst, infos, filter);
    CopyEntriesOnlyTargets(t1, src, dst, infos, filter);
    var r := CopyDirSpec(t, src, dst, filter).0;
    forall info | info in infos && !filter(info)
      ensures CopiedAs(r, dst, info)
    {
      var k :| 0 <= k < |infos| && infos[k] == info;
    }
    forall q | q in r.nodes && q !in t.nodes && !InSubtree(dst, q)
      ensures exists info :: info in infos && !filter(info) && InSubtree(EntryTarget(dst, info), q)
    {
      var k :| 0 <= k < |infos| && !filter(infos[k]) && InSubtree(EntryTarget(dst, infos[k]), q);
      assert infos[k] in infos;
    }
  }

  /** A successful copy reproduces the source tree: every node reached below src through no
      ".DS_Store" component, whose entry the filter keeps, is at the same place below dst with the
      same kind. t1 is the disk once dst is made, which is t itself unless dst lies inside src. */
  lemma CopyDirReproduces(t: Fs, src: Path, dst: Path, filter: string -> bool, t1: Fs, rel: string)
    requires CopyDirSpec(t, src, dst, filter).1.None?
    requires t1 == AfterMkdirAll(t, dst).0 && NamesWellFormed(t1)
    requires Reached(t1, src, rel) && AvoidsDsStore(rel)
    ensures var r := CopyDirSpec(t, src, dst, filter).0;
      (IsDirNode(t1, src + "/" + rel) && !filter(rel + "/") ==> IsDirNode(r, PathJoin(dst, rel))) &&
      (!IsDirNode(t1, src + "/" + rel) && !filter(rel) ==> PathJoin(dst, rel) in r.nodes && r.nodes[PathJoin(dst, rel)] == File)
  {
    CopyDirComplete(t, src, dst, filter);
    ReachedShape(t1, src, rel);
    ListingComplete(t1, src, "", true, false, rel);
    var r := CopyDirSpec(t, src, dst, filter).0;
    assert HasSuffix(rel + "/", "/") && (rel + "/")[..|rel|] == rel;
    assert EntryTarget(dst, rel + "/") == PathJoin(dst, rel);
    assert EntryTarget(dst, rel) == PathJoin(dst, rel);
  }

  /** A node lies in the subtree of q only if q is a prefix of it. */
  lemma SubtreePrefix(x: Path, q: Path)
    requires InSubtree(x, q)
    ensures |q| <= |x| && x[..|q|] == q
  {
    if x != q {
      assert x[..|q| + 1][..|q|] == q;
    }
  }

  /** A path strictly below p is not at or above p. */
  lemma SubtreeBelow(q: Path, p: Path)
    requires InSubtree(q, p) && q != p
    ensures !InSubtree(p, q)
  {
    assert |q| > |p|;
  }

  /** Below the same directory, a path at or under one that starts with ".git" starts with
      ".git" itself. */
  lemma JoinUnderGit(dst: Path, a: string, b: string)
    requires a != "" && |b| >= 4 && b[..4] == ".git"
    ensures InSubtree(PathJoin(dst, a), PathJoin(dst, b)) ==> |a| >= 4 && a[..4] == ".git"
  {
    var pre := if dst == "" then "" else dst + "/";
    var q := PathJoin(dst, b);
    var x := PathJoin(dst, a);
    assert q == pre + b && x == pre + a;
    if InSubtree(x, q) {
      SubtreePrefix(x, q);
      forall k | 0 <= k < 4
        ensures a[k] == b[k]
      {
        assert a[k] == x[|pre| + k] == q[|pre| + k] == b[k];
      }
      assert a[..4] == b[..4];
    }
  }

  /** A directory is never at or under a path joined below it. */
  lemma DstAboveJoin(dst: Path, b: string)
    requires b != ""
    ensures !InSubtree(dst, PathJoin(dst, b))
  {
    assert |PathJoin(dst, b)| > |dst|;
  }

  /** The directory named by an entry, without the '/' a directory entry ends in. */
  function Stem(info: string): (r: string)
    ensures |info| - 1 <= |r| <= |info| && r == info[..|r|]
  {
    if HasSuffix(info, "/") then info[..|info| - 1] else info
  }

  /** No kept entry's target, and not dst either, lies at or below a ".git" entry's target. */
  lemma EntryPrefix(dst: Path, info: string, g: string)
    requires HasPrefix(g, ".git") && !HasPrefix(info, ".git")
    ensures !InSubtree(EntryTarget(dst, info), EntryTarget(dst, g))
    ensures !InSubtree(dst, EntryTarget(dst, g))
  {
    assert g[3] == 't';
    assert |Stem(g)| >= 4;
    assert Stem(g)[..4] == g[..4];
    assert EntryTarget(dst, g) == PathJoin(dst, Stem(g));
    assert EntryTarget(dst, info) == PathJoin(dst, Stem(info));
    DstAboveJoin(dst, Stem(g));
    if Stem(info) != "" {
      assert |Stem(info)| >= 4 ==> Stem(info)[..4] == info[..4];
      JoinUnderGit(dst, Stem(info), Stem(g));
    } else {
      assert PathJoin(dst, Stem(info)) == dst;
    }
  }

  /** A copy with the ".git" filter creates nothing at a ".git" entry's place: a ".git" path that
      was not below dst before is not there after. */
  lemma CopyDirSkipsGit(t: Fs, src: Path, dst: Path, g: string)
    requires HasPrefix(g, ".git")
    requires CopyDirSpec(t, src, dst, GitFilter).1.None?
    requires EntryTarget(dst, g) !in t.nodes
    ensures EntryTarget(dst, g) !in CopyDirSpec(t, src, dst, GitFilter).0.nodes
  {
    CopyDirComplete(t, src, dst, GitFilter);
    var q := EntryTarget(dst, g);
    var infos := StatDirSpec(AfterMkdirAll(t, dst).0, src, true).value;
    forall info | info in infos && !GitFilter(info)
      ensures !InSubtree(EntryTarget(dst, info), q)
    {
      EntryPrefix(dst, info, g);
    }
    EntryPrefix(dst, "", g);
  }

  // ---------------------------------------------------------------------------

  /** homeWindows over the values of HOME, HOMEDRIVE, HOMEPATH and USERPROFILE. */
  function HomeWindows(home: string, drive: string, path: string, userProfile: string): (r: Result<string>)
    ensures r.Ok? ==> r.value != ""
    ensures home != "" ==> r == Ok(home)
    ensures home == "" && drive != "" && path != "" ==> r == Ok(drive + path)
    ensures home == "" && (drive == "" || path == "") && userProfile != "" ==> r == Ok(userProfile)
    ensures r.Err? <==> home == "" && (drive == "" || path == "") && userProfile == ""
  {
    if home != "" then Ok(home)
    else
      var h := if drive == "" || path == "" then userProfile else drive + path;
      if h == "" then Err(HomeBlank) else Ok(h)
  }
}
