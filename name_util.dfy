/** util/util.go: NormalizeName, which splits an import path into the repository it lives in and
    the sub-package inside that repository. */
module NameUtil {
  import opened Strings

  /** GoGetSources: the hosts whose repositories sit at a fixed depth, with that depth. */
  const GoGetSources: map<string, nat> := map[
    "github.com" := 3,
    "golang.org" := 3,
    "code.google.com" := 3,
    "code.gitea.io" := 2,
    "gopkg.in" := 2,
    "bitbucket.org" := 3
  ]

  /** The name is split: its first segment is a known host and it has more segments than that
      host's depth. */
  predicate IsSplit(name: string) {
    var parts := Split(name, '/');
    parts[0] in GoGetSources && |parts| > GoGetSources[parts[0]]
  }

  /** NormalizeName(name) = (parent, sub). The split always keeps three segments as the parent,
      whatever the host's depth. */
  function NormalizeName(name: string): (r: (string, string))
    ensures name == "" ==> r == ("", "")
    ensures !IsSplit(name) ==> r == (name, "")
  {
    if |name| <= 0 then ("", "")
    else
      var parts := Split(name, '/');
      if parts[0] in GoGetSources && |parts| > GoGetSources[parts[0]] then
        (Join(parts[..3], '/'), Join(parts[3..], '/'))
      else (name, "")
  }

  /** In the split case the parent is exactly the first three segments of the name, and the
      parent, a '/' and the sub-package give back the name (the sub-package is empty, and the
      parent the whole name, when there are only three segments). */
  lemma {:induction false} NormalizeSplits(name: string)
    requires IsSplit(name)
    ensures Split(NormalizeName(name).0, '/') == Split(name, '/')[..3]
    ensures |Split(name, '/')| == 3 ==> NormalizeName(name) == (name, "")
    ensures |Split(name, '/')| > 3 ==> NormalizeName(name).0 + "/" + NormalizeName(name).1 == name
  {
    var parts := Split(name, '/');
    JoinSplit(name, '/');
    assert |parts| >= 3;
    SplitJoin(parts[..3], '/');
    if |parts| == 3 {
      assert parts[..3] == parts;
    } else {
      JoinAppend(parts[..3], parts[3..], '/');
      assert parts[..3] + parts[3..] == parts;
    }
  }

  /** The split keeps the host: the name and its parent both begin with the host segment and a
      '/', and every host of the table is at least eight characters long. */
  lemma NormalizeKeepsHost(name: string)
    requires IsSplit(name)
    ensures var host := Split(name, '/')[0];
            && |host| >= 8
            && HasPrefix(name, host + "/")
            && HasPrefix(NormalizeName(name).0, host + "/")
  {
    var parts := Split(name, '/');
    var host := parts[0];
    JoinSplit(name, '/');
    assert |parts| >= 3;
    assert Join(parts, '/') == host + ['/'] + Join(parts[1..], '/');
    assert parts[..3][0] == host;
    assert Join(parts[..3], '/') == host + ['/'] + Join(parts[..3][1..], '/');
    assert "/" == ['/'];
  }

  /** The parent is a fixed point: normalizing it gives it back with no sub-package. */
  lemma NormalizeIdempotent(name: string)
    ensures NormalizeName(NormalizeName(name).0) == (NormalizeName(name).0, "")
  {
    if name != "" && IsSplit(name) {
      var parts := Split(name, '/');
      var parent := NormalizeName(name).0;
      NormalizeSplits(name);
      var q := Split(parent, '/');
      assert q == parts[..3];
      assert q[0] == parts[0];
      if IsSplit(parent) {
        assert |q| == 3;
        NormalizeSplits(parent);
      }
    }
  }

  /** The depth table does not matter once the name is split: a "gopkg.in" path (depth 2) of four
      segments keeps three of them as its parent. */
  lemma GopkgKeepsThree(a: string, b: string, c: string)
    requires '/' !in a && '/' !in b && '/' !in c
    ensures NormalizeName("gopkg.in/" + a + "/" + b + "/" + c) == ("gopkg.in/" + a + "/" + b, c)
  {
    var host := "gopkg.in";
    var parts := [host, a, b, c];
    assert '/' !in host;
    SplitJoin(parts, '/');
    assert "/" == ['/'];
    assert parts[1..] == [a, b, c] && parts[1..][1..] == [b, c] && parts[1..][1..][1..] == [c];
    assert Join([b, c], '/') == b + "/" + c;
    assert Join([a, b, c], '/') == a + "/" + (b + "/" + c);
    assert Join(parts, '/') == host + "/" + (a + "/" + (b + "/" + c));
    assert host + "/" + (a + "/" + (b + "/" + c)) == "gopkg.in/" + a + "/" + b + "/" + c;
    assert parts[..3] == [host, a, b];
    assert [host, a, b][1..] == [a, b] && [a, b][1..] == [b];
    assert Join([a, b], '/') == a + "/" + b;
    assert Join(parts[..3], '/') == host + "/" + (a + "/" + b);
    assert host + "/" + (a + "/" + b) == "gopkg.in/" + a + "/" + b;
    assert parts[3..] == [c];
  }
}
