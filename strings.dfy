/** The pieces of Go's strings, path and path/filepath packages that the commands rely on. */
module Strings {

  predicate HasPrefix(s: string, prefix: string) {
    |prefix| <= |s| && s[..|prefix|] == prefix
  }

  predicate HasSuffix(s: string, suffix: string) {
    |suffix| <= |s| && s[|s| - |suffix|..] == suffix
  }

  /** strings.Contains: sub occurs at some position of s. */
  predicate Contains(s: string, sub: string)
    decreases |s|
  {
    HasPrefix(s, sub) || (|s| > 0 && Contains(s[1..], sub))
  }

  /** strings.LastIndex for a one-character separator: -1 when absent. */
  function LastIndexOf(s: string, c: char): (i: int)
    ensures -1 <= i < |s|
    ensures i >= 0 ==> s[i] == c && forall k :: i < k < |s| ==> s[k] != c
    ensures i < 0 ==> forall k :: 0 <= k < |s| ==> s[k] != c
  {
    if |s| == 0 then -1
    else if s[|s| - 1] == c then |s| - 1
    else LastIndexOf(s[..|s| - 1], c)
  }

  /** path.Join / filepath.Join of two elements: an empty element contributes nothing.
      (Lexical cleaning of "." and ".." elements is not modelled.) */
  function PathJoin(a: string, b: string): (r: string)
    ensures a != "" && b != "" ==> r == a + "/" + b
    ensures a == "" ==> r == b
    ensures b == "" ==> r == a
  {
    if a == "" then b else if b == "" then a else a + "/" + b
  }

  /** filepath.IsAbs on a Unix host. */
  predicate IsAbs(p: string) {
    HasPrefix(p, "/")
  }

  /** filepath.Ext: the suffix from the last '.' of the final path element, or "". */
  function Ext(p: string): (r: string)
    ensures r == "" || (r[0] == '.' && HasSuffix(p, r))
  {
    ExtIn(p, |p|)
  }

  function ExtIn(p: string, n: nat): (r: string)
    requires n <= |p|
    ensures r == "" || (r[0] == '.' && HasSuffix(p, r))
  {
    if n == 0 || p[n - 1] == '/' then ""
    else if p[n - 1] == '.' then p[n - 1..]
    else ExtIn(p, n - 1)
  }

  // ---------------------------------------------------------------------------
  // strings.Split and strings.Join with a one-character separator

  /** strings.Split(s, sep): the pieces between separators, at least one. */
  function Split(s: string, sep: char): (r: seq<string>)
    ensures |r| >= 1
    ensures forall k :: 0 <= k < |r| ==> sep !in r[k]
  {
    if |s| == 0 then [""]
    else
      var rest := Split(s[1..], sep);
      if s[0] == sep then [""] + rest
      else [[s[0]] + rest[0]] + rest[1..]
  }

  /** strings.Join(parts, sep). */
  function Join(parts: seq<string>, sep: char): string
  {
    if |parts| == 0 then ""
    else if |parts| == 1 then parts[0]
    else parts[0] + [sep] + Join(parts[1..], sep)
  }

  /** Joining the pieces of a split gives back the string. */
  lemma {:induction false} JoinSplit(s: string, sep: char)
    ensures Join(Split(s, sep), sep) == s
  {
    if |s| > 0 {
      var rest := Split(s[1..], sep);
      JoinSplit(s[1..], sep);
      if s[0] == sep {
        assert Split(s, sep) == [""] + rest;
        assert [s[0]] + s[1..] == s;
      } else {
        var r := Split(s, sep);
        assert r == [[s[0]] + rest[0]] + rest[1..];
        if |rest| == 1 {
          assert Join(rest, sep) == rest[0];
        } else {
          assert Join(rest, sep) == rest[0] + [sep] + Join(rest[1..], sep);
          assert r[1..] == rest[1..];
        }
        assert [s[0]] + s[1..] == s;
      }
    }
  }

  /** Splitting a separator-free string gives the string alone. */
  lemma {:induction false} SplitNoSep(a: string, sep: char)
    requires sep !in a
    ensures Split(a, sep) == [a]
  {
    if |a| > 0 {
      SplitNoSep(a[1..], sep);
      assert [a[0]] + a[1..] == a;
    }
  }

  /** A separator-free head is split off as the first piece. */
  lemma {:induction false} SplitCons(a: string, sep: char, b: string)
    requires sep !in a
    ensures Split(a + [sep] + b, sep) == [a] + Split(b, sep)
  {
    if |a| == 0 {
      assert a + [sep] + b == [sep] + b;
      assert ([sep] + b)[1..] == b;
    } else {
      SplitCons(a[1..], sep, b);
      assert (a + [sep] + b)[1..] == a[1..] + [sep] + b;
      assert [a[0]] + a[1..] == a;
    }
  }

  /** Splitting a join of separator-free pieces gives back the pieces. */
  lemma {:induction false} SplitJoin(parts: seq<string>, sep: char)
    requires |parts| >= 1
    requires forall k :: 0 <= k < |parts| ==> sep !in parts[k]
    ensures Split(Join(parts, sep), sep) == parts
  {
    if |parts| == 1 {
      SplitNoSep(parts[0], sep);
    } else {
      SplitJoin(parts[1..], sep);
      SplitCons(parts[0], sep, Join(parts[1..], sep));
      assert [parts[0]] + parts[1..] == parts;
    }
  }

  /** Joining two non-empty runs of pieces puts one separator between their joins. */
  lemma {:induction false} JoinAppend(a: seq<string>, b: seq<string>, sep: char)
    requires |a| >= 1 && |b| >= 1
    ensures Join(a + b, sep) == Join(a, sep) + [sep] + Join(b, sep)
  {
    if |a| == 1 {
      assert (a + b)[1..] == b;
    } else {
      JoinAppend(a[1..], b, sep);
      assert (a + b)[1..] == a[1..] + b;
    }
  }

  // ---------------------------------------------------------------------------
  // The prefix closure used for the standard-library membership set

  /** The paths the init loops record for p: p, then p cut at its last '/', and so on. */
  function SlashPrefixes(p: string): set<string>
    decreases |p|
  {
    var i := LastIndexOf(p, '/');
    if i < 0 then {p} else {p} + SlashPrefixes(p[..i])
  }

  /** q is p cut just before one of its '/' characters. */
  ghost predicate IsCutAtSlash(q: string, p: string) {
    exists i :: 0 <= i < |p| && p[i] == '/' && q == p[..i]
  }

  /** The closure of p is exactly p and every cut of p at a '/'. */
  lemma {:induction false} SlashPrefixesExactly(p: string, q: string)
    ensures q in SlashPrefixes(p) <==> q == p || IsCutAtSlash(q, p)
    decreases |p|
  {
    var i := LastIndexOf(p, '/');
    if i >= 0 {
      var pre := p[..i];
      SlashPrefixesExactly(pre, q);
      if IsCutAtSlash(q, pre) {
        var j :| 0 <= j < |pre| && pre[j] == '/' && q == pre[..j];
        assert p[j] == '/' && q == p[..j];
      }
      if IsCutAtSlash(q, p) && q != pre {
        var j :| 0 <= j < |p| && p[j] == '/' && q == p[..j];
        assert j < i;
        assert pre[j] == '/' && q == pre[..j];
      }
      if q == pre {
        assert p[i] == '/';
      }
    }
  }
}
