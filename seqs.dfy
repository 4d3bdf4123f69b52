/** The "first occurrence wins" de-duplication the commands apply to an import listing: the loop
    over imports[i] skips a name when some imports[j] with j < i equals it. */
module Seqs {

  /** The elements of s[i..] that do not occur before their own position, in order. */
  function FirstOccurrences<T(==)>(s: seq<T>, i: nat): seq<T>
    requires i <= |s|
    decreases |s| - i
  {
    if i == |s| then []
    else (if s[i] in s[..i] then [] else [s[i]]) + FirstOccurrences(s, i + 1)
  }

  function Dedup<T(==)>(s: seq<T>): seq<T> {
    FirstOccurrences(s, 0)
  }

  predicate Distinct<T(==)>(s: seq<T>) {
    forall a, b :: 0 <= a < b < |s| ==> s[a] != s[b]
  }

  /** The first occurrences from position i are distinct, and are exactly the elements of s[i..]
      that s[..i] does not already hold. */
  lemma {:induction false} FirstOccurrencesExactly<T>(s: seq<T>, i: nat)
    requires i <= |s|
    ensures Distinct(FirstOccurrences(s, i))
    ensures forall x :: x in FirstOccurrences(s, i) <==> x in s[i..] && x !in s[..i]
    decreases |s| - i
  {
    if i < |s| {
      FirstOccurrencesExactly(s, i + 1);
      assert s[..i + 1] == s[..i] + [s[i]];
      assert s[i..] == [s[i]] + s[i + 1..];
      var rest := FirstOccurrences(s, i + 1);
      var r := FirstOccurrences(s, i);
      if s[i] !in s[..i] {
        assert r == [s[i]] + rest;
        forall a, b | 0 <= a < b < |r|
          ensures r[a] != r[b]
        {
          if a == 0 {
            assert r[b] == rest[b - 1] && rest[b - 1] in rest;
            assert s[i] in s[..i + 1];
          } else {
            assert r[a] == rest[a - 1] && r[b] == rest[b - 1];
          }
        }
      } else {
        assert r == rest;
      }
    }
  }

  /** Dedup keeps every element once. */
  lemma DedupExactly<T>(s: seq<T>)
    ensures Distinct(Dedup(s))
    ensures forall x :: x in Dedup(s) <==> x in s
  {
    FirstOccurrencesExactly(s, 0);
    assert s[0..] == s;
  }

  /** Cutting s around position i. */
  lemma CutAt<T>(s: seq<T>, i: nat)
    requires i < |s|
    ensures s[..i + 1] == s[..i] + [s[i]]
    ensures s[i..] == [s[i]] + s[i + 1..]
  {
  }

  /** The inner loop of the commands' de-duplication: whether s[i] already occurs in s[..i]. */
  method SeenBefore<T(==)>(s: seq<T>, i: nat) returns (has: bool)
    requires i < |s|
    ensures has <==> s[i] in s[..i]
  {
    has := false;
    var j := 0;
    while j < i
      invariant 0 <= j <= i
      invariant has <==> s[i] in s[..j]
    {
      assert s[..j + 1] == s[..j] + [s[j]];
      if s[j] == s[i] {
        has := true;
        assert s[i] in s[..j + 1];
        assert s[..j + 1] + s[j + 1..i] == s[..i];
        break;
      }
      j := j + 1;
    }
    assert j == i ==> s[..j] == s[..i];
  }

  // ---------------------------------------------------------------------------
  // Positions and removals, as the commands' argument rewriting uses them

  /** The index of the first x in s, or -1. */
  function FirstIndex<T(==)>(s: seq<T>, x: T): (i: int)
    ensures -1 <= i < |s|
    ensures i >= 0 ==> s[i] == x && x !in s[..i]
    ensures i < 0 <==> x !in s
  {
    if s == [] then -1
    else if s[0] == x then 0
    else
      var j := FirstIndex(s[1..], x);
      assert j >= 0 ==> s[..j + 1] == [s[0]] + s[1..][..j];
      assert s == [s[0]] + s[1..];
      if j < 0 then -1 else j + 1
  }

  /** An x with no x before it is the first one. */
  lemma FirstIndexAt<T>(s: seq<T>, k: nat, x: T)
    requires k < |s| && s[k] == x && x !in s[..k]
    ensures FirstIndex(s, x) == k
  {
    assert s[k] in s;
  }

  /** The index of the last x in s, or -1. */
  function LastIndex<T(==)>(s: seq<T>, x: T): (i: int)
    ensures -1 <= i < |s|
    ensures i >= 0 ==> s[i] == x && x !in s[i + 1..]
    ensures i < 0 <==> x !in s
  {
    if s == [] then -1
    else if s[|s| - 1] == x then |s| - 1
    else
      var j := LastIndex(s[..|s| - 1], x);
      assert s == s[..|s| - 1] + [s[|s| - 1]];
      assert j >= 0 ==> s[j + 1..] == s[..|s| - 1][j + 1..] + [s[|s| - 1]];
      j
  }

  /** s without the element at index i; s itself when i is not an index of s. */
  function Del<T>(s: seq<T>, i: int): (r: seq<T>)
    ensures 0 <= i < |s| ==> |r| == |s| - 1
    ensures !(0 <= i < |s|) ==> r == s
  {
    if 0 <= i < |s| then s[..i] + s[i + 1..] else s
  }

  /** The elements of s whose indices are neither a nor b, in order. */
  function Omit<T>(s: seq<T>, a: int, b: int): seq<T>
  {
    if s == [] then []
    else Omit(s[..|s| - 1], a, b) + (if |s| - 1 == a || |s| - 1 == b then [] else [s[|s| - 1]])
  }

  lemma DelSnoc<T>(s: seq<T>, x: T, i: int)
    requires i != |s|
    ensures Del(s + [x], i) == Del(s, i) + [x]
  {
    if 0 <= i < |s| {
      assert (s + [x])[..i] == s[..i];
      assert (s + [x])[i + 1..] == s[i + 1..] + [x];
    }
  }

  /** Omitting two distinct positions is deleting the later one, then the earlier one. */
  lemma {:induction false} OmitIsDel<T>(s: seq<T>, a: int, b: int)
    requires a != b || a < 0
    ensures Omit(s, a, b) == Del(Del(s, if a < b then b else a), if a < b then a else b)
    decreases |s|
  {
    var hi := if a < b then b else a;
    var lo := if a < b then a else b;
    if s != [] {
      var init := s[..|s| - 1];
      var last := s[|s| - 1];
      assert s == init + [last];
      OmitIsDel(init, a, b);
      if |s| - 1 == a || |s| - 1 == b {
        if hi == |s| - 1 {
          assert Del(s, hi) == init;
        } else {
          assert lo == |s| - 1 && hi >= |s|;
          assert Del(s, hi) == s;
          assert Del(init, hi) == init;
        }
      } else {
        DelSnoc(init, last, hi);
        DelSnoc(Del(init, hi), last, lo);
      }
    }
  }

  /** Deleting at i and then at j - 1 removes the same two elements as deleting at j and then
      at i, for i < j. */
  lemma DelTwice<T>(s: seq<T>, i: int, j: int)
    requires 0 <= i < j < |s|
    ensures Del(Del(s, i), j - 1) == Del(Del(s, j), i) == s[..i] + s[i + 1..j] + s[j + 1..]
  {
    var d := Del(s, i);
    assert d[..j - 1] == s[..i] + s[i + 1..j];
    assert d[j..] == s[j + 1..];
    var e := Del(s, j);
    assert e[..i] == s[..i];
    assert e[i + 1..] == s[i + 1..j] + s[j + 1..];
  }

  /** Every element at a position other than a and b is kept. */
  lemma {:induction false} OmitKeeps<T>(s: seq<T>, a: int, b: int, k: nat)
    requires k < |s| && k != a && k != b
    ensures s[k] in Omit(s, a, b)
    decreases |s|
  {
    var init := s[..|s| - 1];
    if k < |s| - 1 {
      OmitKeeps(init, a, b, k);
      assert init[k] == s[k];
    }
  }

  /** Appending one element moves the last index only when that element is the one sought. */
  lemma LastIndexSnoc<T>(s: seq<T>, y: T, x: T)
    ensures LastIndex(s + [y], x) == if y == x then |s| else LastIndex(s, x)
  {
    assert (s + [y])[..|s|] == s;
  }
}
