/** The struct-backed settings: the mapping from a Go field name to its snake-cased key segment
    (DefaultEditor to default_editor), and the empty-key guard of the reflective Get. A name is a
    sequence of runes. */
module Config {
  import opened Strings

  predicate IsUpper(c: char) {
    'A' <= c <= 'Z'
  }

  /** chr -= 'A' - 'a' for an ASCII capital; every other rune is kept. */
  function ToLower(c: char): (r: char)
    ensures !IsUpper(r)
    ensures !IsUpper(c) ==> r == c
  {
    if IsUpper(c) then (c as int + 32) as char else c
  }

  /** What the loop appends for the rune at index idx. */
  function Piece(c: char, idx: nat): (r: string)
  {
    if IsUpper(c) && idx > 0 then ['_', ToLower(c)] else [ToLower(c)]
  }

  /** snakeCasedName, rune by rune from the left. */
  function SnakeCased(s: string): string
  {
    if s == [] then [] else SnakeCased(s[..|s| - 1]) + Piece(s[|s| - 1], |s| - 1)
  }

  /** The number of capitals of s after its first rune: the number of '_' the loop inserts. */
  function Inserted(s: string): nat
  {
    if s == [] then 0
    else Inserted(s[..|s| - 1]) + (if IsUpper(s[|s| - 1]) && |s| > 1 then 1 else 0)
  }

  predicate NoUpper(s: string) {
    forall k :: 0 <= k < |s| ==> !IsUpper(s[k])
  }

  /** Where the rune s[i] lands in the output. */
  function Pos(s: string, i: nat): nat
    requires i < |s|
  {
    i + Inserted(s[..i + 1])
  }

  /** snakeCasedName: a loop appending to newstr. */
  method SnakeCasedName(name: string) returns (r: string)
    ensures r == SnakeCased(name)
  {
    var newstr: string := [];
    var idx := 0;
    while idx < |name|
      invariant 0 <= idx <= |name|
      invariant newstr == SnakeCased(name[..idx])
    {
      var chr := name[idx];
      if IsUpper(chr) {
        if idx > 0 {
          newstr := newstr + ['_'];
        }
        chr := (chr as int + 32) as char;
      }
      newstr := newstr + [chr];
      assert name[..idx + 1][..idx] == name[..idx];
      idx := idx + 1;
    }
    assert name[..idx] == name;
    return newstr;
  }

  lemma {:induction false} SnakeCasedLength(s: string)
    ensures |SnakeCased(s)| == |s| + Inserted(s)
    decreases |s|
  {
    if s != [] {
      SnakeCasedLength(s[..|s| - 1]);
    }
  }

  lemma {:induction false} SnakeCasedLowers(s: string)
    ensures NoUpper(SnakeCased(s))
    decreases |s|
  {
    if s != [] {
      SnakeCasedLowers(s[..|s| - 1]);
      var p := Piece(s[|s| - 1], |s| - 1);
      assert forall k :: 0 <= k < |p| ==> !IsUpper(p[k]);
    }
  }

  /** The rune s[i] sits, lowered, at its position in r, after a '_' when it is a capital that
      is not the first rune. */
  predicate Placed(s: string, r: string, i: nat)
    requires i < |s|
  {
    Pos(s, i) < |r| && r[Pos(s, i)] == ToLower(s[i]) &&
    (IsUpper(s[i]) && i > 0 ==> r[Pos(s, i) - 1] == '_')
  }

  /** Appending a rune, and more output, leaves the runes before it where they were. */
  lemma PlacedAppend(s: string, r: string, c: char, piece: string, i: nat)
    requires i < |s| && Placed(s, r, i)
    ensures Placed(s + [c], r + piece, i)
  {
    assert (s + [c])[..i + 1] == s[..i + 1];
  }

  lemma PlacedStays(init: string, c: char, i: nat)
    requires i < |init| && Placed(init, SnakeCased(init), i)
    ensures Placed(init + [c], SnakeCased(init + [c]), i)
  {
    var s := init + [c];
    assert s[..|s| - 1] == init;
    assert SnakeCased(s) == SnakeCased(init) + Piece(c, |init|);
    PlacedAppend(init, SnakeCased(init), c, Piece(c, |init|), i);
  }

  /** The last rune lands at the end of the output. */
  lemma PlacedLast(s: string)
    requires s != []
    ensures Placed(s, SnakeCased(s), |s| - 1)
  {
    var n := |s|;
    SnakeCasedLength(s[..n - 1]);
    assert s[..n] == s;
  }

  /** The output holds no capital, is longer by the number of inserted '_', and puts every rune,
      lowered, at its position, with a '_' just before each capital that is not the first rune. */
  lemma {:induction false} SnakeCasedLayout(s: string)
    ensures var r := SnakeCased(s);
      NoUpper(r) && |r| == |s| + Inserted(s) &&
      forall i :: 0 <= i < |s| ==> Placed(s, r, i)
    decreases |s|
  {
    SnakeCasedLowers(s);
    SnakeCasedLength(s);
    if s != [] {
      var init := s[..|s| - 1];
      SnakeCasedLayout(init);
      assert s == init + [s[|s| - 1]];
      forall i | 0 <= i < |s|
        ensures Placed(s, SnakeCased(s), i)
      {
        if i < |s| - 1 {
          PlacedStays(init, s[|s| - 1], i);
        } else {
          PlacedLast(s);
        }
      }
    }
  }

  /** The '_' the output holds are those of the input plus the inserted ones. */
  function Underscores(s: string): nat
  {
    if s == [] then 0 else Underscores(s[..|s| - 1]) + (if s[|s| - 1] == '_' then 1 else 0)
  }

  lemma UnderscoresAppend(a: string, b: string)
    ensures Underscores(a + b) == Underscores(a) + Underscores(b)
    decreases |b|
  {
    if b == [] {
      assert a + b == a;
    } else {
      assert (a + b)[..|a + b| - 1] == a + b[..|b| - 1];
      assert (a + b)[|a + b| - 1] == b[|b| - 1];
      UnderscoresAppend(a, b[..|b| - 1]);
    }
  }

  /** The '_' one step of the loop appends: the rune itself when it is one, and the separator
      before a non-initial capital. */
  lemma PieceUnderscores(c: char, idx: nat)
    ensures Underscores(Piece(c, idx)) == (if c == '_' then 1 else 0) + (if IsUpper(c) && idx > 0 then 1 else 0)
  {
    var x := ToLower(c);
    assert x == '_' <==> c == '_';
    assert [x][..0] == [];
    if IsUpper(c) && idx > 0 {
      assert ['_', x][..1] == ['_'] && ['_'][..0] == [];
    }
  }

  lemma {:induction false} SnakeCasedUnderscores(s: string)
    ensures Underscores(SnakeCased(s)) == Underscores(s) + Inserted(s)
    decreases |s|
  {
    if s != [] {
      var n := |s|;
      var init := s[..n - 1];
      SnakeCasedUnderscores(init);
      UnderscoresAppend(SnakeCased(init), Piece(s[n - 1], n - 1));
      PieceUnderscores(s[n - 1], n - 1);
    }
  }

  /** A name without capitals is its own snake-cased form. */
  lemma {:induction false} SnakeCasedNoUpper(s: string)
    requires NoUpper(s)
    ensures SnakeCased(s) == s
    decreases |s|
  {
    if s != [] {
      SnakeCasedNoUpper(s[..|s| - 1]);
      assert s == s[..|s| - 1] + [s[|s| - 1]];
    }
  }

  /** Snake-casing twice is snake-casing once. */
  lemma SnakeCasedIdempotent(s: string)
    ensures SnakeCased(SnakeCased(s)) == SnakeCased(s)
  {
    SnakeCasedLayout(s);
    SnakeCasedNoUpper(SnakeCased(s));
  }

  /** GlobalConfig.Get of the struct-backed settings: an empty key reads "" before any field is
      looked up; any other key goes to the reflective field lookup, a parameter here. */
  function StructGet(key: string, fieldLookup: seq<string> -> string): (r: string)
    ensures key == "" ==> r == ""
  {
    if |key| == 0 then "" else fieldLookup(Split(key, '.'))
  }
}
