/** The user-wide settings of gop: a map from a first key segment to a value, where a value is a
    string or a table of further values, read and written with dotted keys such as
    "repos.default_dir". Go's `interface{}` values become the datatype Value; a type assertion
    that fails, which panics in Go, becomes the error TypeAssertionPanic. */
module Global {
  import opened Wrappers
  import opened Strings

  /** A stored value: nil, a string, a nested table, or some other value a YAML file may hold. */
  datatype Value = Nil | Str(s: string) | Table(entries: map<string, Value>) | Other

  /** Indexing a Go map: an absent key reads as nil. */
  function Lookup(m: map<string, Value>, k: string): (v: Value)
    ensures k !in m ==> v == Nil
    ensures k in m ==> v == m[k]
  {
    if k in m then m[k] else Nil
  }

  /** The settings gop starts from: init.default_editor and repos.default_dir, both empty. */
  function Defaults(): (m: map<string, Value>)
    ensures m.Keys == {"init", "repos"}
  {
    map["init" := Table(map["default_editor" := Str("")]),
        "repos" := Table(map["default_dir" := Str("")])]
  }

  /** The string stored under the one- or two-segment key `keys`, if there is one. */
  predicate Holds(m: map<string, Value>, keys: seq<string>, s: string) {
    (|keys| == 1 && Lookup(m, keys[0]) == Str(s)) ||
    (|keys| == 2 && Lookup(m, keys[0]).Table? && Lookup(Lookup(m, keys[0]).entries, keys[1]) == Str(s))
  }

  /** GlobalConfig.Get: the new map (a two-segment read first gives a missing table an empty one)
      and the string read. */
  function GetSpec(m: map<string, Value>, key: string): (r: (map<string, Value>, Result<string>))
    ensures var keys := Split(key, '.');
      r.0 == m || (|keys| == 2 && Lookup(m, keys[0]) == Nil && r.0 == m[keys[0] := Table(map[])])
    ensures r.1.Ok? && r.1.value != "" ==> Holds(m, Split(key, '.'), r.1.value)
    ensures r.1.Err? ==> r.1.error == TypeAssertionPanic && r.0 == m
  {
    var keys := Split(key, '.');
    if |keys| == 1 then
      match Lookup(m, keys[0])
      case Nil => (m, Ok(""))
      case Str(s) => (m, Ok(s))
      case _ => (m, Err(TypeAssertionPanic))
    else if |keys| == 2 then
      var m1 := if Lookup(m, keys[0]) == Nil then m[keys[0] := Table(map[])] else m;
      match m1[keys[0]]
      case Table(sub) =>
        (match Lookup(sub, keys[1])
         case Nil => (m1, Ok(""))
         case Str(s) => (m1, Ok(s))
         case _ => (m1, Err(TypeAssertionPanic)))
      case _ => (m, Err(TypeAssertionPanic))
    else (m, Ok(""))
  }

  /** GlobalConfig.Set: the new map, and the panic a non-table first segment raises. */
  function SetSpec(m: map<string, Value>, key: string, value: string): (r: (map<string, Value>, Option<Error>))
    ensures var keys := Split(key, '.');
      forall k :: k != keys[0] ==> Lookup(r.0, k) == Lookup(m, k)
    ensures r.1.Some? ==> r.1 == Some(TypeAssertionPanic) && r.0 == m
    ensures |Split(key, '.')| > 2 ==> r == (m, None)
  {
    var keys := Split(key, '.');
    if |keys| == 1 then (m[keys[0] := Str(value)], None)
    else if |keys| == 2 then
      var m1 := if Lookup(m, keys[0]) == Nil then m[keys[0] := Table(map[])] else m;
      match m1[keys[0]]
      case Table(sub) => (m1[keys[0] := Table(sub[keys[1] := Str(value)])], None)
      case _ => (m, Some(TypeAssertionPanic))
    else (m, None)
  }

  /** A value written with Set is read back by Get under the same one- or two-segment key. */
  lemma SetThenGet(m: map<string, Value>, key: string, value: string)
    requires |Split(key, '.')| <= 2
    requires SetSpec(m, key, value).1 == None
    ensures var m1 := SetSpec(m, key, value).0;
      GetSpec(m1, key) == (m1, Ok(value))
  {
  }

  /** Setting a two-segment key changes that one entry of that table and nothing else. */
  lemma SetTwoOnlyThatEntry(m: map<string, Value>, key: string, value: string, k0: string, k1: string)
    requires Split(key, '.') == [k0, k1]
    requires SetSpec(m, key, value).1 == None
    ensures var m1 := SetSpec(m, key, value).0;
      Lookup(m1, k0).Table? &&
      (Lookup(m, k0).Table? || Lookup(m, k0) == Nil) &&
      Lookup(Lookup(m1, k0).entries, k1) == Str(value) &&
      forall k :: k != k1 ==>
        Lookup(Lookup(m1, k0).entries, k) == (if Lookup(m, k0) == Nil then Nil else Lookup(Lookup(m, k0).entries, k))
  {
  }

  /** Keys of three or more segments are not supported: Get reads "" and neither call changes
      anything. */
  lemma LongKeysIgnored(m: map<string, Value>, key: string, value: string)
    requires |Split(key, '.')| >= 3
    ensures GetSpec(m, key) == (m, Ok(""))
    ensures SetSpec(m, key, value) == (m, None)
  {
  }

  /** Reading a two-segment key whose first segment is absent gives a new empty table and "". */
  lemma GetInsertsTable(m: map<string, Value>, key: string, k0: string, k1: string)
    requires Split(key, '.') == [k0, k1] && Lookup(m, k0) == Nil
    ensures GetSpec(m, key) == (m[k0 := Table(map[])], Ok(""))
  {
  }

  /** Reading a one-segment key never changes the map; it fails exactly when a non-string,
      non-nil value is stored there. */
  lemma GetOneSegment(m: map<string, Value>, key: string)
    requires |Split(key, '.')| == 1
    ensures GetSpec(m, key).0 == m
    ensures var v := Lookup(m, Split(key, '.')[0]);
      GetSpec(m, key).1.Err? <==> v != Nil && !v.Str?
  {
  }

  /** A key made of two dot-free segments splits into those two. */
  lemma TwoSegments(k0: string, k1: string)
    requires '.' !in k0 && '.' !in k1
    ensures Split(k0 + "." + k1, '.') == [k0, k1]
  {
    SplitNoSep(k1, '.');
    SplitCons(k0, '.', k1);
  }

  /** A default setting, stored as an empty string in its table, reads as "" without changing
      the map. */
  lemma DefaultReadsEmpty(k0: string, k1: string)
    requires '.' !in k0 && '.' !in k1
    requires k0 in Defaults() && Defaults()[k0] == Table(map[k1 := Str("")])
    ensures GetSpec(Defaults(), k0 + "." + k1) == (Defaults(), Ok(""))
  {
    TwoSegments(k0, k1);
  }

  /** Both settings gop starts from, init.default_editor and repos.default_dir, read as "". */
  lemma DefaultsReadEmpty()
    ensures GetSpec(Defaults(), "init.default_editor") == (Defaults(), Ok(""))
    ensures GetSpec(Defaults(), "repos.default_dir") == (Defaults(), Ok(""))
  {
    assert "init" + "." + "default_editor" == "init.default_editor";
    assert "repos" + "." + "default_dir" == "repos.default_dir";
    DefaultReadsEmpty("init", "default_editor");
    DefaultReadsEmpty("repos", "default_dir");
  }

  /** The process-wide settings map, changed in place by Get and Set. */
  class GlobalConfig {
    var entries: map<string, Value>

    constructor ()
      ensures entries == Defaults()
    {
      entries := Defaults();
    }

    method Get(key: string) returns (r: Result<string>)
      modifies this
      ensures (entries, r) == GetSpec(old(entries), key)
    {
      var keys := Split(key, '.');
      if |keys| == 1 {
        var v := Lookup(entries, keys[0]);
        if v != Nil {
          if v.Str? {
            return Ok(v.s);
          }
          return Err(TypeAssertionPanic);
        }
      } else if |keys| == 2 {
        if Lookup(entries, keys[0]) == Nil {
          entries := entries[keys[0] := Table(map[])];
        }
        var v := entries[keys[0]];
        if !v.Table? {
          return Err(TypeAssertionPanic);
        }
        var x := Lookup(v.entries, keys[1]);
        if x != Nil {
          if x.Str? {
            return Ok(x.s);
          }
          return Err(TypeAssertionPanic);
        }
      }
      return Ok("");
    }

    method Set(key: string, value: string) returns (err: Option<Error>)
      modifies this
      ensures (entries, err) == SetSpec(old(entries), key, value)
    {
      var keys := Split(key, '.');
      if |keys| == 1 {
        entries := entries[keys[0] := Str(value)];
      } else if |keys| == 2 {
        if Lookup(entries, keys[0]) == Nil {
          entries := entries[keys[0] := Table(map[])];
        }
        var v := entries[keys[0]];
        if !v.Table? {
          return Some(TypeAssertionPanic);
        }
        entries := entries[keys[0] := Table(v.entries[keys[1] := Str(value)])];
      }
      return None;
    }
  }
}
