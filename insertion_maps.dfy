/** JavaScript `Map` objects with string keys, which remember the order in
    which keys were first inserted: `set` on a present key replaces its value
    in place, on a new key appends it, and iteration follows that order. */
module InsertionMaps {

  /** A `Map`'s contents: its keys in insertion order, and what each maps to. */
  datatype InsertionMap<V> = InsertionMap(keys: seq<string>, entries: map<string, V>)
  {
    ghost predicate Valid()
    {
      && (forall i, j :: 0 <= i < j < |keys| ==> keys[i] != keys[j])
      && (forall k :: k in entries <==> k in keys)
    }

    /** `Map.prototype.set`. */
    function Set(k: string, v: V): (r: InsertionMap<V>)
      requires Valid()
      ensures r.Valid()
      ensures r.entries == entries[k := v]
      ensures k in entries ==> r.keys == keys
      ensures k !in entries ==> r.keys == keys + [k]
    {
      if k in entries then InsertionMap(keys, entries[k := v])
      else InsertionMap(keys + [k], entries[k := v])
    }
  }

  function Empty<V>(): (r: InsertionMap<V>)
    ensures r.Valid() && r.keys == [] && r.entries == map[]
  {
    InsertionMap([], map[])
  }

  /** The key order after `set` is called on each name of `ns` in turn,
      starting from keys `ks`: each name not yet present is appended at its
      first occurrence, and a present one keeps its place. */
  function AppendNew(ks: seq<string>, ns: seq<string>): seq<string>
    decreases |ns|
  {
    if ns == [] then ks
    else AppendNew(if ns[0] in ks then ks else ks + [ns[0]], ns[1..])
  }

  /** Names without repetitions that are all new are appended in exactly their order. */
  lemma {:induction false} AppendNewDistinct(ks: seq<string>, ns: seq<string>)
    requires forall i, j :: 0 <= i < j < |ns| ==> ns[i] != ns[j]
    requires forall i :: 0 <= i < |ns| ==> ns[i] !in ks
    ensures AppendNew(ks, ns) == ks + ns
    decreases |ns|
  {
    if ns != [] {
      var rest := ns[1..];
      forall i | 0 <= i < |rest| ensures rest[i] !in ks + [ns[0]] {
        assert rest[i] == ns[i + 1];
      }
      AppendNewDistinct(ks + [ns[0]], rest);
      assert ks + [ns[0]] + rest == ks + ns;
    }
  }

  /** `b` is `a` with entries appended: no key removed, moved or overwritten. */
  ghost predicate Extends<V>(a: InsertionMap<V>, b: InsertionMap<V>)
  {
    && a.keys <= b.keys
    && forall k :: k in a.entries ==> k in b.entries && b.entries[k] == a.entries[k]
  }

  lemma ExtendsTransitive<V>(a: InsertionMap<V>, b: InsertionMap<V>, c: InsertionMap<V>)
    requires Extends(a, b) && Extends(b, c)
    ensures Extends(a, c)
  {
    assert a.keys == b.keys[..|a.keys|];
    assert b.keys == c.keys[..|b.keys|];
    assert a.keys == c.keys[..|a.keys|];
  }

  /** A key sequence without repetitions drawn from `s` is no longer than `s` is large. */
  lemma {:induction false} DistinctBound(ks: seq<string>, s: set<string>)
    requires forall i, j :: 0 <= i < j < |ks| ==> ks[i] != ks[j]
    requires forall i :: 0 <= i < |ks| ==> ks[i] in s
    ensures |ks| <= |s|
  {
    if ks != [] {
      var rest := ks[1..];
      forall i | 0 <= i < |rest| ensures rest[i] in s - {ks[0]} {
        assert rest[i] == ks[i + 1];
      }
      DistinctBound(rest, s - {ks[0]});
    }
  }

  /** A `Map` object, updated in place by whoever holds a reference to it. */
  class MutableMap<V> {
    var keys: seq<string>
    var entries: map<string, V>

    function Value(): InsertionMap<V>
      reads this
    {
      InsertionMap(keys, entries)
    }

    /** `new Map()`. */
    constructor ()
      ensures Value() == Empty()
    {
      keys := [];
      entries := map[];
    }

    /** `map.set(k, v)`. */
    method Set(k: string, v: V)
      requires Value().Valid()
      modifies this
      ensures Value() == old(Value()).Set(k, v)
    {
      if k !in entries {
        keys := keys + [k];
      }
      entries := entries[k := v];
    }
  }
}
