/** The JavaScript `Map` that backs each in-memory table: a finite map from
    numeric keys to values that also remembers the order in which keys were
    first inserted. `set` on a key already present replaces the value in
    place (the key keeps its position), `set` on a new key appends it,
    `delete` removes the key and reports whether it was there, and
    `values()` enumerates in insertion order. */
module JsMaps {
  import opened Values

  /** Strictly increasing, hence free of duplicates. */
  predicate Increasing(s: seq<int>) {
    forall i, j :: 0 <= i < j < |s| ==> s[i] < s[j]
  }

  ghost predicate Distinct(s: seq<int>) {
    forall i, j :: 0 <= i < j < |s| ==> s[i] != s[j]
  }

  /** `s` with every occurrence of `k` taken out, the rest in order. */
  function Without(s: seq<int>, k: int): (r: seq<int>)
    ensures forall x :: x in r <==> x in s && x != k
    ensures |r| <= |s|
  {
    if s == [] then []
    else if s[0] == k then Without(s[1..], k)
    else [s[0]] + Without(s[1..], k)
  }

  lemma {:induction false} WithoutIncreasing(s: seq<int>, k: int)
    requires Increasing(s)
    ensures Increasing(Without(s, k))
  {
    if s != [] {
      var tail := s[1..];
      assert Increasing(tail) by {
        forall i, j | 0 <= i < j < |tail| ensures tail[i] < tail[j] {
          assert tail[i] == s[i + 1] && tail[j] == s[j + 1];
        }
      }
      WithoutIncreasing(tail, k);
      var rest := Without(tail, k);
      if s[0] != k {
        var r := [s[0]] + rest;
        forall i, j | 0 <= i < j < |r| ensures r[i] < r[j] {
          assert r[j] == rest[j - 1] && rest[j - 1] in tail;
          var n :| 0 <= n < |tail| && tail[n] == r[j];
          assert s[n + 1] == r[j];
          if i > 0 {
            assert r[i] == rest[i - 1];
          }
        }
      }
    }
  }

  lemma {:induction false} WithoutDistinct(s: seq<int>, k: int)
    requires Distinct(s)
    ensures Distinct(Without(s, k))
  {
    if s != [] {
      assert Distinct(s[1..]) by {
        forall i, j | 0 <= i < j < |s[1..]| ensures s[1..][i] != s[1..][j] {
          assert s[1..][i] == s[i + 1] && s[1..][j] == s[j + 1];
        }
      }
      WithoutDistinct(s[1..], k);
      if s[0] != k {
        assert s[0] !in s[1..] by {
          forall i | 0 <= i < |s[1..]| ensures s[1..][i] != s[0] {
            assert s[1..][i] == s[i + 1];
          }
        }
      }
    }
  }

  /** A distinct sequence has as many elements as the set of its elements. */
  lemma {:induction false} DistinctCard(s: seq<int>)
    requires Distinct(s)
    ensures |set x | x in s| == |s|
  {
    if s != [] {
      var tail := s[1..];
      assert Distinct(tail) by {
        forall i, j | 0 <= i < j < |tail| ensures tail[i] != tail[j] {
          assert tail[i] == s[i + 1] && tail[j] == s[j + 1];
        }
      }
      DistinctCard(tail);
      assert s[0] !in tail by {
        forall i | 0 <= i < |tail| ensures tail[i] != s[0] {
          assert tail[i] == s[i + 1];
        }
      }
      assert (set x | x in s) == (set x | x in tail) + {s[0]};
    }
  }

  datatype JsMap<V> = JsMap(keys: seq<int>, entries: map<int, V>) {

    /** The keys listed are exactly the keys mapped, each once. */
    ghost predicate Valid() {
      && Distinct(keys)
      && (forall k :: k in entries <==> k in keys)
      && (forall i :: 0 <= i < |keys| ==> keys[i] in entries)
    }

    /** `map.get(k)`: undefined (None) when the key is absent. */
    function Get(k: int): (r: Option<V>)
      ensures r.Some? <==> k in entries
      ensures r.Some? ==> r.value == entries[k]
    {
      if k in entries then Some(entries[k]) else None
    }

    /** `map.size`, which is also the length of `Array.from(map.values())`. */
    function Size(): (n: nat)
      requires Valid()
      ensures n == |entries|
    {
      DistinctCard(keys);
      var listed := set x | x in keys;
      assert forall x :: x in listed <==> x in entries;
      assert entries.Keys == listed;
      |keys|
    }

    /** `Array.from(map.values())`: the values in key-insertion order. */
    function Values(): (vs: seq<V>)
      requires Valid()
      ensures |vs| == |keys|
      ensures forall i :: 0 <= i < |keys| ==> vs[i] == entries[keys[i]]
    {
      seq(|keys|, i requires 0 <= i < |keys| => entries[keys[i]])
    }

    /** `map.set(k, v)`. */
    function Set(k: int, v: V): (m: JsMap<V>)
      requires Valid()
      ensures m.Valid()
      ensures m.entries == entries[k := v]
      ensures k in entries ==> m.keys == keys
      ensures k !in entries ==> m.keys == keys + [k]
    {
      if k in entries then JsMap(keys, entries[k := v])
      else JsMap(keys + [k], entries[k := v])
    }

    /** `map.delete(k)`, whose boolean result is `k in entries`. */
    function Delete(k: int): (m: JsMap<V>)
      requires Valid()
      ensures m.Valid()
      ensures m.entries == entries - {k}
      ensures m.keys == Without(keys, k)
    {
      WithoutDistinct(keys, k);
      JsMap(Without(keys, k), entries - {k})
    }
  }

  /** An empty `new Map()`. */
  function Empty<V>(): (m: JsMap<V>)
    ensures m.Valid() && m.entries == map[] && m.keys == []
  {
    JsMap([], map[])
  }

  // -----------------------------------------------------------------------
  // Properties of the operations

  /** Replacing the value of a present key keeps every position: only that
      key's slot of `values()` changes. */
  lemma SetPresentKeepsOrder<V>(m: JsMap<V>, k: int, v: V, i: nat)
    requires m.Valid() && i < |m.keys| && m.keys[i] == k
    ensures m.Set(k, v).Values() == m.Values()[i := v]
  {
    var a, b := m.Set(k, v).Values(), m.Values()[i := v];
    forall j | 0 <= j < |a| ensures a[j] == b[j] {
      if j != i {
        assert m.keys[j] != k;
      }
    }
  }

  /** Setting a new key appends its value at the end of `values()`. */
  lemma SetAbsentAppends<V>(m: JsMap<V>, k: int, v: V)
    requires m.Valid() && k !in m.entries
    ensures m.Set(k, v).Values() == m.Values() + [v]
  {
    var a, b := m.Set(k, v).Values(), m.Values() + [v];
    forall j | 0 <= j < |a| ensures a[j] == b[j] {
      if j < |m.keys| {
        assert m.keys[j] != k;
      }
    }
  }
}
