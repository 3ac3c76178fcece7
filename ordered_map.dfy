/**
 * A JavaScript `Map`: entries keyed by `===`, iterated in insertion order.
 * Setting an existing key keeps its place; deleting and re-adding moves it last.
 */
module OrderedMaps {

  predicate Distinct<K(==)>(s: seq<K>) {
    forall i, j :: 0 <= i < j < |s| ==> s[i] != s[j]
  }

  /** Leaving two neighbouring elements out of a sequence without repeats leaves none. */
  lemma DistinctWithoutPair<K>(s: seq<K>, n: nat)
    requires Distinct(s) && n + 2 <= |s|
    ensures Distinct(s[..n] + s[n + 2..])
  {
    var r := s[..n] + s[n + 2..];
    forall i, j | 0 <= i < j < |r| ensures r[i] != r[j] {
      var i', j' := if i < n then i else i + 2, if j < n then j else j + 2;
      assert r[i] == s[i'] && r[j] == s[j'];
    }
  }

  /** The sequence without its occurrences of `k`. */
  function Without<K(==)>(s: seq<K>, k: K): (r: seq<K>)
    ensures k !in r
    ensures forall x :: x in r ==> x in s && x != k
    ensures forall x :: x in s && x != k ==> x in r
    ensures Distinct(s) ==> Distinct(r)
    ensures k !in s ==> r == s
  {
    if s == [] then []
    else if s[0] == k then Without(s[1..], k)
    else
      var t := Without(s[1..], k);
      assert Distinct(s) ==> s[0] !in s[1..];
      [s[0]] + t
  }

  /** Two maps with the same keys and the same value under each key are equal. */
  lemma SameEntries<K, V>(a: map<K, V>, b: map<K, V>)
    requires forall k :: k in a ==> k in b && a[k] == b[k]
    requires forall k :: k in b ==> k in a
    ensures a == b
  {
  }

  datatype OMap<K(==), V> = OMap(keys: seq<K>, entries: map<K, V>) {

    ghost predicate Valid() {
      Distinct(keys) && (forall k :: k in entries ==> k in keys) && (forall k :: k in keys ==> k in entries)
    }

    predicate Has(k: K) {
      k in entries
    }

    function Size(): nat {
      |keys|
    }

    /** `map.set(k, v)` */
    function Put(k: K, v: V): (r: OMap<K, V>)
      ensures r.entries == entries[k := v]
      ensures r.keys == if k in entries then keys else keys + [k]
      ensures Valid() ==> r.Valid()
    {
      if k in entries then OMap(keys, entries[k := v]) else OMap(keys + [k], entries[k := v])
    }

    /** `map.delete(k)` */
    function Remove(k: K): (r: OMap<K, V>)
      ensures r.entries == entries - {k}
      ensures r.keys == Without(keys, k)
      ensures Valid() ==> r.Valid()
    {
      OMap(Without(keys, k), entries - {k})
    }

    /** `[...map.values()]` */
    function Values(): (r: seq<V>)
      requires Valid()
      ensures |r| == |keys|
      ensures forall i :: 0 <= i < |keys| ==> r[i] == entries[keys[i]]
    {
      seq(|keys|, i requires 0 <= i < |keys| => entries[keys[i]])
    }
  }

  function EmptyMap<K(==), V>(): (r: OMap<K, V>)
    ensures r.Valid() && r.keys == [] && r.entries == map[]
  {
    OMap([], map[])
  }

  /** Setting then deleting a key that was absent restores the map. */
  lemma PutThenRemove<K, V>(m: OMap<K, V>, k: K, v: V)
    requires m.Valid() && !m.Has(k)
    ensures m.Put(k, v).Remove(k) == m
  {
    var r := m.Put(k, v).Remove(k);
    assert r.entries == m.entries;
    WithoutAppendAbsent(m.keys, k);
  }

  /** Deleting a key the map does not have changes nothing. */
  lemma RemoveAbsentKey<K, V>(m: OMap<K, V>, k: K)
    requires m.Valid() && !m.Has(k)
    ensures m.Remove(k) == m
  {
    assert m.Remove(k).entries == m.entries;
  }

  lemma {:induction false} WithoutAppendAbsent<K>(s: seq<K>, k: K)
    requires k !in s
    ensures Without(s + [k], k) == s
  {
    if s != [] {
      assert (s + [k])[1..] == s[1..] + [k];
      WithoutAppendAbsent(s[1..], k);
      assert s == [s[0]] + s[1..];
    }
  }

  /** Rearranging a sequence without repeats cannot create a repeat. */
  lemma DistinctPermutation<K>(a: seq<K>, b: seq<K>)
    requires Distinct(a) && multiset(a) == multiset(b)
    ensures Distinct(b)
  {
    forall i, j | 0 <= i < j < |b| ensures b[i] != b[j] {
      if b[i] == b[j] {
        TwoOccurrences(b, i, j);
        AtMostOnce(a, b[i]);
        assert false;
      }
    }
  }

  /** Concatenation is associative. */
  lemma AppendAssociates<T>(a: seq<T>, b: seq<T>, c: seq<T>)
    ensures (a + b) + c == a + (b + c)
  {
  }

  /** A concatenation of four pieces starts with the first and ends with the last. */
  lemma Framed<T>(a: seq<T>, b: seq<T>, c: seq<T>, d: seq<T>)
    ensures var s := a + b + c + d; s[..|a|] == a && s[|s| - |d|..] == d
  {
    var s := a + b + c + d;
    assert s == (a + b + c) + d;
    assert s[..|a|] == (a + b + c)[..|a|];
  }

  /** A rearrangement has the same members. */
  lemma SameMembers<K>(a: seq<K>, b: seq<K>)
    requires multiset(a) == multiset(b)
    ensures forall x :: x in a <==> x in b
  {
    forall x ensures x in a <==> x in b {
      assert x in a <==> x in multiset(a);
      assert x in b <==> x in multiset(b);
    }
  }

  lemma TwoOccurrences<K>(s: seq<K>, i: nat, j: nat)
    requires i < j < |s| && s[i] == s[j]
    ensures multiset(s)[s[i]] >= 2
  {
    assert s == s[..j] + [s[j]] + s[j + 1..];
    assert s[i] in s[..j];
  }

  lemma {:induction false} AtMostOnce<K>(s: seq<K>, x: K)
    requires Distinct(s)
    ensures multiset(s)[x] <= 1
  {
    if s != [] {
      assert s == [s[0]] + s[1..];
      AtMostOnce(s[1..], x);
      if s[0] == x {
        assert x !in s[1..];
      }
    }
  }

  /** Deleting a key that occurs once, between two runs without it, joins the runs. */
  lemma {:induction false} WithoutSplit<K>(a: seq<K>, k: K, b: seq<K>)
    requires k !in a && k !in b
    ensures Without(a + [k] + b, k) == a + b
  {
    if a == [] {
      assert a + [k] + b == [k] + b;
      assert ([k] + b)[1..] == b;
    } else {
      assert (a + [k] + b)[1..] == a[1..] + [k] + b;
      WithoutSplit(a[1..], k, b);
      assert a + b == [a[0]] + (a[1..] + b);
    }
  }

  /** The keys of `keys` that are in `pick`, in order. */
  function Only<K(!new)>(keys: seq<K>, pick: set<K>): (r: seq<K>)
    ensures forall k :: k in r <==> k in keys && k in pick
    decreases |keys|
  {
    if keys == [] then []
    else
      var init, last := keys[..|keys| - 1], keys[|keys| - 1];
      assert keys == init + [last];
      Only(init, pick) + (if last in pick then [last] else [])
  }

  /** The values under `keys`, in order. */
  function ValuesAt<K, V>(keys: seq<K>, entries: map<K, V>): (r: seq<V>)
    requires forall k :: k in keys ==> k in entries
    ensures |r| == |keys| && forall i :: 0 <= i < |keys| ==> r[i] == entries[keys[i]]
    decreases |keys|
  {
    if keys == [] then [] else ValuesAt(keys[..|keys| - 1], entries) + [entries[keys[|keys| - 1]]]
  }

  /**
   * `for (const [k, v] of m) if (k in pick) r.set(k, v)` over the first keys
   * of a map: a new map of the entries whose key is in `pick`.
   */
  function Restricted<K, V>(keys: seq<K>, entries: map<K, V>, pick: set<K>): (r: OMap<K, V>)
    requires forall k :: k in keys ==> k in entries
    decreases |keys|
  {
    if keys == [] then EmptyMap()
    else
      var last := keys[|keys| - 1];
      var before := Restricted(keys[..|keys| - 1], entries, pick);
      if last in pick then before.Put(last, entries[last]) else before
  }

  /** The filtered copy of a map holds exactly its entries whose key is picked, with the same values, in the map's order. */
  lemma {:induction false} RestrictedContents<K(!new), V>(keys: seq<K>, entries: map<K, V>, pick: set<K>)
    requires Distinct(keys) && forall k :: k in keys ==> k in entries
    ensures var r := Restricted(keys, entries, pick);
      r.Valid() && r.keys == Only(keys, pick)
      && (forall k :: k in r.entries <==> k in keys && k in pick)
      && (forall k :: k in r.entries ==> r.entries[k] == entries[k])
    decreases |keys|
  {
    if keys != [] {
      var init, last := keys[..|keys| - 1], keys[|keys| - 1];
      assert keys == init + [last];
      assert Distinct(init);
      RestrictedContents(init, entries, pick);
    }
  }
}
