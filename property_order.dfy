/**
 * The order in which `Object.entries`/`Object.keys` list an ordinary object's
 * string keys (ECMAScript OrdinaryOwnPropertyKeys): array-index keys first, in
 * ascending numeric order, then every other key in insertion order.
 */
module PropertyOrder {
  import opened JsStrings
  import opened StableSort

  /** 2^32 - 1: array indices are the canonical numerals below it. */
  const IndexLimit: nat := 4294967295

  /** A canonical decimal numeral of an integer in [0, 2^32 - 2]. */
  predicate IsArrayIndex(k: string) {
    |k| >= 1 && AllDigits(k) && (k[0] != '0' || |k| == 1) && DecimalValue(k) < IndexLimit
  }

  /** The sort key: the numeric value for an index, one shared value above all indices for the rest. */
  function Rank(k: string): (r: int)
    ensures IsArrayIndex(k) <==> r < IndexLimit
  {
    if IsArrayIndex(k) then DecimalValue(k) else IndexLimit
  }

  /** The number of array-index keys at the front of `pairs`. */
  function IndexPrefix<V>(pairs: seq<(string, V)>): (n: nat)
    ensures n <= |pairs|
    ensures forall i :: 0 <= i < n ==> IsArrayIndex(pairs[i].0)
    ensures n < |pairs| ==> !IsArrayIndex(pairs[n].0)
  {
    if pairs != [] && IsArrayIndex(pairs[0].0) then 1 + IndexPrefix(pairs[1..]) else 0
  }

  function PairRank<V>(p: (string, V)): int {
    Rank(p.0)
  }

  function KeysOf<V>(pairs: seq<(string, V)>): (r: seq<string>)
    ensures |r| == |pairs|
    ensures forall i :: 0 <= i < |pairs| ==> r[i] == pairs[i].0
  {
    if pairs == [] then [] else [pairs[0].0] + KeysOf(pairs[1..])
  }

  /** In pairs listed by rank, every key after the leading array indices is no array index. */
  lemma TailNotIndex<V>(props: seq<(string, V)>)
    requires forall i, j :: 0 <= i < j < |props| ==> Rank(props[i].0) <= Rank(props[j].0)
    ensures forall i :: IndexPrefix(props) <= i < |props| ==> !IsArrayIndex(props[i].0)
  {
    var n := IndexPrefix(props);
    if n < |props| {
      var least := Rank(props[n].0);
      assert least == IndexLimit;
      forall i | n < i < |props| ensures !IsArrayIndex(props[i].0) {
        assert least <= Rank(props[i].0);
      }
    }
  }

  /** In pairs listed by rank, the non-index keys are exactly the entries after its leading indices. */
  lemma {:induction false} NonIndexTail<V>(props: seq<(string, V)>)
    requires forall i, j :: 0 <= i < j < |props| ==> Rank(props[i].0) <= Rank(props[j].0)
    ensures WithKey(props, PairRank, IndexLimit) == props[IndexPrefix(props)..]
    decreases |props|
  {
    if props != [] {
      if IsArrayIndex(props[0].0) {
        RankedRest(props);
        NonIndexTail(props[1..]);
        PastIndex(props);
      } else {
        IndexTail(props);
        assert props[0..] == props;
        WithKeyAll(props, PairRank, IndexLimit);
      }
    }
  }

  lemma RankedRest<V>(props: seq<(string, V)>)
    requires props != [] && forall i, j :: 0 <= i < j < |props| ==> Rank(props[i].0) <= Rank(props[j].0)
    ensures var rest := props[1..]; forall i, j :: 0 <= i < j < |rest| ==> Rank(rest[i].0) <= Rank(rest[j].0)
  {
    var rest := props[1..];
    forall i, j | 0 <= i < j < |rest| ensures Rank(rest[i].0) <= Rank(rest[j].0) {
      assert rest[i] == props[i + 1] && rest[j] == props[j + 1];
    }
  }

  /** A leading index is left out of the non-index keys, and out of what follows the leading indices. */
  lemma PastIndex<V>(props: seq<(string, V)>)
    requires props != [] && IsArrayIndex(props[0].0)
    requires WithKey(props[1..], PairRank, IndexLimit) == props[1..][IndexPrefix(props[1..])..]
    ensures WithKey(props, PairRank, IndexLimit) == props[IndexPrefix(props)..]
  {
    var rest := props[1..];
    assert PairRank(props[0]) != IndexLimit;
    assert WithKey(props, PairRank, IndexLimit) == [] + WithKey(rest, PairRank, IndexLimit);
    assert IndexPrefix(props) == 1 + IndexPrefix(rest);
    assert rest[IndexPrefix(rest)..] == props[IndexPrefix(props)..];
  }

  /** In pairs listed by rank, everything after the leading indices has the non-index rank. */
  lemma IndexTail<V>(props: seq<(string, V)>)
    requires forall i, j :: 0 <= i < j < |props| ==> Rank(props[i].0) <= Rank(props[j].0)
    ensures var tail := props[IndexPrefix(props)..];
      forall i :: 0 <= i < |tail| ==> PairRank(tail[i]) == IndexLimit
  {
    var n := IndexPrefix(props);
    var tail := props[n..];
    TailNotIndex(props);
    forall i | 0 <= i < |tail| ensures PairRank(tail[i]) == IndexLimit {
      assert tail[i] == props[n + i];
    }
  }

  /** Leaving out two neighbouring pairs leaves out their two keys. */
  lemma KeysOfWithoutPair<V>(pairs: seq<(string, V)>, n: nat)
    requires n + 2 <= |pairs|
    ensures KeysOf(pairs[..n] + pairs[n + 2..]) == KeysOf(pairs)[..n] + KeysOf(pairs)[n + 2..]
  {
    var rest := pairs[..n] + pairs[n + 2..];
    var keys := KeysOf(pairs);
    var a, b := KeysOf(rest), keys[..n] + keys[n + 2..];
    assert |a| == |b|;
    forall i | 0 <= i < |a| ensures a[i] == b[i] {
      if i < n {
        assert rest[i] == pairs[i] && b[i] == keys[i];
      } else {
        assert rest[i] == pairs[i + 2] && b[i] == keys[i + 2];
      }
    }
  }

  /** Extending the pairs by one extends their keys by its key. */
  lemma KeysOfSnoc<V>(pairs: seq<(string, V)>, i: nat)
    requires i < |pairs|
    ensures KeysOf(pairs[..i + 1]) == KeysOf(pairs[..i]) + [pairs[i].0]
  {
    var after, before := KeysOf(pairs[..i + 1]), KeysOf(pairs[..i]);
    assert |after| == |before| + 1;
    forall j | 0 <= j < |after|
      ensures after[j] == (before + [pairs[i].0])[j]
    {
      assert pairs[..i + 1][j] == pairs[j];
      if j < i {
        assert pairs[..i][j] == pairs[j];
      }
    }
  }

  /** The entries of an object whose own properties were created in the order of `pairs`. */
  function InPropertyOrder<V>(pairs: seq<(string, V)>): seq<(string, V)> {
    SortBy(pairs, PairRank)
  }

  /** The listing is a reordering of the entries, array indices first in ascending order. */
  lemma InPropertyOrderFacts<V>(pairs: seq<(string, V)>)
    ensures var r := InPropertyOrder(pairs);
      multiset(r) == multiset(pairs) && |r| == |pairs|
      && forall i, j :: 0 <= i < j < |r| ==> Rank(r[i].0) <= Rank(r[j].0)
  {
    var r := InPropertyOrder(pairs);
    SortByAscending(pairs, PairRank);
    assert forall i, j :: 0 <= i < j < |r| ==> PairRank(r[i]) <= PairRank(r[j]);
  }

  /** Listing the entries in property order neither adds nor drops one. */
  lemma InPropertyOrderSameEntries<V>(pairs: seq<(string, V)>)
    ensures forall p :: p in InPropertyOrder(pairs) <==> p in pairs
  {
    var r := InPropertyOrder(pairs);
    InPropertyOrderFacts(pairs);
    forall p ensures p in r <==> p in pairs {
      assert p in r <==> p in multiset(r);
    }
  }

  /** One entry is in the property-order listing exactly when it is among the entries. */
  lemma InPropertyOrderMember<V>(pairs: seq<(string, V)>, p: (string, V))
    ensures p in InPropertyOrder(pairs) <==> p in pairs
  {
    InPropertyOrderSameEntries(pairs);
  }

  /** Keys that are not array indices keep their insertion order, and so do entries with the same index. */
  lemma PropertyOrderKeepsInsertionOrder<V>(pairs: seq<(string, V)>, rank: int)
    ensures WithKey(InPropertyOrder(pairs), PairRank, rank) == WithKey(pairs, PairRank, rank)
  {
    SortByStable(pairs, PairRank, rank);
  }

  /** Listing the entries of an object and rebuilding it in that order gives the same listing. */
  lemma PropertyOrderIdempotent<V>(pairs: seq<(string, V)>)
    ensures InPropertyOrder(InPropertyOrder(pairs)) == InPropertyOrder(pairs)
  {
    SortByIdempotent(pairs, PairRank);
  }

  /** Entries already in property order keep their order. */
  lemma RankedKeepOrder<V>(pairs: seq<(string, V)>)
    requires forall i, j :: 0 <= i < j < |pairs| ==> Rank(pairs[i].0) <= Rank(pairs[j].0)
    ensures InPropertyOrder(pairs) == pairs
  {
    assert Ascending(pairs, PairRank) by {
      forall i, j | 0 <= i < j < |pairs| ensures PairRank(pairs[i]) <= PairRank(pairs[j]) {
      }
    }
    SortByAscendingIdentity(pairs, PairRank);
  }

  /** An object without array-index keys lists its entries in insertion order. */
  lemma {:induction false} NoIndexKeysKeepOrder<V>(pairs: seq<(string, V)>)
    requires forall i :: 0 <= i < |pairs| ==> !IsArrayIndex(pairs[i].0)
    ensures InPropertyOrder(pairs) == pairs
  {
    assert Ascending(pairs, PairRank) by {
      forall i, j | 0 <= i < j < |pairs| ensures PairRank(pairs[i]) <= PairRank(pairs[j]) {
        assert Rank(pairs[i].0) == IndexLimit && Rank(pairs[j].0) == IndexLimit;
      }
    }
    SortByAscendingIdentity(pairs, PairRank);
  }

  /** The numeral of every index below 2^32 - 1 is an array-index key. */
  lemma NatKeyIsArrayIndex(n: nat)
    requires n < IndexLimit
    ensures IsArrayIndex(NatToString(n))
  {
    DecimalOfNatToString(n);
  }

  /** The order in which `Object.keys` lists the keys of an object whose properties were created in the order of `keys`. */
  function PropertyKeyOrder(keys: seq<string>): (r: seq<string>)
    ensures multiset(r) == multiset(keys)
    ensures |r| == |keys|
    ensures forall i, j :: 0 <= i < j < |r| ==> Rank(r[i]) <= Rank(r[j])
  {
    var r := SortBy(keys, Rank);
    SortByAscending(keys, Rank);
    assert forall i, j :: 0 <= i < j < |r| ==> Rank(r[i]) <= Rank(r[j]);
    r
  }

  /** Without array-index keys, `Object.keys` lists the keys in creation order. */
  lemma {:induction false} NoIndexKeysKeepKeyOrder(keys: seq<string>)
    requires forall i :: 0 <= i < |keys| ==> !IsArrayIndex(keys[i])
    ensures PropertyKeyOrder(keys) == keys
  {
    assert Ascending(keys, Rank) by {
      forall i, j | 0 <= i < j < |keys| ensures Rank(keys[i]) <= Rank(keys[j]) {
        assert Rank(keys[i]) == IndexLimit && Rank(keys[j]) == IndexLimit;
      }
    }
    SortByAscendingIdentity(keys, Rank);
  }
}
