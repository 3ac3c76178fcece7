/**
 * A stable sort by an integer key, the contract of `Array.prototype.sort`
 * (stable since ECMAScript 2019) with a comparator that subtracts keys.
 */
module StableSort {

  predicate Ascending<T>(s: seq<T>, key: T -> int) {
    forall i, j :: 0 <= i < j < |s| ==> key(s[i]) <= key(s[j])
  }

  /** The elements of `s` whose key is `k`, in their order in `s`. */
  function WithKey<T>(s: seq<T>, key: T -> int, k: int): (r: seq<T>)
    ensures |r| <= |s|
  {
    if s == [] then []
    else (if key(s[0]) == k then [s[0]] else []) + WithKey(s[1..], key, k)
  }

  /** Insertion of `x` before the first element whose key is not smaller. */
  function Insert<T>(x: T, s: seq<T>, key: T -> int): (r: seq<T>)
    ensures |r| == |s| + 1
    ensures multiset(r) == multiset(s) + multiset{x}
  {
    if s == [] || key(x) <= key(s[0]) then [x] + s
    else
      assert s == [s[0]] + s[1..];
      [s[0]] + Insert(x, s[1..], key)
  }

  /** Insertion into an ascending sequence keeps it ascending. */
  lemma {:induction false} InsertAscending<T>(x: T, s: seq<T>, key: T -> int)
    requires Ascending(s, key)
    ensures Ascending(Insert(x, s, key), key)
  {
    if s != [] && key(s[0]) < key(x) {
      InsertAscending(x, s[1..], key);
      InsertedAbove(x, s, Insert(x, s[1..], key), key);
    }
  }

  /** Behind a head whose key is below `x`'s, the insertion into an ascending tail stays ascending. */
  lemma InsertedAbove<T>(x: T, s: seq<T>, t: seq<T>, key: T -> int)
    requires s != [] && key(s[0]) < key(x) && Ascending(s, key)
    requires multiset(t) == multiset(s[1..]) + multiset{x} && Ascending(t, key)
    ensures Ascending([s[0]] + t, key)
  {
    forall i | 0 <= i < |t| ensures key(s[0]) <= key(t[i]) {
      assert t[i] in multiset(t);
      if t[i] != x {
        assert t[i] in multiset(s[1..]);
        var j :| 0 <= j < |s[1..]| && s[1..][j] == t[i];
        assert s[j + 1] == t[i];
      }
    }
  }

  /** The sorted permutation of `s` in which elements with equal keys keep their order. */
  function SortBy<T>(s: seq<T>, key: T -> int): (r: seq<T>)
    ensures |r| == |s|
    ensures multiset(r) == multiset(s)
  {
    if s == [] then []
    else
      assert s == [s[0]] + s[1..];
      Insert(s[0], SortBy(s[1..], key), key)
  }

  /** The result of sorting is ascending in the key. */
  lemma {:induction false} SortByAscending<T>(s: seq<T>, key: T -> int)
    ensures Ascending(SortBy(s, key), key)
  {
    if s != [] {
      SortByAscending(s[1..], key);
      InsertAscending(s[0], SortBy(s[1..], key), key);
    }
  }

  lemma {:induction false} WithKeyAppend<T>(a: seq<T>, b: seq<T>, key: T -> int, k: int)
    ensures WithKey(a + b, key, k) == WithKey(a, key, k) + WithKey(b, key, k)
  {
    if a == [] {
      assert a + b == b;
    } else {
      var head := if key(a[0]) == k then [a[0]] else [];
      assert (a + b)[0] == a[0];
      assert (a + b)[1..] == a[1..] + b;
      WithKeyAppend(a[1..], b, key, k);
      calc {
        WithKey(a + b, key, k);
        head + WithKey(a[1..] + b, key, k);
        head + (WithKey(a[1..], key, k) + WithKey(b, key, k));
        (head + WithKey(a[1..], key, k)) + WithKey(b, key, k);
      }
    }
  }

  /** Inserting `x` into an ascending sequence puts it ahead of every element with its key. */
  lemma {:induction false} InsertWithKey<T>(x: T, s: seq<T>, key: T -> int, k: int)
    requires Ascending(s, key)
    ensures WithKey(Insert(x, s, key), key, k) == (if key(x) == k then [x] else []) + WithKey(s, key, k)
  {
    if s == [] || key(x) <= key(s[0]) {
      if key(x) == k && s != [] && key(x) < key(s[0]) {
        AllAboveHaveNoKey(s, key, k);
      }
      WithKeyAppend([x], s, key, k);
    } else {
      InsertWithKey(x, s[1..], key, k);
      WithKeyAppend([s[0]], Insert(x, s[1..], key), key, k);
      WithKeyAppend([s[0]], s[1..], key, k);
      assert s == [s[0]] + s[1..];
    }
  }

  lemma {:induction false} AllAboveHaveNoKey<T>(s: seq<T>, key: T -> int, k: int)
    requires Ascending(s, key)
    requires s != [] && k < key(s[0])
    ensures WithKey(s, key, k) == []
  {
    if |s| > 1 {
      AllAboveHaveNoKey(s[1..], key, k);
    }
  }

  /** Stability: for every key, the elements with that key appear in the same order before and after sorting. */
  lemma {:induction false} SortByStable<T>(s: seq<T>, key: T -> int, k: int)
    ensures WithKey(SortBy(s, key), key, k) == WithKey(s, key, k)
  {
    if s != [] {
      SortByStable(s[1..], key, k);
      SortByAscending(s[1..], key);
      InsertWithKey(s[0], SortBy(s[1..], key), key, k);
    }
  }

  /** No element has key `k`: nothing is selected. */
  lemma {:induction false} WithKeyNone<T>(s: seq<T>, key: T -> int, k: int)
    requires forall i :: 0 <= i < |s| ==> key(s[i]) != k
    ensures WithKey(s, key, k) == []
  {
    if s != [] {
      WithKeyNone(s[1..], key, k);
    }
  }

  /** Every element has key `k`: everything is selected. */
  lemma {:induction false} WithKeyAll<T>(s: seq<T>, key: T -> int, k: int)
    requires forall i :: 0 <= i < |s| ==> key(s[i]) == k
    ensures WithKey(s, key, k) == s
  {
    if s != [] {
      WithKeyAll(s[1..], key, k);
      assert s == [s[0]] + s[1..];
    }
  }

  /** `x` goes behind a run of elements with smaller keys, ahead of a tail that starts at its key or above. */
  lemma {:induction false} InsertBehind<T>(x: T, a: seq<T>, b: seq<T>, key: T -> int)
    requires forall i :: 0 <= i < |a| ==> key(a[i]) < key(x)
    requires b == [] || key(x) <= key(b[0])
    ensures Insert(x, a + b, key) == a + [x] + b
  {
    if a == [] {
      assert a + b == b && a + [x] + b == [x] + b;
    } else {
      InsertPast(x, a, b, key);
      var tail := a[1..];
      assert forall i :: 0 <= i < |tail| ==> key(tail[i]) < key(x) by {
        forall i | 0 <= i < |tail| ensures key(tail[i]) < key(x) {
          assert tail[i] == a[i + 1];
        }
      }
      InsertBehind(x, tail, b, key);
      Reattach(a, x, b);
    }
  }

  /** `x` passes a first element whose key is smaller. */
  lemma InsertPast<T>(x: T, a: seq<T>, b: seq<T>, key: T -> int)
    requires a != [] && key(a[0]) < key(x)
    ensures Insert(x, a + b, key) == [a[0]] + Insert(x, a[1..] + b, key)
  {
    var ab := a + b;
    assert ab[0] == a[0] && ab[1..] == a[1..] + b;
  }

  lemma Reattach<T>(a: seq<T>, x: T, b: seq<T>)
    requires a != []
    ensures a + [x] + b == [a[0]] + (a[1..] + [x] + b)
  {
    assert a == [a[0]] + a[1..];
  }

  /** Leaving two neighbouring elements out of an ascending sequence keeps it ascending. */
  lemma AscendingWithoutPair<T>(s: seq<T>, n: nat, key: T -> int)
    requires Ascending(s, key) && n + 2 <= |s|
    ensures Ascending(s[..n] + s[n + 2..], key)
  {
    var r := s[..n] + s[n + 2..];
    forall i, j | 0 <= i < j < |r| ensures key(r[i]) <= key(r[j]) {
      var i', j' := if i < n then i else i + 2, if j < n then j else j + 2;
      assert r[i] == s[i'] && r[j] == s[j'];
    }
  }

  /**
   * Two neighbours of an ascending sequence that share a key above every key
   * before them, moved to the front, are sorted back to where they were.
   */
  lemma SortedBackInPlace<T>(s: seq<T>, n: nat, key: T -> int)
    requires Ascending(s, key) && n + 2 <= |s|
    requires forall i :: 0 <= i < n ==> key(s[i]) < key(s[n])
    requires key(s[n]) == key(s[n + 1])
    ensures SortBy([s[n], s[n + 1]] + (s[..n] + s[n + 2..]), key) == s
  {
    var rest := s[..n] + s[n + 2..];
    var y := [s[n], s[n + 1]] + rest;
    AscendingWithoutPair(s, n, key);
    SortByAscendingIdentity(rest, key);
    SortByTwoFront(s[n], s[n + 1], rest, key);
    InsertPairBehind(s, n, key);
  }

  /** Sorting a sequence with two elements in front inserts them, the second one first, into the sorted rest. */
  lemma SortByTwoFront<T>(x: T, y: T, rest: seq<T>, key: T -> int)
    ensures SortBy([x, y] + rest, key) == Insert(x, Insert(y, SortBy(rest, key), key), key)
  {
    var s := [x, y] + rest;
    assert s[0] == x && s[1..] == [y] + rest;
    assert ([y] + rest)[0] == y && ([y] + rest)[1..] == rest;
  }

  /** Inserting the two neighbours back, the second one first, restores the sequence. */
  lemma InsertPairBehind<T>(s: seq<T>, n: nat, key: T -> int)
    requires n + 2 <= |s| && key(s[n]) == key(s[n + 1])
    requires forall i :: 0 <= i < n ==> key(s[i]) < key(s[n])
    requires n + 2 == |s| || key(s[n]) <= key(s[n + 2])
    ensures Insert(s[n], Insert(s[n + 1], s[..n] + s[n + 2..], key), key) == s
  {
    InsertSecond(s, n, key);
    InsertFirst(s, n, key);
  }

  lemma InsertSecond<T>(s: seq<T>, n: nat, key: T -> int)
    requires n + 2 <= |s| && key(s[n]) == key(s[n + 1])
    requires forall i :: 0 <= i < n ==> key(s[i]) < key(s[n])
    requires n + 2 == |s| || key(s[n]) <= key(s[n + 2])
    ensures Insert(s[n + 1], s[..n] + s[n + 2..], key) == s[..n] + s[n + 1..]
  {
    InsertBehind(s[n + 1], s[..n], s[n + 2..], key);
    SplitAt(s, n + 1);
    assert s[..n] + [s[n + 1]] + s[n + 2..] == s[..n] + ([s[n + 1]] + s[n + 2..]);
  }

  lemma InsertFirst<T>(s: seq<T>, n: nat, key: T -> int)
    requires n + 2 <= |s| && key(s[n]) == key(s[n + 1])
    requires forall i :: 0 <= i < n ==> key(s[i]) < key(s[n])
    ensures Insert(s[n], s[..n] + s[n + 1..], key) == s
  {
    InsertBehind(s[n], s[..n], s[n + 1..], key);
    SplitAt(s, n);
    assert s[..n] + [s[n]] + s[n + 1..] == s[..n] + ([s[n]] + s[n + 1..]);
  }

  lemma SplitAt<T>(s: seq<T>, n: nat)
    requires n < |s|
    ensures s[n..] == [s[n]] + s[n + 1..] && s == s[..n] + s[n..]
  {
  }

  /** Sorting a sequence that is already ascending changes nothing. */
  lemma {:induction false} SortByAscendingIdentity<T>(s: seq<T>, key: T -> int)
    requires Ascending(s, key)
    ensures SortBy(s, key) == s
  {
    if s != [] {
      SortByAscendingIdentity(s[1..], key);
      assert s == [s[0]] + s[1..];
    }
  }

  /** Sorting is idempotent. */
  lemma SortByIdempotent<T>(s: seq<T>, key: T -> int)
    ensures SortBy(SortBy(s, key), key) == SortBy(s, key)
  {
    SortByAscending(s, key);
    SortByAscendingIdentity(SortBy(s, key), key);
  }
}
