/**
 * A history kept as an array that is pushed and then, when it exceeds its
 * capacity, shifted once from the front.
 */
module BoundedLogs {

  function Min(a: nat, b: nat): nat {
    if a <= b then a else b
  }

  /** `h.push(e); if (h.length > cap) h.shift();` */
  function Push<T>(h: seq<T>, e: T, cap: nat): (r: seq<T>)
    ensures |h| <= cap ==> |r| <= cap
    ensures |h| < cap ==> r == h + [e]
    ensures |h| >= cap ==> r == (h + [e])[1..]
    ensures r != [] ==> r[|r| - 1] == e
  {
    var pushed := h + [e];
    if |pushed| > cap then pushed[1..] else pushed
  }

  /** Pushing each of `es` in turn. */
  function PushAll<T>(h: seq<T>, es: seq<T>, cap: nat): seq<T>
    decreases |es|
  {
    if es == [] then h else PushAll(Push(h, es[0], cap), es[1..], cap)
  }

  /** Pushing one more element after a run of pushes. */
  lemma {:induction false} PushAllSnoc<T>(h: seq<T>, es: seq<T>, e: T, cap: nat)
    ensures PushAll(h, es + [e], cap) == Push(PushAll(h, es, cap), e, cap)
    decreases |es|
  {
    if es == [] {
      assert es + [e] == [e];
      assert [e][1..] == [];
    } else {
      assert (es + [e])[0] == es[0];
      assert (es + [e])[1..] == es[1..] + [e];
      PushAllSnoc(Push(h, es[0], cap), es[1..], e, cap);
    }
  }

  /** The last `n` elements of `s`. */
  function Last<T>(s: seq<T>, n: nat): seq<T>
    requires n <= |s|
  {
    s[|s| - n..]
  }

  /**
   * A history within its capacity holds, after any run of pushes, exactly the
   * newest `cap` elements of everything pushed, oldest first.
   */
  lemma {:induction false} PushAllKeepsNewest<T>(h: seq<T>, es: seq<T>, cap: nat)
    requires |h| <= cap
    ensures PushAll(h, es, cap) == Last(h + es, Min(cap, |h + es|))
    decreases |es|
  {
    if es == [] {
      assert h + es == h;
    } else {
      var h2 := Push(h, es[0], cap);
      var drop := if |h| < cap then 0 else 1;
      assert h2 == (h + [es[0]])[drop..];
      PushedSuffix(h, es, drop);
      PushAllKeepsNewest(h2, es[1..], cap);
      assert Min(cap, |h + es| - drop) == Min(cap, |h + es|);
      LastOfSuffix(h + es, drop, Min(cap, |h + es|));
    }
  }

  /** Dropping the oldest entries after the first push, then pushing the rest, is dropping them from the whole. */
  lemma PushedSuffix<T>(h: seq<T>, es: seq<T>, drop: nat)
    requires es != [] && drop <= |h| + 1
    ensures (h + [es[0]])[drop..] + es[1..] == (h + es)[drop..]
  {
    assert h + es == (h + [es[0]]) + es[1..];
  }

  /** The newest entries of a suffix are the newest entries of the whole. */
  lemma LastOfSuffix<T>(s: seq<T>, d: nat, n: nat)
    requires d <= |s| && n <= |s| - d
    ensures Last(s[d..], n) == Last(s, n)
  {
  }

  /** Pushes never grow a history that is within its capacity past it. */
  lemma {:induction false} PushAllBounded<T>(h: seq<T>, es: seq<T>, cap: nat)
    requires |h| <= cap
    ensures |PushAll(h, es, cap)| <= cap
    decreases |es|
  {
    if es != [] {
      PushAllBounded(Push(h, es[0], cap), es[1..], cap);
    }
  }

  /**
   * `history.slice(-limit)`: a positive limit keeps the last `limit` entries,
   * a negative one drops the first `-limit`, zero (no limit) keeps all.
   */
  function SliceFromEnd<T>(s: seq<T>, limit: int): (r: seq<T>)
    ensures limit > 0 ==> |r| == Min(limit, |s|) && r == s[|s| - |r|..]
    ensures limit < 0 ==> r == s[Min(-limit, |s|)..]
    ensures limit == 0 ==> r == s
  {
    if limit > 0 then (if limit >= |s| then s else s[|s| - limit..])
    else if limit < 0 then (if -limit >= |s| then [] else s[-limit..])
    else s
  }
}
