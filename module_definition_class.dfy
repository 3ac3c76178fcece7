/**
 * The `ModuleDefinition` object: the defaults of its constructor, `parseSlots`,
 * `validate` with its loops, the path-segment queries, `isCompatibleWith`,
 * `serialize` and `clone`.
 */
module ModuleDefinitionClass {
  import opened Wrappers
  import opened JsValues
  import opened JsStrings
  import opened OrderedMaps
  import opened PropertyOrder
  import opened StableSort
  import opened ModuleDefinitions
  import Entities

  // ---------------------------------------------------------------------------
  // The descriptor the constructor reads
  // ---------------------------------------------------------------------------

  /**
   * The fields of a module descriptor the constructor reads. A missing or empty
   * text field is `""`; `slots` is `Object.entries(data.slots)`, in the property
   * order of the descriptor (empty when `slots` is missing).
   */
  datatype ModuleData = ModuleData(
    moduleId: string, version: string, name: string, description: string, author: string,
    tags: Value, slots: seq<(string, SlotConfig)>,
    layout: Value, styling: Value, behavior: Value, dependencies: Value,
    createdAt: string, updatedAt: string, metadata: Value)

  /** `text || fallback` on a text field. */
  function OrText(text: string, fallback: string): string {
    if text == "" then fallback else text
  }

  /** The own enumerable properties `{...v}` copies: an object's, a string's characters or an array's items by index, none of any other value. */
  function OwnEntries(v: Value): seq<(string, Value)> {
    match v
    case Obj(props) => props
    case Arr(items) => seq(|items|, i requires 0 <= i < |items| => (NatToString(i), items[i]))
    case Str(s) => seq(|s|, i requires 0 <= i < |s| => (NatToString(i), Str([s[i]])))
    case _ => []
  }

  /** Assigning `entries` in turn to an object whose properties are `props`. */
  function Assign(props: seq<(string, Value)>, entries: seq<(string, Value)>): seq<(string, Value)>
    decreases |entries|
  {
    if entries == [] then props else Assign(SetProp(props, entries[0].0, entries[0].1), entries[1..])
  }

  /** `{...v}`: a fresh object holding the own entries of `v`, listed in property order. */
  function Spread(v: Value): seq<(string, Value)> {
    InPropertyOrder(Assign([], OwnEntries(v)))
  }

  /** The property list of an ordinary object: distinct keys, listed in property order. */
  predicate Ordinary(props: seq<(string, Value)>) {
    Distinct(KeysOf(props)) && forall i, j :: 0 <= i < j < |props| ==> Rank(props[i].0) <= Rank(props[j].0)
  }

  /** Setting a key an object does not have appends it. */
  lemma {:induction false} SetPropAppends(props: seq<(string, Value)>, key: string, x: Value)
    requires key !in KeysOf(props)
    ensures SetProp(props, key, x) == props + [(key, x)]
    decreases |props|
  {
    if props != [] {
      assert KeysOf(props) == [props[0].0] + KeysOf(props[1..]);
      SetPropAppends(props[1..], key, x);
      assert props == [props[0]] + props[1..];
    }
  }

  /** Assigning entries with distinct new keys appends them in order. */
  lemma {:induction false} AssignAppends(props: seq<(string, Value)>, entries: seq<(string, Value)>)
    requires Distinct(KeysOf(props + entries))
    ensures Assign(props, entries) == props + entries
    decreases |entries|
  {
    if entries != [] {
      var all := props + entries;
      var k := entries[0].0;
      assert KeysOf(all)[|props|] == k;
      assert k !in KeysOf(props) by {
        forall i | 0 <= i < |props| ensures KeysOf(props)[i] != k {
          assert KeysOf(all)[i] == KeysOf(props)[i];
        }
      }
      SetPropAppends(props, k, entries[0].1);
      var next := props + [entries[0]];
      assert next + entries[1..] == all;
      AssignAppends(next, entries[1..]);
    }
  }

  /** Assigning entries with distinct keys to an empty object gives those entries. */
  lemma AssignFresh(props: seq<(string, Value)>)
    requires Distinct(KeysOf(props))
    ensures Assign([], props) == props
  {
    assert [] + props == props;
    AssignAppends([], props);
  }

  /** Spreading an ordinary object copies its property list unchanged. */
  lemma SpreadCopies(props: seq<(string, Value)>)
    requires Ordinary(props)
    ensures Spread(Obj(props)) == props
  {
    assert OwnEntries(Obj(props)) == props;
    AssignFresh(props);
    assert Assign([], props) == props;
    RankedKeepOrder(props);
  }

  /** The entries of `q` whose keys are not among `ks`, in order. */
  function WithoutKeys(q: seq<(string, Value)>, ks: seq<string>): (r: seq<(string, Value)>)
    ensures |r| <= |q|
  {
    if q == [] then [] else (if q[0].0 in ks then [] else [q[0]]) + WithoutKeys(q[1..], ks)
  }

  lemma {:induction false} WithoutKeysAppend(a: seq<(string, Value)>, b: seq<(string, Value)>, ks: seq<string>)
    ensures WithoutKeys(a + b, ks) == WithoutKeys(a, ks) + WithoutKeys(b, ks)
  {
    if a == [] {
      assert a + b == b;
    } else {
      assert (a + b)[0] == a[0] && (a + b)[1..] == a[1..] + b;
      WithoutKeysAppend(a[1..], b, ks);
    }
  }

  /** Entries whose keys are all outside `ks` are kept as they are. */
  lemma {:induction false} WithoutKeysNone(q: seq<(string, Value)>, ks: seq<string>)
    requires forall i :: 0 <= i < |q| ==> q[i].0 !in ks
    ensures WithoutKeys(q, ks) == q
  {
    if q != [] {
      WithoutKeysNone(q[1..], ks);
      assert q == [q[0]] + q[1..];
    }
  }

  /** Entries whose keys are all among `ks` are all dropped. */
  lemma {:induction false} WithoutKeysAll(q: seq<(string, Value)>, ks: seq<string>)
    requires forall i :: 0 <= i < |q| ==> q[i].0 in ks
    ensures WithoutKeys(q, ks) == []
  {
    if q != [] {
      WithoutKeysAll(q[1..], ks);
    }
  }

  /** `o[key] = x` on the properties `p + r` sets the key where it first occurs. */
  lemma {:induction false} SetPropSplit(p: seq<(string, Value)>, r: seq<(string, Value)>, key: string, x: Value)
    ensures SetProp(p + r, key, x) == if key in KeysOf(p) then SetProp(p, key, x) + r else p + SetProp(r, key, x)
    decreases |p|
  {
    if p == [] {
      assert p + r == r;
    } else {
      var s := p + r;
      assert s[0] == p[0] && s[1..] == p[1..] + r;
      assert KeysOf(p) == [p[0].0] + KeysOf(p[1..]);
      if p[0].0 == key {
        assert SetProp(s, key, x) == [(key, x)] + (p[1..] + r);
        assert SetProp(p, key, x) == [(key, x)] + p[1..];
        assert [(key, x)] + (p[1..] + r) == ([(key, x)] + p[1..]) + r;
      } else {
        assert SetProp(s, key, x) == [p[0]] + SetProp(p[1..] + r, key, x);
        assert SetProp(p, key, x) == [p[0]] + SetProp(p[1..], key, x);
        SetPropSplit(p[1..], r, key, x);
        SplitTail(p, SetProp(p[1..], key, x), r, SetProp(r, key, x));
      }
    }
  }

  /** The two shapes the recursive case of `SetPropSplit` can take, reassociated. */
  lemma SplitTail(p: seq<(string, Value)>, q: seq<(string, Value)>, r: seq<(string, Value)>, t: seq<(string, Value)>)
    requires p != []
    ensures [p[0]] + (q + r) == ([p[0]] + q) + r
    ensures [p[0]] + (p[1..] + t) == p + t
  {
    assert p == [p[0]] + p[1..];
  }

  /** Setting a present key keeps the key list; setting a new key appends it. */
  lemma {:induction false} SetPropKeys(p: seq<(string, Value)>, key: string, x: Value)
    ensures KeysOf(SetProp(p, key, x)) == if key in KeysOf(p) then KeysOf(p) else KeysOf(p) + [key]
  {
    if key !in KeysOf(p) {
      SetPropAppends(p, key, x);
      assert KeysOf(p + [(key, x)]) == KeysOf(p) + [key];
    } else if p[0].0 == key {
      assert KeysOf(p) == [p[0].0] + KeysOf(p[1..]);
      assert SetProp(p, key, x) == [(key, x)] + p[1..];
    } else {
      assert KeysOf(p) == [p[0].0] + KeysOf(p[1..]);
      SetPropKeys(p[1..], key, x);
    }
  }

  /**
   * Assigning entries to an object that starts with the properties `h`, none of
   * whose keys occurs later, keeps `h`'s keys in front and assigns the other
   * entries behind them.
   */
  lemma {:induction false} AssignPastHead(h: seq<(string, Value)>, r: seq<(string, Value)>, q: seq<(string, Value)>)
    requires forall k :: k in KeysOf(r) ==> k !in KeysOf(h)
    ensures |Assign(h + r, q)| >= |h|
    ensures KeysOf(Assign(h + r, q)[..|h|]) == KeysOf(h)
    ensures Assign(h + r, q)[|h|..] == Assign(r, WithoutKeys(q, KeysOf(h)))
    decreases |q|
  {
    var kh := KeysOf(h);
    if q == [] {
      assert (h + r)[..|h|] == h && (h + r)[|h|..] == r;
    } else {
      var (k, x) := q[0];
      var rest := WithoutKeys(q[1..], kh);
      assert Assign(h + r, q) == Assign(SetProp(h + r, k, x), q[1..]);
      SetPropSplit(h, r, k, x);
      if k in kh {
        var h' := SetProp(h, k, x);
        SetPropKeys(h, k, x);
        assert KeysOf(h') == kh && |h'| == |h|;
        assert SetProp(h + r, k, x) == h' + r;
        AssignPastHead(h', r, q[1..]);
        assert WithoutKeys(q, kh) == rest;
      } else {
        var r' := SetProp(r, k, x);
        SetPropKeys(r, k, x);
        assert SetProp(h + r, k, x) == h + r';
        assert forall j :: j in KeysOf(r') ==> j !in kh;
        AssignPastHead(h, r', q[1..]);
        assert WithoutKeys(q, kh) == [q[0]] + rest;
        assert ([q[0]] + rest)[1..] == rest;
        assert Assign(r, [q[0]] + rest) == Assign(r', rest);
      }
    }
  }

  /** Assigning to an object with distinct keys keeps them distinct. */
  lemma {:induction false} AssignDistinct(p: seq<(string, Value)>, q: seq<(string, Value)>)
    requires Distinct(KeysOf(p))
    ensures Distinct(KeysOf(Assign(p, q)))
    decreases |q|
  {
    if q != [] {
      SetPropKeys(p, q[0].0, q[0].1);
      AssignDistinct(SetProp(p, q[0].0, q[0].1), q[1..]);
    }
  }

  /** After assigning entries with distinct keys, a key they hold has their value, and any other key keeps its own. */
  lemma {:induction false} AssignLookup(p: seq<(string, Value)>, q: seq<(string, Value)>, k: string)
    requires Distinct(KeysOf(q))
    ensures Lookup(Assign(p, q), k) == if k in KeysOf(q) then Lookup(q, k) else Lookup(p, k)
    decreases |q|
  {
    if q != [] {
      assert KeysOf(q) == [q[0].0] + KeysOf(q[1..]);
      AssignLookup(SetProp(p, q[0].0, q[0].1), q[1..], k);
    }
  }

  /** In a property list with distinct keys, looking up an entry's key finds that entry's value. */
  lemma {:induction false} LookupAt(s: seq<(string, Value)>, i: nat)
    requires i < |s| && Distinct(KeysOf(s))
    ensures Lookup(s, s[i].0) == s[i].1
  {
    if i > 0 {
      assert KeysOf(s)[0] != KeysOf(s)[i];
      assert KeysOf(s[1..]) == KeysOf(s)[1..];
      LookupAt(s[1..], i - 1);
    }
  }

  /** The constructor's metadata object: `createdAt` and `updatedAt` (now when missing), then the spread of `data.metadata`. */
  function Stamped(data: ModuleData, now: string): Value {
    var base := [("createdAt", Str(OrText(data.createdAt, now))), ("updatedAt", Str(OrText(data.updatedAt, now)))];
    Obj(InPropertyOrder(Assign(base, OwnEntries(data.metadata))))
  }

  /** The two stamp keys are no array indices. */
  lemma StampKeysNotIndices()
    ensures !IsArrayIndex("createdAt") && !IsArrayIndex("updatedAt")
  {
    assert !IsDigit("createdAt"[0]) && !IsDigit("updatedAt"[0]);
  }

  /**
   * The shape of the constructor's metadata: an ordinary object whose first
   * keys after its array indices are `createdAt` and then `updatedAt`.
   */
  predicate StampedShape(v: Value) {
    v.Obj? && Ordinary(v.props)
    && var n := IndexPrefix(v.props);
    n + 2 <= |v.props| && v.props[n].0 == "createdAt" && v.props[n + 1].0 == "updatedAt"
  }

  /** Assigning entries to the two stamps keeps the stamps first and the keys distinct. */
  lemma StampsStayFirst(base: seq<(string, Value)>, entries: seq<(string, Value)>)
    requires |base| == 2 && base[0].0 == "createdAt" && base[1].0 == "updatedAt"
    ensures var x := Assign(base, entries);
      |x| >= 2 && x[0].0 == "createdAt" && x[1].0 == "updatedAt" && Distinct(KeysOf(x))
  {
    assert KeysOf(base) == ["createdAt", "updatedAt"];
    assert base + [] == base;
    AssignPastHead(base, [], entries);
    var x := Assign(base, entries);
    assert KeysOf(x[..2]) == ["createdAt", "updatedAt"];
    assert x[0] == x[..2][0] && x[1] == x[..2][1];
    AssignDistinct(base, entries);
  }

  /** Listing in property order an object whose first keys are the two stamps gives the stamped shape. */
  lemma OrderedStampsShape(x: seq<(string, Value)>)
    requires |x| >= 2 && x[0].0 == "createdAt" && x[1].0 == "updatedAt" && Distinct(KeysOf(x))
    ensures StampedShape(Obj(InPropertyOrder(x)))
  {
    var m := InPropertyOrder(x);
    OrderedIsOrdinary(x);
    NonIndexTail(m);
    SortByStable(x, PairRank, IndexLimit);
    StampsLead(x);
    var n := IndexPrefix(m);
    var w := WithKey(x, PairRank, IndexLimit);
    assert m[n..] == w;
    assert m[n] == w[0] && m[n + 1] == w[1];
  }

  /** Property order keeps distinct keys distinct and ranks them ascending. */
  lemma OrderedIsOrdinary(x: seq<(string, Value)>)
    requires Distinct(KeysOf(x))
    ensures Ordinary(InPropertyOrder(x))
  {
    ReorderedKeysDistinct(x);
    InPropertyOrderFacts(x);
  }

  /** The two stamps lead the entries whose keys are no array indices. */
  lemma StampsLead(x: seq<(string, Value)>)
    requires |x| >= 2 && x[0].0 == "createdAt" && x[1].0 == "updatedAt"
    ensures var w := WithKey(x, PairRank, IndexLimit);
      |w| >= 2 && w[0] == x[0] && w[1] == x[1]
  {
    StampKeysNotIndices();
    assert x == x[..2] + x[2..];
    WithKeyAppend(x[..2], x[2..], PairRank, IndexLimit);
    WithKeyAll(x[..2], PairRank, IndexLimit);
  }

  /** The constructor's metadata has the stamped shape: the stamps stay first among the non-index keys. */
  lemma StampedHasShape(data: ModuleData, now: string)
    ensures StampedShape(Stamped(data, now))
  {
    var base := [("createdAt", Str(OrText(data.createdAt, now))), ("updatedAt", Str(OrText(data.updatedAt, now)))];
    StampsStayFirst(base, OwnEntries(data.metadata));
    OrderedStampsShape(Assign(base, OwnEntries(data.metadata)));
  }

  /** What the stamped shape says about the positions of the stamps, in the terms the lemmas below use. */
  lemma StampPositions(m: seq<(string, Value)>)
    requires StampedShape(Obj(m))
    ensures var n := IndexPrefix(m);
      && Distinct(KeysOf(m)) && Ascending(m, PairRank)
      && (forall i :: 0 <= i < n ==> m[i].0 != "createdAt" && m[i].0 != "updatedAt" && PairRank(m[i]) < PairRank(m[n]))
      && PairRank(m[n]) == PairRank(m[n + 1])
  {
    StampKeysNotIndices();
  }

  /** Taking the two stamps out of properties with distinct keys leaves the others, in order. */
  lemma WithoutStamps(m: seq<(string, Value)>, n: nat)
    requires n + 2 <= |m| && m[n].0 == "createdAt" && m[n + 1].0 == "updatedAt" && Distinct(KeysOf(m))
    requires forall i :: 0 <= i < n ==> m[i].0 != "createdAt" && m[i].0 != "updatedAt"
    ensures var rest := m[..n] + m[n + 2..];
      WithoutKeys(m, ["createdAt", "updatedAt"]) == rest && Distinct(KeysOf(rest))
  {
    StampsNotInTail(m, n);
    DropPair(m, n, ["createdAt", "updatedAt"]);
    DistinctWithoutPair(KeysOf(m), n);
    KeysOfWithoutPair(m, n);
  }

  /** With distinct keys, neither stamp occurs again after the pair. */
  lemma StampsNotInTail(m: seq<(string, Value)>, n: nat)
    requires n + 2 <= |m| && m[n].0 == "createdAt" && m[n + 1].0 == "updatedAt" && Distinct(KeysOf(m))
    ensures forall i :: n + 2 <= i < |m| ==> m[i].0 != "createdAt" && m[i].0 != "updatedAt"
  {
    forall i | n + 2 <= i < |m| ensures m[i].0 != "createdAt" && m[i].0 != "updatedAt" {
      assert KeysOf(m)[i] != KeysOf(m)[n] && KeysOf(m)[i] != KeysOf(m)[n + 1];
    }
  }

  /** Dropping the keys `ks` where only two neighbouring pairs hold them leaves the pairs around them. */
  lemma DropPair(m: seq<(string, Value)>, n: nat, ks: seq<string>)
    requires n + 2 <= |m| && m[n].0 in ks && m[n + 1].0 in ks
    requires forall i :: 0 <= i < n ==> m[i].0 !in ks
    requires forall i :: n + 2 <= i < |m| ==> m[i].0 !in ks
    ensures WithoutKeys(m, ks) == m[..n] + m[n + 2..]
  {
    var head, pair, tail := m[..n], m[n..n + 2], m[n + 2..];
    calc {
      WithoutKeys(m, ks);
      { ThreeParts(m, n); }
      WithoutKeys(head + (pair + tail), ks);
      { WithoutKeysAppend(head, pair + tail, ks); }
      WithoutKeys(head, ks) + WithoutKeys(pair + tail, ks);
      { WithoutKeysAppend(pair, tail, ks); }
      WithoutKeys(head, ks) + (WithoutKeys(pair, ks) + WithoutKeys(tail, ks));
      { HeadKept(m, n, ks); PairDropped(m, n, ks); TailKept(m, n, ks); }
      head + ([] + tail);
      { assert [] + tail == tail; }
      head + tail;
    }
  }

  lemma HeadKept(m: seq<(string, Value)>, n: nat, ks: seq<string>)
    requires n <= |m|
    requires forall i :: 0 <= i < n ==> m[i].0 !in ks
    ensures WithoutKeys(m[..n], ks) == m[..n]
  {
    var head := m[..n];
    assert forall i :: 0 <= i < |head| ==> head[i] == m[i];
    WithoutKeysNone(head, ks);
  }

  lemma ThreeParts<T>(m: seq<T>, n: nat)
    requires n + 2 <= |m|
    ensures m == m[..n] + (m[n..n + 2] + m[n + 2..])
  {
    assert m == m[..n] + m[n..];
    assert m[n..] == m[n..n + 2] + m[n + 2..];
  }

  lemma PairDropped(m: seq<(string, Value)>, n: nat, ks: seq<string>)
    requires n + 2 <= |m| && m[n].0 in ks && m[n + 1].0 in ks
    ensures WithoutKeys(m[n..n + 2], ks) == []
  {
    var pair := m[n..n + 2];
    assert pair[0] == m[n] && pair[1] == m[n + 1];
    WithoutKeysAll(pair, ks);
  }

  lemma TailKept(m: seq<(string, Value)>, n: nat, ks: seq<string>)
    requires n + 2 <= |m|
    requires forall i :: n + 2 <= i < |m| ==> m[i].0 !in ks
    ensures WithoutKeys(m[n + 2..], ks) == m[n + 2..]
  {
    var tail := m[n + 2..];
    assert forall i :: 0 <= i < |tail| ==> tail[i] == m[n + 2 + i];
    WithoutKeysNone(tail, ks);
  }

  /** Assigning properties that hold both stamps to the two stamps moves them, with their values, in front of the rest. */
  lemma StampsAssigned(base: seq<(string, Value)>, m: seq<(string, Value)>, n: nat)
    requires |base| == 2 && base[0].0 == "createdAt" && base[1].0 == "updatedAt"
    requires n + 2 <= |m| && m[n].0 == "createdAt" && m[n + 1].0 == "updatedAt" && Distinct(KeysOf(m))
    requires forall i :: 0 <= i < n ==> m[i].0 != "createdAt" && m[i].0 != "updatedAt"
    ensures Assign(base, m) == [m[n], m[n + 1]] + (m[..n] + m[n + 2..])
  {
    var y := Assign(base, m);
    StampsInFront(base, m);
    StampValues(base, m, n);
    WithoutStamps(m, n);
    AssignFresh(m[..n] + m[n + 2..]);
    assert y == [y[0], y[1]] + y[2..];
  }

  /** Assigning any entries to the two stamps keeps them in front and assigns the other entries behind them. */
  lemma StampsInFront(base: seq<(string, Value)>, m: seq<(string, Value)>)
    requires |base| == 2 && base[0].0 == "createdAt" && base[1].0 == "updatedAt"
    ensures var y := Assign(base, m);
      |y| >= 2 && y[0].0 == "createdAt" && y[1].0 == "updatedAt"
      && y[2..] == Assign([], WithoutKeys(m, ["createdAt", "updatedAt"]))
  {
    var y := Assign(base, m);
    assert KeysOf(base) == ["createdAt", "updatedAt"];
    assert base + [] == base;
    AssignPastHead(base, [], m);
    assert KeysOf(y[..2]) == ["createdAt", "updatedAt"];
    assert y[0] == y[..2][0] && y[1] == y[..2][1];
  }

  /** The stamps in front take the values the assigned entries give them. */
  lemma StampValues(base: seq<(string, Value)>, m: seq<(string, Value)>, n: nat)
    requires |base| == 2 && base[0].0 == "createdAt" && base[1].0 == "updatedAt"
    requires n + 2 <= |m| && m[n].0 == "createdAt" && m[n + 1].0 == "updatedAt" && Distinct(KeysOf(m))
    ensures var y := Assign(base, m); |y| >= 2 && y[0] == m[n] && y[1] == m[n + 1]
  {
    var y := Assign(base, m);
    StampsInFront(base, m);
    assert KeysOf(m)[n] == "createdAt" && KeysOf(m)[n + 1] == "updatedAt";
    AssignLookup(base, m, "createdAt");
    AssignLookup(base, m, "updatedAt");
    LookupAt(m, n);
    LookupAt(m, n + 1);
    assert Lookup(y, "createdAt") == y[0].1;
    assert Lookup(y, "updatedAt") == Lookup(y[1..], "updatedAt") == y[1].1;
  }

  /**
   * Stamping a descriptor whose metadata is the spread of stamped-shape metadata
   * gives that metadata back: the spread overwrites both fresh stamps in place,
   * and property order puts the array indices back in front.
   */
  lemma RestampedMetadata(meta: Value, data: ModuleData, now: string)
    requires StampedShape(meta) && data.metadata == Obj(Spread(meta))
    ensures Stamped(data, now) == meta
  {
    var base := [("createdAt", Str(OrText(data.createdAt, now))), ("updatedAt", Str(OrText(data.updatedAt, now)))];
    var m := meta.props;
    var n := IndexPrefix(m);
    SpreadCopies(m);
    assert OwnEntries(data.metadata) == m;
    StampPositions(m);
    StampsAssigned(base, m, n);
    SortedBackInPlace(m, n, PairRank);
  }

  /** The error `[...v]` throws when `v` is not iterable. */
  const NotIterable: string := "TypeError: object is not iterable"

  /** `[...v]`: the items of an array, the characters of a string; any other value throws. */
  function ArraySpread(v: Value): (r: Result<seq<Value>>)
    ensures r.Ok? <==> v.Arr? || v.Str?
    ensures v.Arr? ==> r == Ok(v.items)
    ensures v.Str? ==> |r.value| == |v.s| && forall i :: 0 <= i < |v.s| ==> r.value[i] == Str([v.s[i]])
  {
    match v
    case Arr(items) => Ok(items)
    case Str(s) => Ok(seq(|s|, i requires 0 <= i < |s| => Str([s[i]])))
    case _ => Err(NotIterable)
  }

  /** Whether `[...v]` succeeds. */
  predicate Iterable(v: Value) {
    v.Arr? || v.Str?
  }

  /**
   * `slot.serialize()`: the fields as they are, except that `validation` and
   * `metadata` are spread into new objects and `options` into a new array,
   * which throws when the options are not iterable.
   */
  function SerializeSlot(s: SlotDefinition): (r: Result<SlotConfig>)
    ensures r.Ok? <==> Iterable(s.options)
    ensures r.Err? ==> r.message == NotIterable
  {
    match ArraySpread(s.options)
    case Err(e) => Err(e)
    case Ok(items) =>
      Ok(SlotConfig(s.path, s.slotType, Bool(s.editable), s.required, s.defaultValue, s.placeholder, s.labelText,
                    s.description, Obj(Spread(s.validation)), Arr(items), Obj(Spread(s.metadata))))
  }

  /** A value that `{...v}` copies as it is: an ordinary object. */
  predicate PlainObject(v: Value) {
    v.Obj? && Ordinary(v.props)
  }

  /** A slot its serialisation copies exactly: array options, plain validation and metadata objects. */
  predicate Copyable(s: SlotDefinition) {
    s.options.Arr? && PlainObject(s.validation) && PlainObject(s.metadata)
  }

  /** A slot built from the serialisation of a settled, copyable slot is the same slot. */
  lemma SlotRoundTrip(s: SlotDefinition)
    requires Settled(s) && Copyable(s)
    ensures SerializeSlot(s).Ok? && NewSlot(s.name, SerializeSlot(s).value) == s
  {
    SpreadCopies(s.validation.props);
    SpreadCopies(s.metadata.props);
  }

  /**
   * What serialising does to the other option values: a string becomes the
   * array of its characters, and anything else that is not an array throws.
   */
  lemma SlotOptionsSpread(s: SlotDefinition)
    ensures s.options.Str? ==>
      SerializeSlot(s).Ok?
      && SerializeSlot(s).value.options == Arr(seq(|s.options.s|, i requires 0 <= i < |s.options.s| => Str([s.options.s[i]])))
    ensures !s.options.Arr? && !s.options.Str? ==> SerializeSlot(s) == Err(NotIterable)
  {
  }

  // ---------------------------------------------------------------------------
  // Parsing the slots
  // ---------------------------------------------------------------------------

  /** `parseSlots(entries)` on the map `base`: each entry is set in turn, a later one replacing an earlier one of the same name. */
  function ParsedSlots(base: OMap<string, SlotDefinition>, entries: seq<(string, SlotConfig)>): (r: OMap<string, SlotDefinition>)
    ensures base.Valid() ==> r.Valid()
    ensures Kept(base) ==> Kept(r)
    decreases |entries|
  {
    if entries == [] then base
    else
      var (name, config) := entries[|entries| - 1];
      ParsedSlots(base, entries[..|entries| - 1]).Put(name, NewSlot(name, config))
  }

  /** `ParsedSlots` one entry further. */
  lemma ParsedSlotsStep(base: OMap<string, SlotDefinition>, entries: seq<(string, SlotConfig)>, i: nat)
    requires i < |entries|
    ensures ParsedSlots(base, entries[..i + 1]) == ParsedSlots(base, entries[..i]).Put(entries[i].0, NewSlot(entries[i].0, entries[i].1))
  {
    assert entries[..i + 1][..i] == entries[..i];
  }

  /** A slot as the module keeps it: under its own name, with the slot constructor's defaults applied. */
  ghost predicate Kept(slots: OMap<string, SlotDefinition>) {
    slots.Valid() && forall k :: k in slots.entries ==> slots.entries[k].name == k && Settled(slots.entries[k])
  }

  /**
   * The parsed map holds the base's names and every entry's name, and each
   * name maps to the base's slot or to the slot built from an entry of that name.
   */
  lemma {:induction false} ParsedSlotsContents(base: OMap<string, SlotDefinition>, entries: seq<(string, SlotConfig)>)
    ensures var r := ParsedSlots(base, entries);
      forall k :: k in r.entries <==> k in base.entries || exists i :: 0 <= i < |entries| && entries[i].0 == k
    ensures var r := ParsedSlots(base, entries);
      forall k :: k in r.entries ==>
        (k in base.entries && r.entries[k] == base.entries[k])
        || exists i :: 0 <= i < |entries| && entries[i].0 == k && r.entries[k] == NewSlot(k, entries[i].1)
    decreases |entries|
  {
    if entries != [] {
      var init, last := entries[..|entries| - 1], |entries| - 1;
      var name, config := entries[last].0, entries[last].1;
      ParsedSlotsContents(base, init);
      var before, r := ParsedSlots(base, init), ParsedSlots(base, entries);
      ParsedSlotsLast(base, entries);
      NamedSnoc(base.entries, before.entries, r.entries, entries);
      BuiltSnoc(base.entries, before.entries, r.entries, entries);
    }
  }

  /** The last entry sets its slot over the slots the earlier ones built. */
  lemma ParsedSlotsLast(base: OMap<string, SlotDefinition>, entries: seq<(string, SlotConfig)>)
    requires entries != []
    ensures var last := entries[|entries| - 1];
      ParsedSlots(base, entries).entries == ParsedSlots(base, entries[..|entries| - 1]).entries[last.0 := NewSlot(last.0, last.1)]
  {
  }

  /** The names after one more entry: those before it and the entry's own. */
  lemma NamedSnoc(base: map<string, SlotDefinition>, before: map<string, SlotDefinition>, after: map<string, SlotDefinition>,
                  entries: seq<(string, SlotConfig)>)
    requires entries != []
    requires var init := entries[..|entries| - 1];
      forall k :: k in before <==> k in base || exists i :: 0 <= i < |init| && init[i].0 == k
    requires after.Keys == before.Keys + {entries[|entries| - 1].0}
    ensures forall k :: k in after <==> k in base || exists i :: 0 <= i < |entries| && entries[i].0 == k
  {
    var init, last := entries[..|entries| - 1], |entries| - 1;
    forall k ensures k in after <==> k in base || exists i :: 0 <= i < |entries| && entries[i].0 == k {
      if k != entries[last].0 && exists i :: 0 <= i < |entries| && entries[i].0 == k {
        var i :| 0 <= i < |entries| && entries[i].0 == k;
        assert init[i] == entries[i];
      }
    }
  }

  /** The slots after one more entry: the entry's own under its name, the earlier ones elsewhere. */
  lemma BuiltSnoc(base: map<string, SlotDefinition>, before: map<string, SlotDefinition>, after: map<string, SlotDefinition>,
                  entries: seq<(string, SlotConfig)>)
    requires entries != []
    requires var init := entries[..|entries| - 1];
      forall k :: k in before ==>
        (k in base && before[k] == base[k])
        || exists i :: 0 <= i < |init| && init[i].0 == k && before[k] == NewSlot(k, init[i].1)
    requires var last := entries[|entries| - 1];
      after == before[last.0 := NewSlot(last.0, last.1)]
    ensures forall k :: k in after ==>
        (k in base && after[k] == base[k])
        || exists i :: 0 <= i < |entries| && entries[i].0 == k && after[k] == NewSlot(k, entries[i].1)
  {
    var init, last := entries[..|entries| - 1], |entries| - 1;
    forall k | k in after
      ensures (k in base && after[k] == base[k])
              || exists i :: 0 <= i < |entries| && entries[i].0 == k && after[k] == NewSlot(k, entries[i].1)
    {
      if k == entries[last].0 {
        assert entries[last].0 == k && after[k] == NewSlot(k, entries[last].1);
      } else if !(k in base && before[k] == base[k]) {
        var i :| 0 <= i < |init| && init[i].0 == k && before[k] == NewSlot(k, init[i].1);
        assert entries[i] == init[i];
      }
    }
  }

  /** Entries with distinct names are set in their order. */
  lemma {:induction false} ParsedSlotsKeys(entries: seq<(string, SlotConfig)>)
    requires Distinct(KeysOf(entries))
    ensures ParsedSlots(EmptyMap(), entries).keys == KeysOf(entries)
    decreases |entries|
  {
    if entries != [] {
      var init := entries[..|entries| - 1];
      var name := entries[|entries| - 1].0;
      KeysOfSnoc(entries, |entries| - 1);
      assert entries[..|entries|] == entries;
      ParsedSlotsKeys(init);
      ParsedSlotsContents(EmptyMap(), init);
      assert name !in ParsedSlots(EmptyMap(), init).entries by {
        forall i | 0 <= i < |init| ensures init[i].0 != name {
          assert KeysOf(entries)[i] == init[i].0;
          assert KeysOf(entries)[|entries| - 1] == name;
        }
      }
    }
  }

  // ---------------------------------------------------------------------------
  // Serialisation
  // ---------------------------------------------------------------------------

  /** Whether every slot of the map serialises. */
  predicate SlotsSerialize(entries: map<string, SlotDefinition>) {
    forall k :: k in entries ==> Iterable(entries[k].options)
  }

  /** The loop of `serialize()` over the slots: each slot's serialisation under its name, or the first error. */
  method ListSlots(keys: seq<string>, entries: map<string, SlotDefinition>) returns (r: Result<seq<(string, SlotConfig)>>)
    requires forall k :: k in entries <==> k in keys
    ensures r.Ok? <==> SlotsSerialize(entries)
    ensures r.Err? ==> r.message == NotIterable
    ensures r.Ok? ==> r.value == Listing(keys, entries)
  {
    var listing: seq<(string, SlotConfig)> := [];
    var i := 0;
    while i < |keys|
      invariant 0 <= i <= |keys|
      invariant forall j :: 0 <= j < i ==> Iterable(entries[keys[j]].options)
      invariant listing == Listing(keys[..i], entries)
    {
      var config := SerializeSlot(entries[keys[i]]);
      if config.Err? {
        return Err(config.message);
      }
      ListingSnoc(keys, entries, i);
      listing := listing + [(keys[i], config.value)];
      i := i + 1;
    }
    assert keys[..i] == keys;
    assert SlotsSerialize(entries) by {
      forall k | k in entries ensures Iterable(entries[k].options) {
        var j :| 0 <= j < |keys| && keys[j] == k;
      }
    }
    return Ok(listing);
  }

  /** The listing of one more key ends with that key's serialisation. */
  lemma ListingSnoc(keys: seq<string>, entries: map<string, SlotDefinition>, i: nat)
    requires i < |keys| && forall k :: k in keys[..i + 1] ==> k in entries && Iterable(entries[k].options)
    ensures Listing(keys[..i + 1], entries) == Listing(keys[..i], entries) + [(keys[i], SerializeSlot(entries[keys[i]]).value)]
  {
    assert keys[..i + 1] == keys[..i] + [keys[i]];
  }

  /** Whether every slot of the map is copied exactly. */
  predicate SlotsCopyable(entries: map<string, SlotDefinition>) {
    SlotsSerialize(entries) && forall k :: k in entries ==> Copyable(entries[k])
  }

  /** The slot listing `serialize` builds, one entry per slot in map order. */
  function Listing(keys: seq<string>, entries: map<string, SlotDefinition>): (r: seq<(string, SlotConfig)>)
    requires forall k :: k in keys ==> k in entries && Iterable(entries[k].options)
  {
    seq(|keys|, i requires 0 <= i < |keys| => (keys[i], SerializeSlot(entries[keys[i]]).value))
  }

  /** The multiplicity of a value in a sequence without repetitions is at most one, and exactly one for its members. */
  lemma {:induction false} DistinctCount<T>(s: seq<T>, x: T)
    requires Distinct(s)
    ensures multiset(s)[x] == if x in s then 1 else 0
  {
    AtMostOnce(s, x);
  }

  /** Reordering pairs whose keys are distinct keeps the keys distinct. */
  lemma KeysStayDistinct<V>(a: seq<(string, V)>, b: seq<(string, V)>)
    requires Distinct(KeysOf(a)) && multiset(a) == multiset(b)
    ensures Distinct(KeysOf(b))
  {
    assert Distinct(a) by {
      forall i, j | 0 <= i < j < |a| ensures a[i] != a[j] {
        assert KeysOf(a)[i] != KeysOf(a)[j];
      }
    }
    DistinctPermutation(a, b);
    forall i, j | 0 <= i < j < |b| ensures KeysOf(b)[i] != KeysOf(b)[j] {
      assert b[i] in multiset(a) && b[j] in multiset(a);
      var x :| 0 <= x < |a| && a[x] == b[i];
      var y :| 0 <= y < |a| && a[y] == b[j];
      if x != y {
        assert KeysOf(a)[x] != KeysOf(a)[y];
      }
    }
  }

  /** The listing of a map has one entry per key, and its property-order reordering keeps the keys distinct. */
  lemma SortedListing(slots: OMap<string, SlotDefinition>)
    requires slots.Valid() && SlotsSerialize(slots.entries)
    ensures KeysOf(Listing(slots.keys, slots.entries)) == slots.keys
    ensures Distinct(KeysOf(InPropertyOrder(Listing(slots.keys, slots.entries))))
  {
    var listing := Listing(slots.keys, slots.entries);
    ListingKeys(slots.keys, slots.entries);
    ReorderedKeysDistinct(listing);
  }

  /** The listing has the keys it was built from, in their order. */
  lemma ListingKeys(keys: seq<string>, entries: map<string, SlotDefinition>)
    requires forall k :: k in keys ==> k in entries && Iterable(entries[k].options)
    ensures KeysOf(Listing(keys, entries)) == keys
  {
    var listing := Listing(keys, entries);
    assert forall i :: 0 <= i < |keys| ==> KeysOf(listing)[i] == keys[i];
  }

  /** Reordering a listing with distinct keys into property order keeps the keys distinct. */
  lemma ReorderedKeysDistinct<V>(listing: seq<(string, V)>)
    requires Distinct(KeysOf(listing))
    ensures Distinct(KeysOf(InPropertyOrder(listing)))
  {
    InPropertyOrderFacts(listing);
    KeysStayDistinct(listing, InPropertyOrder(listing));
  }

  /** Every slot read back from the reordered listing of a kept map is the map's slot of that name. */
  lemma ReadBackSlots(slots: OMap<string, SlotDefinition>)
    requires Kept(slots) && SlotsCopyable(slots.entries)
    ensures var back := ParsedSlots(EmptyMap(), InPropertyOrder(Listing(slots.keys, slots.entries)));
      forall k :: k in back.entries ==> k in slots.entries && back.entries[k] == slots.entries[k]
  {
    var listing := Listing(slots.keys, slots.entries);
    var sorted := InPropertyOrder(listing);
    ListedSlots(slots);
    ReorderedKeeps(listing, (p: (string, SlotConfig)) => p.0 in slots.entries && NewSlot(p.0, p.1) == slots.entries[p.0]);
    ParsedFromSlots(slots.entries, sorted);
  }

  /** Every entry of the listing of a kept map rebuilds the map's slot of that name. */
  lemma ListedSlots(slots: OMap<string, SlotDefinition>)
    requires Kept(slots) && SlotsCopyable(slots.entries)
    ensures forall p :: p in Listing(slots.keys, slots.entries) ==> p.0 in slots.entries && NewSlot(p.0, p.1) == slots.entries[p.0]
  {
    forall p | p in Listing(slots.keys, slots.entries)
      ensures p.0 in slots.entries && NewSlot(p.0, p.1) == slots.entries[p.0]
    {
      ListedSlot(slots, p);
    }
  }

  /** What holds of every entry holds of every entry of the property-order reordering. */
  lemma ReorderedKeeps<V>(pairs: seq<(string, V)>, holds: ((string, V)) -> bool)
    requires forall p :: p in pairs ==> holds(p)
    ensures forall p :: p in InPropertyOrder(pairs) ==> holds(p)
  {
    forall p | p in InPropertyOrder(pairs) ensures holds(p) {
      InPropertyOrderMember(pairs, p);
    }
  }

  /** Parsing entries each of which rebuilds the slot of its name in `slots` gives slots of `slots`. */
  lemma ParsedFromSlots(slots: map<string, SlotDefinition>, entries: seq<(string, SlotConfig)>)
    requires forall p :: p in entries ==> p.0 in slots && NewSlot(p.0, p.1) == slots[p.0]
    ensures var back := ParsedSlots(EmptyMap(), entries);
      forall k :: k in back.entries ==> k in slots && back.entries[k] == slots[k]
  {
    var back := ParsedSlots(EmptyMap(), entries);
    ParsedSlotsContents(EmptyMap(), entries);
    forall k | k in back.entries ensures k in slots && back.entries[k] == slots[k] {
      var i :| 0 <= i < |entries| && entries[i].0 == k && back.entries[k] == NewSlot(k, entries[i].1);
      assert entries[i] in entries;
    }
  }

  /** An entry of the listing of a kept map rebuilds the map's slot of that name. */
  lemma ListedSlot(slots: OMap<string, SlotDefinition>, p: (string, SlotConfig))
    requires Kept(slots) && SlotsCopyable(slots.entries) && p in Listing(slots.keys, slots.entries)
    ensures p.0 in slots.entries && NewSlot(p.0, p.1) == slots.entries[p.0]
  {
    var listing := Listing(slots.keys, slots.entries);
    var a :| 0 <= a < |listing| && listing[a] == p;
    SlotRoundTrip(slots.entries[p.0]);
  }

  /** Every name of a map is read back from the reordered listing. */
  lemma ReadBackNames(slots: OMap<string, SlotDefinition>)
    requires slots.Valid() && SlotsSerialize(slots.entries)
    ensures var back := ParsedSlots(EmptyMap(), InPropertyOrder(Listing(slots.keys, slots.entries)));
      forall k :: k in slots.entries ==> k in back.entries
  {
    var listing := Listing(slots.keys, slots.entries);
    var sorted := InPropertyOrder(listing);
    SortedListing(slots);
    InPropertyOrderSameEntries(listing);
    SameMembersSameKeys(listing, sorted);
    ParsedNames(slots.entries, sorted);
  }

  /** Pair lists with the same members have the same keys. */
  lemma SameMembersSameKeys<V>(a: seq<(string, V)>, b: seq<(string, V)>)
    requires forall p :: p in b <==> p in a
    ensures forall k :: k in KeysOf(a) ==> k in KeysOf(b)
  {
    forall k | k in KeysOf(a) ensures k in KeysOf(b) {
      var x :| 0 <= x < |a| && KeysOf(a)[x] == k;
      assert a[x] in b;
      var y :| 0 <= y < |b| && b[y] == a[x];
      assert KeysOf(b)[y] == k;
    }
  }

  /** Parsing entries names every key it is given. */
  lemma ParsedNames(slots: map<string, SlotDefinition>, entries: seq<(string, SlotConfig)>)
    requires forall k :: k in slots ==> k in KeysOf(entries)
    ensures forall k :: k in slots ==> k in ParsedSlots(EmptyMap(), entries).entries
  {
    ParsedSlotsContents(EmptyMap(), entries);
    forall k | k in slots ensures exists i :: 0 <= i < |entries| && entries[i].0 == k {
      var i :| 0 <= i < |KeysOf(entries)| && KeysOf(entries)[i] == k;
      assert entries[i].0 == k;
    }
  }

  /** Reading back the reordered listing of a kept map gives its slots again. */
  lemma ReadBackEntries(slots: OMap<string, SlotDefinition>)
    requires Kept(slots) && SlotsCopyable(slots.entries)
    ensures ParsedSlots(EmptyMap(), InPropertyOrder(Listing(slots.keys, slots.entries))).entries == slots.entries
  {
    ReadBackSlots(slots);
    ReadBackNames(slots);
    SameEntries(ParsedSlots(EmptyMap(), InPropertyOrder(Listing(slots.keys, slots.entries))).entries, slots.entries);
  }

  /** Two sequences without repeats that hold the same values are reorderings of each other. */
  lemma SameDistinctMembers<T>(a: seq<T>, b: seq<T>)
    requires Distinct(a) && Distinct(b)
    requires forall x :: x in a <==> x in b
    ensures multiset(a) == multiset(b)
  {
    forall x ensures multiset(a)[x] == multiset(b)[x] {
      DistinctCount(a, x);
      DistinctCount(b, x);
    }
  }

  /**
   * Reading back the serialised slots gives the same slots under the same
   * names; the names come back in property order, so in the same order when
   * none of them is an array index.
   */
  lemma SlotsRoundTrip(slots: OMap<string, SlotDefinition>)
    requires Kept(slots) && SlotsCopyable(slots.entries)
    ensures var back := ParsedSlots(EmptyMap(), InPropertyOrder(Listing(slots.keys, slots.entries)));
      back.entries == slots.entries
      && back.keys == KeysOf(InPropertyOrder(Listing(slots.keys, slots.entries)))
      && multiset(back.keys) == multiset(slots.keys)
    ensures (forall i :: 0 <= i < |slots.keys| ==> !IsArrayIndex(slots.keys[i])) ==>
      ParsedSlots(EmptyMap(), InPropertyOrder(Listing(slots.keys, slots.entries))).keys == slots.keys
  {
    var listing := Listing(slots.keys, slots.entries);
    var sorted := InPropertyOrder(listing);
    var back := ParsedSlots(EmptyMap(), sorted);
    SortedListing(slots);
    ParsedSlotsKeys(sorted);
    ReadBackEntries(slots);
    assert multiset(back.keys) == multiset(slots.keys) by {
      assert back.Valid();
      SameDistinctMembers(back.keys, slots.keys);
    }
    if forall i :: 0 <= i < |slots.keys| ==> !IsArrayIndex(slots.keys[i]) {
      NoIndexKeysKeepOrder(listing);
    }
  }

  // ---------------------------------------------------------------------------
  // The object
  // ---------------------------------------------------------------------------

  /** What `validate()` reports on the module the constructor builds from `data`. */
  function Validated(host: Host, data: ModuleData): Report {
    Validation(host, data.moduleId, OrText(data.version, "1.0.0"), ParsedSlots(EmptyMap(), data.slots),
               Or(data.layout, Obj([])), Or(data.styling, Obj([])), Or(data.dependencies, Arr([])))
  }

  /** The two validation lists and the outcome of a `validate()` that reported `report`. */
  function Outcome(report: Report): (r: Result<Checked>)
    ensures r.Ok? <==> report.thrown.None?
    ensures r.Ok? ==> r.value == Checked(report.errors, report.warnings)
    ensures r.Err? ==> r.message == report.thrown.value
  {
    if report.thrown.Some? then Err(report.thrown.value) else Ok(Checked(report.errors, report.warnings))
  }

  class ModuleDefinition {
    const moduleId: string
    const version: string
    const name: string
    const description: string
    const author: string
    const tags: Value
    const slots: OMap<string, SlotDefinition>
    const layout: Value
    const styling: Value
    const behavior: Value
    const dependencies: Value
    const metadata: Value
    var validationErrors: seq<string>
    var validationWarnings: seq<string>

    /**
     * The version has its default, the name falls back on the id, each slot is
     * kept under its own name, and the metadata lists the two stamps first
     * after its array indices.
     */
    ghost predicate Valid()
    {
      version != "" && (name == "" ==> moduleId == "") && Kept(slots) && StampedShape(metadata)
    }

    /** The fields `new ModuleDefinition(data)` sets from `data` before it validates, the metadata apart. */
    ghost predicate BuiltFrom(data: ModuleData)
    {
      moduleId == data.moduleId && version == OrText(data.version, "1.0.0")
      && name == OrText(data.name, data.moduleId) && description == data.description && author == data.author
      && tags == Or(data.tags, Arr([])) && layout == Or(data.layout, Obj([])) && styling == Or(data.styling, Obj([]))
      && behavior == Or(data.behavior, Obj([])) && dependencies == Or(data.dependencies, Arr([]))
      && slots == ParsedSlots(EmptyMap(), data.slots)
    }

    /** The constructor up to its final `validate()`: the defaults, then `parseSlots`. */
    constructor Parse(data: ModuleData, now: string)
      ensures Valid() && BuiltFrom(data) && metadata == Stamped(data, now)
      ensures validationErrors == [] && validationWarnings == []
    {
      moduleId := data.moduleId;
      version := OrText(data.version, "1.0.0");
      name := OrText(data.name, data.moduleId);
      description := data.description;
      author := data.author;
      tags := Or(data.tags, Arr([]));
      layout := Or(data.layout, Obj([]));
      styling := Or(data.styling, Obj([]));
      behavior := Or(data.behavior, Obj([]));
      dependencies := Or(data.dependencies, Arr([]));
      StampedHasShape(data, now);
      metadata := Stamped(data, now);
      validationErrors := [];
      validationWarnings := [];
      var parsed := ParseEntries(EmptyMap(), data.slots);
      slots := parsed;
      assert Kept(parsed);
    }

    /** `parseSlots(entries)`: a slot built from each entry, set under its name in the map the slots start from. */
    static method ParseEntries(base: OMap<string, SlotDefinition>, entries: seq<(string, SlotConfig)>)
      returns (parsed: OMap<string, SlotDefinition>)
      ensures parsed == ParsedSlots(base, entries)
    {
      parsed := base;
      var i := 0;
      while i < |entries|
        invariant 0 <= i <= |entries|
        invariant parsed == ParsedSlots(base, entries[..i])
      {
        var (slotName, config) := entries[i];
        ParsedSlotsStep(base, entries, i);
        parsed := parsed.Put(slotName, NewSlot(slotName, config));
        i := i + 1;
      }
      assert entries[..|entries|] == entries;
    }

    /** `new ModuleDefinition(data)`: the constructor throws when its `validate()` does. */
    static method Create(host: Host, data: ModuleData, now: string) returns (r: Result<ModuleDefinition>)
      ensures r.Ok? <==> Validated(host, data).thrown.None?
      ensures r.Err? ==> r.message == Validated(host, data).thrown.value
      ensures r.Ok? ==>
        fresh(r.value) && r.value.Valid() && r.value.BuiltFrom(data)
        && r.value.metadata == Stamped(data, now)
        && r.value.validationErrors == Validated(host, data).errors
        && r.value.validationWarnings == Validated(host, data).warnings
    {
      var m := NewParsed(data, now);
      var checked := m.ValidateParsed(host, data);
      if checked.Err? {
        return Err(checked.message);
      }
      return Ok(m);
    }

    /** The constructor before its `validate()`, seen from the fields that validation reads. */
    static method NewParsed(data: ModuleData, now: string) returns (m: ModuleDefinition)
      ensures fresh(m) && m.Valid() && m.BuiltFrom(data) && m.metadata == Stamped(data, now)
    {
      m := new ModuleDefinition.Parse(data, now);
    }

    /** The constructor's `validate()` call, stated against the data the module was parsed from. */
    method ValidateParsed(host: Host, ghost data: ModuleData) returns (r: Result<Checked>)
      requires Valid() && BuiltFrom(data)
      modifies this`validationErrors, this`validationWarnings
      ensures validationErrors == Validated(host, data).errors && validationWarnings == Validated(host, data).warnings
      ensures r == Outcome(Validated(host, data))
    {
      r := Validate(host);
    }

    /**
     * `validate()`: the lists are rebuilt from the id and version checks, each
     * slot, the layout, the styling and the dependencies; an error thrown by
     * the layout or dependency loop escapes with the lists filled so far.
     */
    method Validate(host: Host) returns (r: Result<Checked>)
      requires slots.Valid()
      modifies this`validationErrors, this`validationWarnings
      ensures var report := Validation(host, moduleId, version, slots, layout, styling, dependencies);
        validationErrors == report.errors && validationWarnings == report.warnings && r == Outcome(report)
    {
      ghost var report := Validation(host, moduleId, version, slots, layout, styling, dependencies);
      var errors := HeadErrors(moduleId, version);
      var warnings: seq<string> := if |slots.keys| == 0 then [NoSlotsWarning] else [];
      var reports := CheckSlots(slots.keys, slots.entries);
      var later, thrown := LaterValidation(host, errors + reports.errors);
      assert report.errors == later && report.warnings == warnings + reports.warnings && report.thrown == thrown;
      validationWarnings := warnings + reports.warnings;
      validationErrors := later;
      r := Outcome(ModuleDefinitions.Report(later, warnings + reports.warnings, thrown));
    }

    /** The checks of `validate()` after the slots: the layout, the styling and the dependencies add to `before` until one throws. */
    method LaterValidation(host: Host, before: seq<string>) returns (errors: seq<string>, thrown: Option<string>)
      ensures (errors, thrown) == LaterChecks(host, before, slots, layout, styling, dependencies)
    {
      var layoutErrors := ValidateLayout(host);
      if layoutErrors.Err? {
        return before, Some(layoutErrors.message);
      }
      errors := before + layoutErrors.value + StylingErrors(host, styling);
      var dependencyErrors := ValidateDependencies(host);
      if dependencyErrors.Err? {
        return errors, Some(dependencyErrors.message);
      }
      errors, thrown := errors + dependencyErrors.value, None;
    }

    /** The slot loop of `validate()`: each slot's errors, when it has any, and its warnings, under the slot's prefix. */
    static method CheckSlots(keys: seq<string>, entries: map<string, SlotDefinition>) returns (c: Checked)
      requires forall k :: k in keys ==> k in entries
      ensures c == SlotReports(keys, entries)
    {
      var errors: seq<string> := [];
      var warnings: seq<string> := [];
      var i := 0;
      while i < |keys|
        invariant 0 <= i <= |keys|
        invariant Checked(errors, warnings) == SlotReports(keys[..i], entries)
      {
        var slotName := keys[i];
        var slotValidation := ValidateSlot(entries[slotName]);
        SlotReportsStep(keys, entries, i, slotValidation);
        errors, warnings := Report(errors, warnings, slotName, slotValidation);
        i := i + 1;
      }
      assert keys[..|keys|] == keys;
      c := Checked(errors, warnings);
    }

    /** One round of the slot loop: the slot's errors, when it has any, and its warnings, under the slot's prefix. */
    static method Report(errors: seq<string>, warnings: seq<string>, slotName: string, slotValidation: Checked)
      returns (errors': seq<string>, warnings': seq<string>)
      ensures errors' == errors + (if slotValidation.IsValid() then [] else UnderSlot(slotName, slotValidation.errors))
      ensures warnings' == warnings + (if |slotValidation.warnings| > 0 then UnderSlot(slotName, slotValidation.warnings) else [])
    {
      errors', warnings' := errors, warnings;
      if !slotValidation.IsValid() {
        errors' := errors' + UnderSlot(slotName, slotValidation.errors);
      }
      if |slotValidation.warnings| > 0 {
        warnings' := warnings' + UnderSlot(slotName, slotValidation.warnings);
      }
    }

    /** `validateLayout()`: the type checks, then each element until one throws. */
    method ValidateLayout(host: Host) returns (r: Result<seq<string>>)
      ensures r == LayoutErrors(host, layout, slots)
    {
      var errors: seq<string> := [];
      var layoutType := GetProp(layout, "type");
      if !Truthy(layoutType) {
        errors := [NoLayoutType];
      }
      if Truthy(layoutType) && !Listed(layoutType, LayoutTypes) {
        errors := ["Tipo di layout '" + ToText(host, layoutType) + "' non valido. Tipi supportati: " + Join(LayoutTypes, ", ")];
      }
      var elements := GetProp(layout, "elements");
      assert errors == (if !Truthy(layoutType) then [NoLayoutType] else [])
        + (if Truthy(layoutType) && !Listed(layoutType, LayoutTypes)
           then ["Tipo di layout '" + ToText(host, layoutType) + "' non valido. Tipi supportati: " + Join(LayoutTypes, ", ")] else []);
      if !elements.Arr? {
        return Ok(errors + [NoElements]);
      }
      var more := ValidateElements(host, elements.items, slots);
      match more {
        case Err(e) => r := Err(e);
        case Ok(found) => r := Ok(errors + found);
      }
    }

    /** The loop of `validateLayout()` over the elements, stopped by the first element that throws. */
    static method ValidateElements(host: Host, items: seq<Value>, slots: OMap<string, SlotDefinition>) returns (r: Result<seq<string>>)
      ensures r == ElementsErrors(host, items, slots)
    {
      var errors: seq<string> := [];
      var i := 0;
      while i < |items|
        invariant 0 <= i <= |items|
        invariant ElementsErrors(host, items[..i], slots) == Ok(errors)
      {
        var elementErrors := ElementErrors(host, items[i], i, slots);
        ElementsSnoc(host, items, i, slots);
        if elementErrors.Err? {
          ElementsErrorsStick(host, items, i + 1, slots);
          return Err(elementErrors.message);
        }
        errors := errors + elementErrors.value;
        i := i + 1;
      }
      assert items[..|items|] == items;
      r := Ok(errors);
    }

    /** `validateDependencies()`: a non-array is one error; otherwise each dependency until one throws. */
    method ValidateDependencies(host: Host) returns (r: Result<seq<string>>)
      ensures r == DependencyCheck(host, dependencies)
    {
      if !dependencies.Arr? {
        return Ok([NotAnArray]);
      }
      var deps := dependencies.items;
      var errors: seq<string> := [];
      var i := 0;
      while i < |deps|
        invariant 0 <= i <= |deps|
        invariant DependenciesErrors(host, deps[..i]) == Ok(errors)
      {
        var depErrors := DependencyErrors(host, deps[i], i);
        DependenciesSnoc(host, deps, i);
        if depErrors.Err? {
          DependenciesErrorsStick(host, deps, i + 1);
          return Err(depErrors.message);
        }
        errors := errors + depErrors.value;
        i := i + 1;
      }
      assert deps[..|deps|] == deps;
      r := Ok(errors);
    }

    /** `getRequiredAttributes()`: the distinct attribute names of the slot paths, in slot order. */
    method GetRequiredAttributes() returns (r: seq<string>)
      requires Valid()
      ensures r == Segments(slots.Values(), false) && Distinct(r)
    {
      r := CollectSegments(slots.Values(), false);
    }

    /** `getSupportedEntityTypes()`: the distinct entity types of the slot paths, in slot order. */
    method GetSupportedEntityTypes() returns (r: seq<string>)
      requires Valid()
      ensures r == Segments(slots.Values(), true) && Distinct(r)
    {
      r := CollectSegments(slots.Values(), true);
    }

    /** The loop of the two path queries: a segment is added to the set once. */
    static method CollectSegments(values: seq<SlotDefinition>, entityType: bool) returns (r: seq<string>)
      ensures r == Segments(values, entityType) && Distinct(r)
    {
      r := [];
      var i := 0;
      while i < |values|
        invariant 0 <= i <= |values|
        invariant r == Segments(values[..i], entityType)
      {
        assert values[..i + 1][..i] == values[..i];
        var slot := values[i];
        if slot.path != "" {
          var segment := Segment(slot.path, entityType);
          if segment !in r {
            r := r + [segment];
          }
        }
        i := i + 1;
      }
      assert values[..|values|] == values;
      SegmentsDistinct(values, entityType);
    }

    /** `isCompatibleWith(entity)`: the type check and the required attributes the entity lacks. */
    method IsCompatibleWith(entity: Entities.Entity) returns (c: Compatibility)
      requires Valid()
      ensures c == CompatibilityOf(slots.Values(), entity.entityType, entity.attributes.entries.Keys)
    {
      var supported := GetSupportedEntityTypes();
      var required := GetRequiredAttributes();
      var typeCompatible := |supported| == 0 || entity.entityType in supported;
      var missing := MissingAttributes(required, entity);
      c := Compatibility(typeCompatible && |missing| == 0, typeCompatible, missing, supported, required);
    }

    /** `requiredAttributes.filter(attr => !entity.hasAttribute(attr))` */
    static method MissingAttributes(required: seq<string>, entity: Entities.Entity) returns (missing: seq<string>)
      ensures missing == Missing(required, entity.attributes.entries.Keys)
    {
      ghost var has := entity.attributes.entries.Keys;
      missing := [];
      var i := 0;
      while i < |required|
        invariant 0 <= i <= |required|
        invariant Missing(required, has) == missing + Missing(required[i..], has)
      {
        MissingStep(required, i, has);
        if !entity.HasAttribute(required[i]) {
          missing := missing + [required[i]];
        }
        i := i + 1;
      }
    }

    /** What `serialize()` returns, or the error a spread of a slot's options, the tags or the dependencies throws. */
    function Serialization(): (r: Result<ModuleData>)
      requires slots.Valid()
    {
      if !SlotsSerialize(slots.entries) then Err(NotIterable)
      else
        match ArraySpread(tags)
        case Err(e) => Err(e)
        case Ok(tagItems) =>
          match ArraySpread(dependencies)
          case Err(e) => Err(e)
          case Ok(depItems) =>
            Ok(ModuleData(moduleId, version, name, description, author, Arr(tagItems),
                          InPropertyOrder(Listing(slots.keys, slots.entries)),
                          Obj(Spread(layout)), Obj(Spread(styling)), Obj(Spread(behavior)), Arr(depItems),
                          "", "", Obj(Spread(metadata))))
    }

    /** `serialize()`: the slot listing is built in map order; the descriptor's entries list it in property order. */
    method Serialize() returns (r: Result<ModuleData>)
      requires Valid()
      ensures r == Serialization()
      ensures r.Ok? ==>
        r.value.moduleId == moduleId && r.value.version == version && r.value.name == name
        && r.value.description == description && r.value.author == author
      ensures r.Ok? <==> SlotsSerialize(slots.entries) && Iterable(tags) && Iterable(dependencies)
    {
      var listing := ListSlots(slots.keys, slots.entries);
      if listing.Err? {
        return Err(listing.message);
      }
      var tagItems := ArraySpread(tags);
      if tagItems.Err? {
        return Err(tagItems.message);
      }
      var depItems := ArraySpread(dependencies);
      if depItems.Err? {
        return Err(depItems.message);
      }
      r := Ok(ModuleData(moduleId, version, name, description, author, Arr(tagItems.value), InPropertyOrder(listing.value),
                         Obj(Spread(layout)), Obj(Spread(styling)), Obj(Spread(behavior)), Arr(depItems.value),
                         "", "", Obj(Spread(metadata))));
    }

    /**
     * `clone()`, which is `deserialize(serialize())`: the copy has the same id,
     * version, name, description, author and metadata (the serialised stamps
     * are empty, so the copy keeps the original's), copies of the other fields, and,
     * when every slot is copied exactly, the same slots under the same names.
     */
    method Clone(host: Host, now: string) returns (r: Result<ModuleDefinition>)
      requires Valid()
      ensures Serialization().Err? ==> r == Err(Serialization().message)
      ensures Serialization().Ok? ==> (r.Ok? <==> Validated(host, Serialization().value).thrown.None?)
      ensures r.Ok? ==>
        fresh(r.value) && r.value.Valid()
        && r.value.moduleId == moduleId && r.value.version == version && r.value.name == name
        && r.value.description == description && r.value.author == author
        && r.value.tags == Arr(ArraySpread(tags).value) && r.value.dependencies == Arr(ArraySpread(dependencies).value)
        && r.value.layout == Obj(Spread(layout)) && r.value.styling == Obj(Spread(styling))
        && r.value.behavior == Obj(Spread(behavior)) && r.value.metadata == metadata
      ensures r.Ok? && SlotsCopyable(slots.entries) ==>
        r.value.slots.entries == slots.entries && multiset(r.value.slots.keys) == multiset(slots.keys)
        && ((forall i :: 0 <= i < |slots.keys| ==> !IsArrayIndex(slots.keys[i])) ==> r.value.slots.keys == slots.keys)
    {
      var data := Serialize();
      if data.Err? {
        return Err(data.message);
      }
      r := Create(host, data.value, now);
      if r.Ok? {
        CopiedFields(r.value, data.value);
        RestampedMetadata(metadata, data.value, now);
        if SlotsCopyable(slots.entries) {
          CopiedSlots(r.value, data.value);
        }
      }
    }

    /** A module built from this module's serialisation copies its fields. */
    lemma CopiedFields(copy: ModuleDefinition, data: ModuleData)
      requires Valid() && Serialization() == Ok(data) && copy.BuiltFrom(data)
      ensures copy.moduleId == moduleId && copy.version == version && copy.name == name
        && copy.description == description && copy.author == author
        && copy.tags == Arr(ArraySpread(tags).value) && copy.dependencies == Arr(ArraySpread(dependencies).value)
        && copy.layout == Obj(Spread(layout)) && copy.styling == Obj(Spread(styling))
        && copy.behavior == Obj(Spread(behavior))
    {
      SerializedFields(data);
      CarriedFields(copy, data);
    }

    /** A descriptor carrying this module's fields, spread. */
    ghost predicate Carries(data: ModuleData)
    {
      data.moduleId == moduleId && data.version == version && data.name == name
      && data.description == description && data.author == author
      && ArraySpread(tags).Ok? && data.tags == Arr(ArraySpread(tags).value)
      && ArraySpread(dependencies).Ok? && data.dependencies == Arr(ArraySpread(dependencies).value)
      && data.layout == Obj(Spread(layout)) && data.styling == Obj(Spread(styling))
      && data.behavior == Obj(Spread(behavior)) && data.metadata == Obj(Spread(metadata))
    }

    /** The descriptor `serialize()` returns carries the header fields, the arrays and objects spread. */
    lemma SerializedFields(data: ModuleData)
      requires slots.Valid() && Serialization() == Ok(data)
      ensures Carries(data)
    {
    }

    /** A module built from a descriptor carrying this module's fields has those fields: no default applies. */
    lemma CarriedFields(copy: ModuleDefinition, data: ModuleData)
      requires Valid() && copy.BuiltFrom(data)
      requires data.moduleId == moduleId && data.version == version && data.name == name
        && data.description == description && data.author == author
      requires data.tags.Arr? && data.dependencies.Arr? && data.layout.Obj? && data.styling.Obj? && data.behavior.Obj?
      ensures copy.moduleId == moduleId && copy.version == version && copy.name == name
        && copy.description == description && copy.author == author
        && copy.tags == data.tags && copy.dependencies == data.dependencies
        && copy.layout == data.layout && copy.styling == data.styling && copy.behavior == data.behavior
    {
    }

    /** When every slot is copied exactly, a module built from this module's serialisation has its slots. */
    lemma CopiedSlots(copy: ModuleDefinition, data: ModuleData)
      requires Kept(slots) && SlotsCopyable(slots.entries) && Serialization() == Ok(data) && copy.BuiltFrom(data)
      ensures copy.slots.entries == slots.entries && multiset(copy.slots.keys) == multiset(slots.keys)
        && ((forall i :: 0 <= i < |slots.keys| ==> !IsArrayIndex(slots.keys[i])) ==> copy.slots.keys == slots.keys)
    {
      SlotsRoundTrip(slots);
    }
  }

  /** Once a prefix of the elements throws, the whole loop throws the same error. */
  lemma {:induction false} ElementsErrorsStick(host: Host, elements: seq<Value>, n: nat, slots: OMap<string, SlotDefinition>)
    requires n <= |elements| && ElementsErrors(host, elements[..n], slots).Err?
    ensures ElementsErrors(host, elements, slots) == ElementsErrors(host, elements[..n], slots)
    decreases |elements|
  {
    if n < |elements| {
      var init := elements[..|elements| - 1];
      assert init[..n] == elements[..n];
      ElementsErrorsStick(host, init, n, slots);
    } else {
      assert elements[..n] == elements;
    }
  }

  /** The filter of the required names from position `i` on: the name at `i`, kept when missing, then the rest. */
  lemma MissingStep(required: seq<string>, i: nat, has: set<string>)
    requires i < |required|
    ensures Missing(required[i..], has) == (if required[i] in has then [] else [required[i]]) + Missing(required[i + 1..], has)
  {
    assert required[i..][1..] == required[i + 1..];
  }

  /** One more element: the loop goes on from the errors so far, or stops at the first throw. */
  lemma ElementsSnoc(host: Host, items: seq<Value>, i: nat, slots: OMap<string, SlotDefinition>)
    requires i < |items|
    ensures ElementsErrors(host, items[..i + 1], slots) ==
      match ElementsErrors(host, items[..i], slots)
      case Err(e) => Err(e)
      case Ok(before) =>
        match ElementErrors(host, items[i], i, slots)
        case Err(e) => Err(e)
        case Ok(more) => Ok(before + more)
  {
    assert items[..i + 1][..i] == items[..i];
  }

  /** One more dependency: the loop goes on from the errors so far, or stops at the first throw. */
  lemma DependenciesSnoc(host: Host, deps: seq<Value>, i: nat)
    requires i < |deps|
    ensures DependenciesErrors(host, deps[..i + 1]) ==
      match DependenciesErrors(host, deps[..i])
      case Err(e) => Err(e)
      case Ok(before) =>
        match DependencyErrors(host, deps[i], i)
        case Err(e) => Err(e)
        case Ok(more) => Ok(before + more)
  {
    assert deps[..i + 1][..i] == deps[..i];
  }

  /** Once a prefix of the dependencies throws, the whole loop throws the same error. */
  lemma {:induction false} DependenciesErrorsStick(host: Host, deps: seq<Value>, n: nat)
    requires n <= |deps| && DependenciesErrors(host, deps[..n]).Err?
    ensures DependenciesErrors(host, deps) == DependenciesErrors(host, deps[..n])
    decreases |deps|
  {
    if n < |deps| {
      var init := deps[..|deps| - 1];
      assert init[..n] == deps[..n];
      DependenciesErrorsStick(host, init, n);
    } else {
      assert deps[..n] == deps;
    }
  }
}
