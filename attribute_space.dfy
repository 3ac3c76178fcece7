/**
 * The global attribute registry: attributes of every entity under
 * `entityId::name` keys, four tiers of change subscribers (one attribute,
 * one entity, one entity type, everything), a bounded change history, and
 * batches of registrations run under a notification flag.
 *
 * Callbacks are identities; what a callback does when it is called is not
 * part of the model, and a callback that throws is caught, so every call is
 * recorded in `delivered` whether it throws or not. The DOM event each
 * notification dispatches (`attributespace:<eventType>`) is recorded in
 * `dispatched`.
 */
module AttributeSpaces {
  import opened Wrappers
  import opened JsStrings
  import opened JsValues
  import opened PropertyOrder
  import opened OrderedMaps
  import opened BoundedLogs
  import opened Attributes
  import opened Entities

  type CallbackId = nat

  /** `maxHistorySize` */
  const MaxHistorySize: nat := 1000

  /**
   * The change data passed to `notifyChange`. An empty string stands for a
   * missing (or falsy) `entityId`, `entityType` or `attributeName`; the
   * attribute and entity objects some payloads carry are not part of it.
   */
  datatype ChangeData = ChangeData(
    entityId: string,
    entityType: string,
    attributeName: string,
    oldValue: Value,
    newValue: Value,
    operationCount: Option<nat>,
    timestamp: int)

  /** `{ eventType, data, timestamp }` */
  datatype HistoryEntry = HistoryEntry(eventType: string, data: ChangeData, timestamp: int)

  /** One `safeCallback(callback, payload)`; global subscribers get the payload with `eventType` added. */
  datatype Delivery = Delivery(callback: CallbackId, eventType: Option<string>, data: ChangeData)

  /** A `CustomEvent('attributespace:' + eventType, { detail: data })`. */
  datatype Dispatch = Dispatch(eventType: string, data: ChangeData)

  /** The four subscriber tiers; every set is kept as its callbacks in insertion order. */
  datatype Tiers = Tiers(
    byAttribute: map<string, seq<CallbackId>>,
    byEntity: map<string, seq<CallbackId>>,
    byType: map<string, seq<CallbackId>>,
    global: seq<CallbackId>)

  /** `getAttributeKey(entityId, attributeName)` */
  function AttributeKey(entityId: string, name: string): (key: string)
    ensures |key| == |entityId| + 2 + |name|
    ensures StartsWith(key, entityId + "::") && key[|entityId| + 2..] == name
  {
    entityId + "::" + name
  }

  /**
   * Splitting a key on `::` gives back the entity id and the name when the id
   * has no colon and the name no `::`.
   */
  lemma SplitAttributeKey(entityId: string, name: string)
    requires ':' !in entityId && !Contains(name, "::")
    ensures SplitText(AttributeKey(entityId, name), "::") == [entityId, name]
  {
    var key := AttributeKey(entityId, name);
    forall j | 0 <= j < |entityId|
      ensures !OccursAt(key, "::", j)
    {
      assert key[j] == entityId[j];
    }
    assert OccursAt(key, "::", |entityId|);
    assert FindText(key, "::") == Some(|entityId|);
    assert key[|entityId| + 2..] == name;
    assert FindText(name, "::") == None;
  }

  /** Subscribers a table holds under `key`. */
  function Members(table: map<string, seq<CallbackId>>, key: string): seq<CallbackId> {
    if key in table then table[key] else []
  }

  /** A table whose sets are duplicate-free and never empty (emptied sets are deleted). */
  predicate WellKept(table: map<string, seq<CallbackId>>) {
    forall k :: k in table ==> Distinct(table[k]) && table[k] != []
  }

  /** `if (!t.has(key)) t.set(key, new Set()); t.get(key).add(cb)` */
  function Subscribed(table: map<string, seq<CallbackId>>, key: string, cb: CallbackId): (r: map<string, seq<CallbackId>>)
    ensures key in r && cb in r[key]
    ensures r.Keys == table.Keys + {key}
    ensures forall k :: k in table && k != key ==> r[k] == table[k]
    ensures Members(r, key) == if cb in Members(table, key) then Members(table, key) else Members(table, key) + [cb]
    ensures WellKept(table) ==> WellKept(r)
  {
    var current := Members(table, key);
    table[key := if cb in current then current else current + [cb]]
  }

  /** The unsubscribe function: `t.get(key).delete(cb)`, and the key goes when its set becomes empty. */
  function Unsubscribed(table: map<string, seq<CallbackId>>, key: string, cb: CallbackId): (r: map<string, seq<CallbackId>>)
    ensures cb !in Members(r, key)
    ensures r.Keys <= table.Keys
    ensures forall k :: k in table && k != key ==> k in r && r[k] == table[k]
    ensures key in r ==> key in table && r[key] == Without(table[key], cb)
    ensures WellKept(table) ==> WellKept(r)
  {
    if key in table then
      var rest := Without(table[key], cb);
      if rest == [] then table - {key} else table[key := rest]
    else table
  }

  /** Calling an unsubscribe function twice is the same as calling it once. */
  lemma UnsubscribeTwice(table: map<string, seq<CallbackId>>, key: string, cb: CallbackId)
    ensures Unsubscribed(Unsubscribed(table, key, cb), key, cb) == Unsubscribed(table, key, cb)
  {
    var once := Unsubscribed(table, key, cb);
    if key in once {
      assert cb !in once[key];
      assert Without(once[key], cb) == once[key];
    }
  }

  /** Unsubscribing a callback right after subscribing it restores a well-kept table, if it was not subscribed before. */
  lemma SubscribeThenUnsubscribe(table: map<string, seq<CallbackId>>, key: string, cb: CallbackId)
    requires WellKept(table) && cb !in Members(table, key)
    ensures Unsubscribed(Subscribed(table, key, cb), key, cb) == table
  {
    var current := Members(table, key);
    WithoutAppendAbsent(current, cb);
    var r := Unsubscribed(Subscribed(table, key, cb), key, cb);
    if key in table {
      assert r == table[key := current];
    } else {
      assert r == table;
    }
  }

  /** The calls made, in order, when `callbacks` are invoked with one payload. */
  function Fanout(callbacks: seq<CallbackId>, eventType: Option<string>, data: ChangeData): (r: seq<Delivery>)
    ensures |r| == |callbacks|
    ensures forall i :: 0 <= i < |r| ==> r[i] == Delivery(callbacks[i], eventType, data)
  {
    if callbacks == [] then [] else [Delivery(callbacks[0], eventType, data)] + Fanout(callbacks[1..], eventType, data)
  }

  /** The deliveries to one more callback. */
  lemma FanoutSnoc(callbacks: seq<CallbackId>, i: nat, eventType: Option<string>, data: ChangeData)
    requires i < |callbacks|
    ensures Fanout(callbacks[..i + 1], eventType, data) == Fanout(callbacks[..i], eventType, data) + [Delivery(callbacks[i], eventType, data)]
  {
  }

  /** The subscribers of the attribute tier a notification reaches: none unless both the entity id and the name are set. */
  function AttributeTier(t: Tiers, data: ChangeData): seq<CallbackId> {
    if data.entityId != "" && data.attributeName != "" then Members(t.byAttribute, AttributeKey(data.entityId, data.attributeName)) else []
  }

  function EntityTier(t: Tiers, data: ChangeData): seq<CallbackId> {
    if data.entityId != "" then Members(t.byEntity, data.entityId) else []
  }

  function TypeTier(t: Tiers, data: ChangeData): seq<CallbackId> {
    if data.entityType != "" then Members(t.byType, data.entityType) else []
  }

  /**
   * The calls `notifyChange` makes: the attribute tier, the entity tier, the
   * type tier with the bare data, then every global subscriber with
   * `eventType` added.
   */
  function Recipients(t: Tiers, eventType: string, data: ChangeData): (r: seq<Delivery>)
    ensures |r| == |AttributeTier(t, data)| + |EntityTier(t, data)| + |TypeTier(t, data)| + |t.global|
    ensures forall d :: d in r ==> d.data == data
  {
    Fanout(AttributeTier(t, data), None, data) + Fanout(EntityTier(t, data), None, data)
    + Fanout(TypeTier(t, data), None, data) + Fanout(t.global, Some(eventType), data)
  }

  /** The callbacks a list of calls reaches. */
  function Called(ds: seq<Delivery>): (r: seq<CallbackId>)
    ensures |r| == |ds| && forall i :: 0 <= i < |ds| ==> r[i] == ds[i].callback
  {
    if ds == [] then [] else [ds[0].callback] + Called(ds[1..])
  }

  lemma {:induction false} CalledFanout(callbacks: seq<CallbackId>, eventType: Option<string>, data: ChangeData)
    ensures Called(Fanout(callbacks, eventType, data)) == callbacks
  {
    var r := Called(Fanout(callbacks, eventType, data));
    assert |r| == |callbacks|;
    assert forall i :: 0 <= i < |r| ==> r[i] == callbacks[i];
  }

  lemma {:induction false} CalledAppend(a: seq<Delivery>, b: seq<Delivery>)
    ensures Called(a + b) == Called(a) + Called(b)
  {
    var r := Called(a + b);
    assert |r| == |Called(a) + Called(b)|;
    forall i | 0 <= i < |r|
      ensures r[i] == (Called(a) + Called(b))[i]
    {
      if i < |a| {
        assert (a + b)[i] == a[i];
      } else {
        assert (a + b)[i] == b[i - |a|];
      }
    }
  }

  /**
   * The callbacks a notification reaches are exactly the four tiers, in tier
   * order: a callback is called iff it is subscribed to the attribute (when
   * the entity id and name are set), the entity (when the id is set), the
   * type (when the type is set), or everything.
   */
  lemma RecipientsInTierOrder(t: Tiers, eventType: string, data: ChangeData)
    ensures Called(Recipients(t, eventType, data)) == AttributeTier(t, data) + EntityTier(t, data) + TypeTier(t, data) + t.global
  {
    var a, e, y, g := Fanout(AttributeTier(t, data), None, data), Fanout(EntityTier(t, data), None, data),
      Fanout(TypeTier(t, data), None, data), Fanout(t.global, Some(eventType), data);
    CalledAppend(a + e + y, g);
    CalledAppend(a + e, y);
    CalledAppend(a, e);
    CalledFanout(AttributeTier(t, data), None, data);
    CalledFanout(EntityTier(t, data), None, data);
    CalledFanout(TypeTier(t, data), None, data);
    CalledFanout(t.global, Some(eventType), data);
  }

  /** After a callback unsubscribes from the attribute tier, a change of that attribute reaches it only through the other tiers. */
  lemma UnsubscribedNotCalled(t: Tiers, entityId: string, name: string, cb: CallbackId, eventType: string, data: ChangeData)
    requires data.entityId == entityId && data.attributeName == name
    requires cb !in EntityTier(t, data) && cb !in TypeTier(t, data) && cb !in t.global
    ensures cb !in Called(Recipients(t.(byAttribute := Unsubscribed(t.byAttribute, AttributeKey(entityId, name), cb)), eventType, data))
  {
    var u := t.(byAttribute := Unsubscribed(t.byAttribute, AttributeKey(entityId, name), cb));
    RecipientsInTierOrder(u, eventType, data);
    assert cb !in AttributeTier(u, data);
  }

  /** `addToHistory`: pushed, then shifted once when over the limit. */
  function Recorded(history: seq<HistoryEntry>, eventType: string, data: ChangeData, clock: int): (r: seq<HistoryEntry>)
    ensures |history| <= MaxHistorySize ==> |r| <= MaxHistorySize
    ensures r != [] && r[|r| - 1] == HistoryEntry(eventType, data, clock)
    ensures |history| < MaxHistorySize ==> r == history + [HistoryEntry(eventType, data, clock)]
    ensures |history| >= MaxHistorySize ==> r == (history + [HistoryEntry(eventType, data, clock)])[1..]
  {
    Push(history, HistoryEntry(eventType, data, clock), MaxHistorySize)
  }

  /** The options of `getHistory`; empty strings, a `None` or zero `since` and a zero limit are missing options (JavaScript treats them as false). */
  datatype HistoryQuery = HistoryQuery(entityId: string, attributeName: string, eventType: string, since: Option<int>, limit: int)

  predicate Matches(q: HistoryQuery, e: HistoryEntry) {
    (q.entityId == "" || e.data.entityId == q.entityId)
    && (q.attributeName == "" || e.data.attributeName == q.attributeName)
    && (q.eventType == "" || e.eventType == q.eventType)
    && (q.since.None? || q.since.value == 0 || e.timestamp >= q.since.value)
  }

  /** The entries that pass every filter, in history order. */
  function Matching(q: HistoryQuery, history: seq<HistoryEntry>): (r: seq<HistoryEntry>)
    ensures forall e :: e in r <==> e in history && Matches(q, e)
    ensures |r| <= |history|
  {
    if history == [] then []
    else (if Matches(q, history[0]) then [history[0]] else []) + Matching(q, history[1..])
  }

  /** `getHistory(options)`: the filters apply together, then the limit keeps the newest matches. */
  function History(q: HistoryQuery, history: seq<HistoryEntry>): (r: seq<HistoryEntry>)
    ensures forall e :: e in r ==> e in history && Matches(q, e)
    ensures q.limit > 0 ==> |r| == Min(q.limit, |Matching(q, history)|)
    ensures q.limit > 0 ==> r == Matching(q, history)[|Matching(q, history)| - |r|..]
  {
    SliceFromEnd(Matching(q, history), q.limit)
  }

  /** `clearHistory({ before })`: the entries stamped at or after `before`, in order; without `before` (or with a zero one, which JavaScript treats as false), none. */
  function Cleared(history: seq<HistoryEntry>, before: Option<int>): (r: seq<HistoryEntry>)
    ensures before.None? || before.value == 0 ==> r == []
    ensures before.Some? && before.value != 0 ==> forall e :: e in r <==> e in history && e.timestamp >= before.value
    ensures |r| <= |history|
  {
    if before.None? || before.value == 0 || history == [] then []
    else (if history[0].timestamp >= before.value then [history[0]] else []) + Cleared(history[1..], before)
  }

  lemma Regroup<T>(s: seq<T>, a: seq<T>, b: seq<T>, c: seq<T>, d: seq<T>)
    ensures s + a + b + c + d == s + (a + b + c + d)
  {
  }

  lemma Regroup3<T>(s: seq<T>, a: seq<T>, b: seq<T>)
    ensures s + a + b == s + (a + b)
  {
  }

  /** The calls a run of notifications makes, oldest first, with the tiers fixed. */
  function Broadcast(t: Tiers, events: seq<HistoryEntry>): seq<Delivery>
    decreases |events|
  {
    if events == [] then []
    else Broadcast(t, events[..|events| - 1]) + Recipients(t, events[|events| - 1].eventType, events[|events| - 1].data)
  }

  /** The DOM events a run of notifications dispatches. */
  function Dispatches(events: seq<HistoryEntry>): (r: seq<Dispatch>)
    ensures |r| == |events| && forall i :: 0 <= i < |events| ==> r[i] == Dispatch(events[i].eventType, events[i].data)
  {
    if events == [] then [] else [Dispatch(events[0].eventType, events[0].data)] + Dispatches(events[1..])
  }

  /** One more notification with the same tiers. */
  lemma BroadcastSnoc(t: Tiers, events: seq<HistoryEntry>, e: HistoryEntry)
    ensures Broadcast(t, events + [e]) == Broadcast(t, events) + Recipients(t, e.eventType, e.data)
  {
    assert (events + [e])[..|events|] == events;
  }

  lemma DispatchesSnoc(events: seq<HistoryEntry>, e: HistoryEntry)
    ensures Dispatches(events + [e]) == Dispatches(events) + [Dispatch(e.eventType, e.data)]
  {
    assert Dispatches(events + [e]) == Dispatches(events) + [Dispatch(e.eventType, e.data)];
  }

  /** The notification `registerAttribute` sends. */
  function Registration(entityId: string, name: string, clock: int): HistoryEntry {
    HistoryEntry("attribute:registered", ChangeData(entityId, "", name, Undefined, Undefined, None, clock), clock)
  }

  /** The attributes of an entity paired with their names, in order. */
  function NamesOf(attrs: seq<Attribute>): (r: seq<(string, Attribute)>)
    reads set a | a in attrs
    ensures |r| == |attrs| && forall i :: 0 <= i < |attrs| ==> r[i] == (attrs[i].name, attrs[i])
  {
    if attrs == [] then [] else [(attrs[0].name, attrs[0])] + NamesOf(attrs[1..])
  }

  /** The registrations `registerEntity` makes for the attributes in `named`, in order. */
  function Registrations(entityId: string, named: seq<(string, Attribute)>, clock: int): (r: seq<HistoryEntry>)
    ensures |r| == |named|
    decreases |named|
  {
    if named == [] then []
    else Registrations(entityId, named[..|named| - 1], clock) + [Registration(entityId, named[|named| - 1].0, clock)]
  }

  /** One `attribute:registered` announcement per attribute, in the order of `named`. */
  lemma {:induction false} RegistrationsInOrder(entityId: string, named: seq<(string, Attribute)>, clock: int)
    ensures forall i :: 0 <= i < |named| ==> Registrations(entityId, named, clock)[i] == Registration(entityId, named[i].0, clock)
    decreases |named|
  {
    if named != [] {
      var init := named[..|named| - 1];
      RegistrationsInOrder(entityId, init, clock);
      forall i | 0 <= i < |named|
        ensures Registrations(entityId, named, clock)[i] == Registration(entityId, named[i].0, clock)
      {
        if i < |init| {
          assert named[i] == init[i];
        }
      }
    }
  }

  /** The registry after registering each of `named` under `entityId`, in order; a later name overwrites an earlier one. */
  function RegisterAll(m: OMap<string, Attribute>, entityId: string, named: seq<(string, Attribute)>): (r: OMap<string, Attribute>)
    ensures m.Valid() ==> r.Valid()
    decreases |named|
  {
    if named == [] then m
    else
      var last := named[|named| - 1];
      RegisterAll(m, entityId, named[..|named| - 1]).Put(AttributeKey(entityId, last.0), last.1)
  }

  /**
   * Every key of the registry stays, every attribute of `named` is found under
   * its key, and nothing else is added.
   */
  lemma RegisterAllContains(m: OMap<string, Attribute>, entityId: string, named: seq<(string, Attribute)>)
    ensures var r := RegisterAll(m, entityId, named);
      (forall k :: k in m.entries ==> k in r.entries)
      && (forall i :: 0 <= i < |named| ==> AttributeKey(entityId, named[i].0) in r.entries)
      && (forall k :: k in r.entries ==> k in m.entries || exists i :: 0 <= i < |named| && k == AttributeKey(entityId, named[i].0))
  {
    RegisterAllAdds(m, entityId, named);
    RegisterAllOnly(m, entityId, named);
  }

  /** Registering keeps the keys there were and adds the key of every named attribute. */
  lemma {:induction false} RegisterAllAdds(m: OMap<string, Attribute>, entityId: string, named: seq<(string, Attribute)>)
    ensures var r := RegisterAll(m, entityId, named);
      (forall k :: k in m.entries ==> k in r.entries)
      && (forall i :: 0 <= i < |named| ==> AttributeKey(entityId, named[i].0) in r.entries)
    decreases |named|
  {
    if named != [] {
      var init := named[..|named| - 1];
      RegisterAllAdds(m, entityId, init);
      var r := RegisterAll(m, entityId, named);
      forall i | 0 <= i < |named|
        ensures AttributeKey(entityId, named[i].0) in r.entries
      {
        if i < |init| {
          assert named[i] == init[i];
        }
      }
    }
  }

  /** Registering adds no key but those of the named attributes. */
  lemma {:induction false} RegisterAllOnly(m: OMap<string, Attribute>, entityId: string, named: seq<(string, Attribute)>)
    ensures var r := RegisterAll(m, entityId, named);
      forall k :: k in r.entries ==> k in m.entries || exists i :: 0 <= i < |named| && k == AttributeKey(entityId, named[i].0)
    decreases |named|
  {
    if named != [] {
      var init, last := named[..|named| - 1], named[|named| - 1];
      RegisterAllOnly(m, entityId, init);
      var r := RegisterAll(m, entityId, named);
      forall k | k in r.entries && k !in m.entries
        ensures exists i :: 0 <= i < |named| && k == AttributeKey(entityId, named[i].0)
      {
        if k != AttributeKey(entityId, last.0) {
          var i :| 0 <= i < |init| && k == AttributeKey(entityId, init[i].0);
          assert named[i] == init[i];
        }
      }
    }
  }

  /** The registry `a`, history `h`, calls `d` and dispatches `p` after the first `n` of `named` are registered, from `a0`, `h0`, `d0` and `p0`. */
  ghost predicate RegisteredState(a0: OMap<string, Attribute>, h0: seq<HistoryEntry>, d0: seq<Delivery>, p0: seq<Dispatch>, t: Tiers,
                                  entityId: string, named: seq<(string, Attribute)>, n: nat, clock: int,
                                  a: OMap<string, Attribute>, h: seq<HistoryEntry>, d: seq<Delivery>, p: seq<Dispatch>)
  {
    n <= |named| && a == RegisterAll(a0, entityId, named[..n])
    && var events := Registrations(entityId, named[..n], clock);
    h == PushAll(h0, events, MaxHistorySize) && d == d0 + Broadcast(t, events) && p == p0 + Dispatches(events)
  }

  /** One more `registerAttribute` call extends the state of `registerEntity` by the next attribute. */
  lemma RegistrationRun(a0: OMap<string, Attribute>, h0: seq<HistoryEntry>, d0: seq<Delivery>, p0: seq<Dispatch>, t: Tiers,
                        entityId: string, named: seq<(string, Attribute)>, i: nat, clock: int,
                        a: OMap<string, Attribute>, h: seq<HistoryEntry>, d: seq<Delivery>, p: seq<Dispatch>)
    requires i < |named| && RegisteredState(a0, h0, d0, p0, t, entityId, named, i, clock, a, h, d, p)
    ensures var e := Registration(entityId, named[i].0, clock);
      RegisteredState(a0, h0, d0, p0, t, entityId, named, i + 1, clock,
                      a.Put(AttributeKey(entityId, named[i].0), named[i].1), Recorded(h, e.eventType, e.data, clock),
                      d + Recipients(t, e.eventType, e.data), p + [Dispatch(e.eventType, e.data)])
  {
    RegistrationsSnoc(a0, entityId, named, i, clock);
    NotifiedAfter(h0, d0, p0, t, Registrations(entityId, named[..i], clock), Registration(entityId, named[i].0, clock), clock);
  }

  /** The registry and the registrations of one more attribute. */
  lemma RegistrationsSnoc(a0: OMap<string, Attribute>, entityId: string, named: seq<(string, Attribute)>, i: nat, clock: int)
    requires i < |named|
    ensures RegisterAll(a0, entityId, named[..i + 1]) == RegisterAll(a0, entityId, named[..i]).Put(AttributeKey(entityId, named[i].0), named[i].1)
    ensures Registrations(entityId, named[..i + 1], clock) == Registrations(entityId, named[..i], clock) + [Registration(entityId, named[i].0, clock)]
  {
    assert named[..i + 1][..i] == named[..i];
  }

  /** A notification after a run of them extends the history, calls and dispatches of the run. */
  lemma NotifiedAfter(h0: seq<HistoryEntry>, d0: seq<Delivery>, p0: seq<Dispatch>, t: Tiers, events: seq<HistoryEntry>, e: HistoryEntry, clock: int)
    requires e.timestamp == clock
    ensures Recorded(PushAll(h0, events, MaxHistorySize), e.eventType, e.data, clock) == PushAll(h0, events + [e], MaxHistorySize)
    ensures d0 + Broadcast(t, events) + Recipients(t, e.eventType, e.data) == d0 + Broadcast(t, events + [e])
    ensures p0 + Dispatches(events) + [Dispatch(e.eventType, e.data)] == p0 + Dispatches(events + [e])
  {
    PushAllSnoc(h0, events, e, MaxHistorySize);
    BroadcastSnoc(t, events, e);
    DispatchesSnoc(events, e);
    Regroup3(d0, Broadcast(t, events), Recipients(t, e.eventType, e.data));
    Regroup3(p0, Dispatches(events), [Dispatch(e.eventType, e.data)]);
  }

  /**
   * `getEntityAttributes(entityId)` over the first keys of the registry: the
   * keys that start with `entityId::`, renamed to what follows that prefix.
   */
  function EntityAttributes<V>(entityId: string, keys: seq<string>, entries: map<string, V>): OMap<string, V>
    requires forall k :: k in keys ==> k in entries
    decreases |keys|
  {
    if keys == [] then EmptyMap()
    else
      var last := keys[|keys| - 1];
      var before := EntityAttributes(entityId, keys[..|keys| - 1], entries);
      if StartsWith(last, entityId + "::") then before.Put(last[|entityId| + 2..], entries[last]) else before
  }

  /** A key with the prefix `entityId::` is the registry key of what follows the prefix. */
  lemma KeyOfSuffix(entityId: string, key: string)
    requires StartsWith(key, entityId + "::")
    ensures AttributeKey(entityId, key[|entityId| + 2..]) == key
  {
    assert key == key[..|entityId| + 2] + key[|entityId| + 2..];
  }

  /**
   * The attributes of one entity: a name is present iff the registry holds
   * its key for that entity, with the registered attribute.
   */
  lemma {:induction false} EntityAttributesExact<V>(entityId: string, keys: seq<string>, entries: map<string, V>)
    requires Distinct(keys) && forall k :: k in keys ==> k in entries
    ensures var r := EntityAttributes(entityId, keys, entries);
      r.Valid()
      && (forall n :: n in r.entries <==> AttributeKey(entityId, n) in keys)
      && (forall n :: n in r.entries ==> r.entries[n] == entries[AttributeKey(entityId, n)])
    decreases |keys|
  {
    if keys != [] {
      var init, last := keys[..|keys| - 1], keys[|keys| - 1];
      assert keys == init + [last];
      assert Distinct(init);
      EntityAttributesExact(entityId, init, entries);
      if StartsWith(last, entityId + "::") {
        KeyOfSuffix(entityId, last);
      }
      var r := EntityAttributes(entityId, keys, entries);
      forall n | AttributeKey(entityId, n) in keys
        ensures n in r.entries
      {
        if AttributeKey(entityId, n) == last {
          assert last[|entityId| + 2..] == n;
        }
      }
    }
  }

  /** The type label of each attribute under `keys`, in order. */
  function KindLabels(keys: seq<string>, entries: map<string, Attribute>): (r: seq<string>)
    requires forall k :: k in keys ==> k in entries
    reads entries.Values
    ensures |r| == |keys|
    decreases |keys|
  {
    if keys == [] then [] else KindLabels(keys[..|keys| - 1], entries) + [KindName(entries[keys[|keys| - 1]].kind)]
  }

  /** The entity-id part of each key, in order. */
  function EntityParts(keys: seq<string>): (r: seq<string>)
    ensures |r| == |keys|
    decreases |keys|
  {
    if keys == [] then [] else EntityParts(keys[..|keys| - 1]) + [EntityPart(keys[|keys| - 1])]
  }

  /**
   * A distribution of `getStats` lists each label once, with the number of
   * times it occurs: a pair is listed iff its label occurs and its count is
   * that number.
   */
  lemma DistributionExact(labels: seq<string>)
    ensures forall p :: p in InPropertyOrder(Pairs(Tally(labels))) <==> p.0 in labels && p.1 == multiset(labels)[p.0]
  {
    var pairs := Pairs(Tally(labels));
    forall p: (string, nat) ensures p in InPropertyOrder(pairs) <==> p.0 in labels && p.1 == multiset(labels)[p.0] {
      InPropertyOrderMember(pairs, p);
      TallyPair(labels, p);
    }
  }

  /** A pair is listed by the tally exactly when its label occurs and its count is the label's multiplicity. */
  lemma TallyPair(labels: seq<string>, p: (string, nat))
    ensures p in Pairs(Tally(labels)) <==> p.0 in labels && p.1 == multiset(labels)[p.0]
  {
    var t := Tally(labels);
    var pairs := Pairs(t);
    if p.0 in labels && p.1 == multiset(labels)[p.0] {
      var i :| 0 <= i < |t.keys| && t.keys[i] == p.0;
      assert pairs[i] == p;
    }
  }

  /** Registry keys hold `::`, so they are never array indices: an object keyed by them lists its entries in insertion order. */
  lemma AttributeKeyNotIndex(entityId: string, name: string)
    ensures !IsArrayIndex(AttributeKey(entityId, name))
  {
    var key := AttributeKey(entityId, name);
    assert key[|entityId|] == ':' && !IsDigit(':');
  }

  /** `counts[label] = (counts[label] || 0) + 1` */
  function Counted(counts: OMap<string, nat>, key: string): OMap<string, nat> {
    counts.Put(key, if counts.Has(key) then counts.entries[key] + 1 else 1)
  }

  /** One more key extends the tally of kinds of `getStats` by its kind. */
  lemma TallyKindsStep(keys: seq<string>, entries: map<string, Attribute>, i: nat, types: OMap<string, nat>)
    requires i < |keys| && forall k :: k in keys ==> k in entries
    requires types == Tally(KindLabels(keys[..i], entries))
    ensures Counted(types, KindName(entries[keys[i]].kind)) == Tally(KindLabels(keys[..i + 1], entries))
  {
    KindLabelsStep(keys, entries, i);
    TallySnoc(KindLabels(keys[..i], entries), KindName(entries[keys[i]].kind));
  }

  /** One more key extends the tally of owners of `getStats` by its entity part. */
  lemma TallyOwnersStep(keys: seq<string>, i: nat, owners: OMap<string, nat>)
    requires i < |keys|
    requires owners == Tally(EntityParts(keys[..i]))
    ensures Counted(owners, EntityPart(keys[i])) == Tally(EntityParts(keys[..i + 1]))
  {
    EntityPartsStep(keys, i);
    TallySnoc(EntityParts(keys[..i]), EntityPart(keys[i]));
  }

  /** The kind labels of one more key. */
  lemma KindLabelsStep(keys: seq<string>, entries: map<string, Attribute>, i: nat)
    requires i < |keys| && forall k :: k in keys ==> k in entries
    ensures KindLabels(keys[..i + 1], entries) == KindLabels(keys[..i], entries) + [KindName(entries[keys[i]].kind)]
  {
    assert keys[..i + 1][..i] == keys[..i];
  }

  /** The entity parts of one more key. */
  lemma EntityPartsStep(keys: seq<string>, i: nat)
    requires i < |keys|
    ensures EntityParts(keys[..i + 1]) == EntityParts(keys[..i]) + [EntityPart(keys[i])]
  {
    assert keys[..i + 1][..i] == keys[..i];
  }

  /** Counting one more label. */
  lemma TallySnoc(labels: seq<string>, l: string)
    ensures Tally(labels + [l]) == Counted(Tally(labels), l)
  {
    assert (labels + [l])[..|labels|] == labels;
  }

  /** `getStats()` */
  datatype Stats = Stats(
    totalAttributes: nat,
    totalSubscriptions: nat,
    entitySubscriptions: nat,
    typeSubscriptions: nat,
    globalSubscriptions: nat,
    typeDistribution: seq<(string, nat)>,
    entityDistribution: seq<(string, nat)>,
    historySize: nat)

  /** `counts[label] = (counts[label] || 0) + 1` for each label: one entry per label, first occurrences in order. */
  function Tally(labels: seq<string>): (r: OMap<string, nat>)
    ensures r.Valid()
    ensures forall l :: l in r.entries <==> l in labels
    ensures forall l :: l in r.entries ==> r.entries[l] == multiset(labels)[l]
    decreases |labels|
  {
    if labels == [] then EmptyMap()
    else
      var last, init := labels[|labels| - 1], labels[..|labels| - 1];
      assert labels == init + [last];
      CountedOneMore(Tally(init), init, last);
      Counted(Tally(init), last)
  }

  /** Counting one more label into a tally of `labels` gives a tally of `labels + [l]`. */
  lemma CountedOneMore(counts: OMap<string, nat>, labels: seq<string>, l: string)
    requires counts.Valid() && forall k :: k in counts.entries <==> k in labels
    requires forall k :: k in counts.entries ==> counts.entries[k] == multiset(labels)[k]
    ensures Counted(counts, l).Valid()
    ensures forall k :: k in Counted(counts, l).entries <==> k in labels + [l]
    ensures forall k :: k in Counted(counts, l).entries ==> Counted(counts, l).entries[k] == multiset(labels + [l])[k]
  {
    assert multiset(labels + [l]) == multiset(labels) + multiset{l};
  }

  /** The pairs of a map, in its order. */
  function Pairs<V>(m: OMap<string, V>): (r: seq<(string, V)>)
    requires m.Valid()
    ensures KeysOf(r) == m.keys
    ensures forall i :: 0 <= i < |r| ==> r[i] == (m.keys[i], m.entries[m.keys[i]])
  {
    var r := seq(|m.keys|, i requires 0 <= i < |m.keys| => (m.keys[i], m.entries[m.keys[i]]));
    assert KeysOf(r) == m.keys;
    r
  }

  /** The entity-id part of a registry key, as `getStats` reads it. */
  function EntityPart(key: string): string {
    SplitText(key, "::")[0]
  }

  /** `export()` */
  datatype SpaceExport = SpaceExport(attributes: seq<(string, AttributeData)>, stats: Stats, history: seq<HistoryEntry>, timestamp: int)

  /** What `import(data)` reads; `None` marks a missing property. */
  datatype SpaceImport = SpaceImport(attributes: Option<seq<(string, AttributeData)>>, history: Option<seq<HistoryEntry>>)

  class AttributeSpace {
    var attributes: OMap<string, Attribute>
    var entities: OMap<string, Entity>
    var subscriptions: map<string, seq<CallbackId>>
    var entitySubscriptions: map<string, seq<CallbackId>>
    var typeSubscriptions: map<string, seq<CallbackId>>
    var globalSubscriptions: seq<CallbackId>
    var changeHistory: seq<HistoryEntry>
    /** The flag a batch sets while it runs; `None` is its initial `undefined`. Nothing here reads it. */
    var suppressNotifications: Option<bool>
    /** Every callback call, oldest first. */
    var delivered: seq<Delivery>
    /** Every DOM event dispatched, oldest first. */
    var dispatched: seq<Dispatch>

    ghost predicate Valid()
      reads this
    {
      attributes.Valid() && entities.Valid()
      && WellKept(subscriptions) && WellKept(entitySubscriptions) && WellKept(typeSubscriptions)
      && Distinct(globalSubscriptions)
    }

    function Subscribers(): Tiers
      reads this
    {
      Tiers(subscriptions, entitySubscriptions, typeSubscriptions, globalSubscriptions)
    }

    /** The registry proper: what notifications leave alone. */
    function Registry(): (OMap<string, Attribute>, OMap<string, Entity>, Tiers, Option<bool>)
      reads this
    {
      (attributes, entities, Subscribers(), suppressNotifications)
    }

    constructor ()
      ensures Valid()
      ensures attributes == EmptyMap() && entities == EmptyMap()
      ensures Subscribers() == Tiers(map[], map[], map[], []) && changeHistory == []
      ensures suppressNotifications == None && delivered == [] && dispatched == []
    {
      attributes := EmptyMap();
      entities := EmptyMap();
      subscriptions := map[];
      entitySubscriptions := map[];
      typeSubscriptions := map[];
      globalSubscriptions := [];
      changeHistory := [];
      suppressNotifications := None;
      delivered := [];
      dispatched := [];
    }

    /** `addToHistory(eventType, data)` */
    method AddToHistory(eventType: string, data: ChangeData, clock: int)
      modifies this
      ensures changeHistory == Recorded(old(changeHistory), eventType, data, clock)
      ensures Registry() == old(Registry()) && delivered == old(delivered) && dispatched == old(dispatched)
    {
      changeHistory := changeHistory + [HistoryEntry(eventType, data, clock)];
      if |changeHistory| > MaxHistorySize {
        changeHistory := changeHistory[1..];
      }
    }

    /** `for (const callback of callbacks) this.safeCallback(callback, payload)`: a throwing callback is caught and the loop goes on. */
    method CallEach(callbacks: seq<CallbackId>, eventType: Option<string>, data: ChangeData)
      modifies this
      ensures delivered == old(delivered) + Fanout(callbacks, eventType, data)
      ensures Registry() == old(Registry()) && changeHistory == old(changeHistory) && dispatched == old(dispatched)
    {
      var i := 0;
      while i < |callbacks|
        invariant 0 <= i <= |callbacks|
        invariant delivered == old(delivered) + Fanout(callbacks[..i], eventType, data)
        invariant Registry() == old(Registry()) && changeHistory == old(changeHistory) && dispatched == old(dispatched)
      {
        var d := Delivery(callbacks[i], eventType, data);
        FanoutSnoc(callbacks, i, eventType, data);
        AppendAssociates(old(delivered), Fanout(callbacks[..i], eventType, data), [d]);
        delivered := delivered + [d];
        i := i + 1;
      }
      assert callbacks[..i] == callbacks;
    }

    /**
     * `notifyChange(eventType, changeData)`: recorded in the history, then the
     * attribute, entity, type and global tiers are called in that order, then
     * the DOM event is dispatched.
     */
    method NotifyChange(eventType: string, data: ChangeData, clock: int)
      modifies this
      ensures changeHistory == Recorded(old(changeHistory), eventType, data, clock)
      ensures delivered == old(delivered) + Recipients(Subscribers(), eventType, data)
      ensures dispatched == old(dispatched) + [Dispatch(eventType, data)]
      ensures Registry() == old(Registry())
    {
      AddToHistory(eventType, data, clock);
      var t := Subscribers();
      ghost var d0 := delivered;
      CallEach(AttributeTier(t, data), None, data);
      CallEach(EntityTier(t, data), None, data);
      CallEach(TypeTier(t, data), None, data);
      CallEach(t.global, Some(eventType), data);
      Regroup(d0, Fanout(AttributeTier(t, data), None, data), Fanout(EntityTier(t, data), None, data),
        Fanout(TypeTier(t, data), None, data), Fanout(t.global, Some(eventType), data));
      dispatched := dispatched + [Dispatch(eventType, data)];
    }

    /** `registerAttribute(entityId, attribute)`: stored under its key (replacing whatever was there) and announced. */
    method RegisterAttribute(entityId: string, attribute: Attribute, clock: int)
      requires Valid()
      modifies this
      ensures Valid()
      ensures attributes == old(attributes).Put(AttributeKey(entityId, attribute.name), attribute)
      ensures var e := Registration(entityId, attribute.name, clock);
        changeHistory == Recorded(old(changeHistory), e.eventType, e.data, clock)
        && delivered == old(delivered) + Recipients(Subscribers(), e.eventType, e.data)
        && dispatched == old(dispatched) + [Dispatch(e.eventType, e.data)]
      ensures entities == old(entities) && Subscribers() == old(Subscribers()) && suppressNotifications == old(suppressNotifications)
    {
      attributes := attributes.Put(AttributeKey(entityId, attribute.name), attribute);
      var e := Registration(entityId, attribute.name, clock);
      NotifyChange(e.eventType, e.data, clock);
    }

    /**
     * `unregisterAttribute(entityId, name)`: a registered key is deleted
     * together with its subscribers, and announced; an unknown key changes
     * nothing. The subscribers of the key are gone before the announcement,
     * so it reaches no attribute-tier callback.
     */
    method UnregisterAttribute(entityId: string, name: string, clock: int)
      requires Valid()
      modifies this
      ensures Valid()
      ensures var key := AttributeKey(entityId, name);
        var data := ChangeData(entityId, "", name, Undefined, Undefined, None, clock);
        if key in old(attributes.entries) then
          attributes == old(attributes).Remove(key) && subscriptions == old(subscriptions) - {key}
          && AttributeTier(Subscribers(), data) == []
          && changeHistory == Recorded(old(changeHistory), "attribute:unregistered", data, clock)
          && delivered == old(delivered) + Recipients(Subscribers(), "attribute:unregistered", data)
          && dispatched == old(dispatched) + [Dispatch("attribute:unregistered", data)]
        else
          attributes == old(attributes) && subscriptions == old(subscriptions)
          && changeHistory == old(changeHistory) && delivered == old(delivered) && dispatched == old(dispatched)
      ensures entities == old(entities) && suppressNotifications == old(suppressNotifications)
      ensures entitySubscriptions == old(entitySubscriptions) && typeSubscriptions == old(typeSubscriptions)
      ensures globalSubscriptions == old(globalSubscriptions)
    {
      var key := AttributeKey(entityId, name);
      if attributes.Has(key) {
        attributes := attributes.Remove(key);
        subscriptions := subscriptions - {key};
        NotifyChange("attribute:unregistered", ChangeData(entityId, "", name, Undefined, Undefined, None, clock), clock);
      }
    }

    /** The `registerAttribute` calls of `registerEntity`, one per attribute in map order. */
    method RegisterEach(entityId: string, named: seq<(string, Attribute)>, clock: int)
      requires Valid()
      requires forall i :: 0 <= i < |named| ==> named[i].1.name == named[i].0
      modifies this
      ensures Valid() && RegisteredState(old(attributes), old(changeHistory), old(delivered), old(dispatched), Subscribers(),
                                         entityId, named, |named|, clock, attributes, changeHistory, delivered, dispatched)
      ensures entities == old(entities) && Subscribers() == old(Subscribers()) && suppressNotifications == old(suppressNotifications)
    {
      ghost var a0, h0, d0, p0, t := attributes, changeHistory, delivered, dispatched, Subscribers();
      ghost var e0, s0 := entities, suppressNotifications;
      var i := 0;
      assert named[..0] == [];
      while i < |named|
        invariant 0 <= i <= |named| && Valid()
        invariant RegisteredState(a0, h0, d0, p0, t, entityId, named, i, clock, attributes, changeHistory, delivered, dispatched)
        invariant entities == e0 && Subscribers() == t && suppressNotifications == s0
        invariant forall j :: 0 <= j < |named| ==> named[j].1.name == named[j].0
      {
        RegisterNext(a0, h0, d0, p0, entityId, named, i, clock);
        i := i + 1;
      }
    }

    /** One step of `RegisterEach`: the attribute at `i` is registered. */
    method RegisterNext(ghost a0: OMap<string, Attribute>, ghost h0: seq<HistoryEntry>, ghost d0: seq<Delivery>, ghost p0: seq<Dispatch>,
                        entityId: string, named: seq<(string, Attribute)>, i: nat, clock: int)
      requires Valid() && i < |named| && named[i].1.name == named[i].0
      requires RegisteredState(a0, h0, d0, p0, Subscribers(), entityId, named, i, clock, attributes, changeHistory, delivered, dispatched)
      modifies this
      ensures Valid() && RegisteredState(a0, h0, d0, p0, Subscribers(), entityId, named, i + 1, clock, attributes, changeHistory, delivered, dispatched)
      ensures entities == old(entities) && Subscribers() == old(Subscribers()) && suppressNotifications == old(suppressNotifications)
    {
      RegistrationRun(a0, h0, d0, p0, Subscribers(), entityId, named, i, clock, attributes, changeHistory, delivered, dispatched);
      RegisterAttribute(entityId, named[i].1, clock);
    }

    /** `registerEntity(entity)`: stored, each attribute registered in map order, two listeners added to the entity, then announced. */
    method RegisterEntity(entity: Entity, onChanged: ListenerId, onCreated: ListenerId, clock: int)
      requires Valid() && entity.Valid()
      modifies this, entity
      ensures Valid() && entity.Valid()
      ensures entities == old(entities).Put(entity.id, entity)
      ensures var all := old(NamesOf(entity.GetAllAttributes()));
        var events := Registrations(entity.id, all, clock)
          + [HistoryEntry("entity:registered", ChangeData(entity.id, entity.entityType, "", Undefined, Undefined, None, clock), clock)];
        attributes == RegisterAll(old(attributes), entity.id, all)
        && changeHistory == PushAll(old(changeHistory), events, MaxHistorySize)
        && delivered == old(delivered) + Broadcast(Subscribers(), events)
        && dispatched == old(dispatched) + Dispatches(events)
      ensures Subscribers() == old(Subscribers()) && suppressNotifications == old(suppressNotifications)
      ensures onChanged in entity.ListenersOf("attribute:changed") && onCreated in entity.ListenersOf("attribute:created")
      ensures entity.listeners == Joined(Joined(old(entity.listeners), "attribute:changed", onChanged), "attribute:created", onCreated)
      ensures forall e :: e != "attribute:changed" && e != "attribute:created" ==> entity.ListenersOf(e) == old(entity.ListenersOf(e))
      ensures entity.Header() == old(entity.Header()) && entity.attributes == old(entity.attributes)
      ensures entity.metadata == old(entity.metadata) && entity.emitted == old(entity.emitted)
    {
      var all := NamesOf(entity.GetAllAttributes());
      var id, kind := entity.id, entity.entityType;
      entities := entities.Put(id, entity);
      RegisterEach(id, all, clock);
      assert all[..|all|] == all;
      Forward(entity, onChanged, onCreated);
      var last := HistoryEntry("entity:registered", ChangeData(id, kind, "", Undefined, Undefined, None, clock), clock);
      NotifyChange(last.eventType, last.data, clock);
      NotifiedAfter(old(changeHistory), old(delivered), old(dispatched), Subscribers(), Registrations(id, all, clock), last, clock);
    }

    /** The two `entity.on` calls of `registerEntity`: the entity's `attribute:changed` and `attribute:created` events are forwarded. */
    static method Forward(entity: Entity, onChanged: ListenerId, onCreated: ListenerId)
      requires entity.Valid()
      modifies entity
      ensures entity.Valid()
      ensures onChanged in entity.ListenersOf("attribute:changed") && onCreated in entity.ListenersOf("attribute:created")
      ensures entity.listeners == Joined(Joined(old(entity.listeners), "attribute:changed", onChanged), "attribute:created", onCreated)
      ensures forall e :: e != "attribute:changed" && e != "attribute:created" ==> entity.ListenersOf(e) == old(entity.ListenersOf(e))
      ensures entity.Header() == old(entity.Header()) && entity.attributes == old(entity.attributes)
      ensures entity.metadata == old(entity.metadata) && entity.emitted == old(entity.emitted)
    {
      entity.On("attribute:changed", onChanged);
      entity.On("attribute:created", onCreated);
    }

    /**
     * `unregisterEntity(entityId)`: an unknown id changes nothing. Otherwise the
     * entity and its entity-tier subscribers go and the removal is announced
     * (without the entity type, so the type tier hears nothing). The attribute
     * loop runs over `Object.keys` of the attribute `Map`, which has no own
     * keys, so every registry key of the entity stays.
     */
    method UnregisterEntity(entityId: string, clock: int)
      requires Valid()
      modifies this
      ensures Valid() && attributes == old(attributes)
      ensures var data := ChangeData(entityId, "", "", Undefined, Undefined, None, clock);
        if entityId in old(entities.entries) then
          entities == old(entities).Remove(entityId) && entitySubscriptions == old(entitySubscriptions) - {entityId}
          && EntityTier(Subscribers(), data) == [] && TypeTier(Subscribers(), data) == []
          && changeHistory == Recorded(old(changeHistory), "entity:unregistered", data, clock)
          && delivered == old(delivered) + Recipients(Subscribers(), "entity:unregistered", data)
          && dispatched == old(dispatched) + [Dispatch("entity:unregistered", data)]
        else
          entities == old(entities) && entitySubscriptions == old(entitySubscriptions)
          && changeHistory == old(changeHistory) && delivered == old(delivered) && dispatched == old(dispatched)
      ensures subscriptions == old(subscriptions) && typeSubscriptions == old(typeSubscriptions)
      ensures globalSubscriptions == old(globalSubscriptions) && suppressNotifications == old(suppressNotifications)
    {
      if entities.Has(entityId) {
        entities := entities.Remove(entityId);
        entitySubscriptions := entitySubscriptions - {entityId};
        NotifyChange("entity:unregistered", ChangeData(entityId, "", "", Undefined, Undefined, None, clock), clock);
      }
    }

    /** `getEntity(entityId)`, `None` for null. */
    function GetEntity(entityId: string): (r: Option<Entity>)
      reads this
      ensures r.Some? <==> entities.Has(entityId)
      ensures r.Some? ==> r.value == entities.entries[entityId]
    {
      if entities.Has(entityId) then Some(entities.entries[entityId]) else None
    }

    /** `getAttribute(entityId, name)`, `None` for null. */
    function GetAttribute(entityId: string, name: string): (r: Option<Attribute>)
      reads this
      ensures r.Some? <==> HasAttribute(entityId, name)
      ensures r.Some? ==> r.value == attributes.entries[AttributeKey(entityId, name)]
    {
      var key := AttributeKey(entityId, name);
      if key in attributes.entries then Some(attributes.entries[key]) else None
    }

    predicate HasAttribute(entityId: string, name: string)
      reads this
    {
      attributes.Has(AttributeKey(entityId, name))
    }

    /** `subscribe(entityId, attributeName, callback)` */
    method Subscribe(entityId: string, name: string, callback: CallbackId)
      requires Valid()
      modifies this
      ensures Valid() && subscriptions == Subscribed(old(subscriptions), AttributeKey(entityId, name), callback)
      ensures attributes == old(attributes) && entities == old(entities) && changeHistory == old(changeHistory)
      ensures entitySubscriptions == old(entitySubscriptions) && typeSubscriptions == old(typeSubscriptions)
      ensures globalSubscriptions == old(globalSubscriptions) && suppressNotifications == old(suppressNotifications)
      ensures delivered == old(delivered) && dispatched == old(dispatched)
    {
      subscriptions := Subscribed(subscriptions, AttributeKey(entityId, name), callback);
    }

    /** The function `subscribe` returns. */
    method Unsubscribe(entityId: string, name: string, callback: CallbackId)
      requires Valid()
      modifies this
      ensures Valid() && subscriptions == Unsubscribed(old(subscriptions), AttributeKey(entityId, name), callback)
      ensures attributes == old(attributes) && entities == old(entities) && changeHistory == old(changeHistory)
      ensures entitySubscriptions == old(entitySubscriptions) && typeSubscriptions == old(typeSubscriptions)
      ensures globalSubscriptions == old(globalSubscriptions) && suppressNotifications == old(suppressNotifications)
      ensures delivered == old(delivered) && dispatched == old(dispatched)
    {
      subscriptions := Unsubscribed(subscriptions, AttributeKey(entityId, name), callback);
    }

    /** `subscribeToEntity(entityId, callback)` */
    method SubscribeToEntity(entityId: string, callback: CallbackId)
      requires Valid()
      modifies this
      ensures Valid() && entitySubscriptions == Subscribed(old(entitySubscriptions), entityId, callback)
      ensures attributes == old(attributes) && entities == old(entities) && changeHistory == old(changeHistory)
      ensures subscriptions == old(subscriptions) && typeSubscriptions == old(typeSubscriptions)
      ensures globalSubscriptions == old(globalSubscriptions) && suppressNotifications == old(suppressNotifications)
      ensures delivered == old(delivered) && dispatched == old(dispatched)
    {
      entitySubscriptions := Subscribed(entitySubscriptions, entityId, callback);
    }

    /** The function `subscribeToEntity` returns. */
    method UnsubscribeFromEntity(entityId: string, callback: CallbackId)
      requires Valid()
      modifies this
      ensures Valid() && entitySubscriptions == Unsubscribed(old(entitySubscriptions), entityId, callback)
      ensures attributes == old(attributes) && entities == old(entities) && changeHistory == old(changeHistory)
      ensures subscriptions == old(subscriptions) && typeSubscriptions == old(typeSubscriptions)
      ensures globalSubscriptions == old(globalSubscriptions) && suppressNotifications == old(suppressNotifications)
      ensures delivered == old(delivered) && dispatched == old(dispatched)
    {
      entitySubscriptions := Unsubscribed(entitySubscriptions, entityId, callback);
    }

    /** `subscribeToType(entityType, callback)` */
    method SubscribeToType(entityType: string, callback: CallbackId)
      requires Valid()
      modifies this
      ensures Valid() && typeSubscriptions == Subscribed(old(typeSubscriptions), entityType, callback)
      ensures attributes == old(attributes) && entities == old(entities) && changeHistory == old(changeHistory)
      ensures subscriptions == old(subscriptions) && entitySubscriptions == old(entitySubscriptions)
      ensures globalSubscriptions == old(globalSubscriptions) && suppressNotifications == old(suppressNotifications)
      ensures delivered == old(delivered) && dispatched == old(dispatched)
    {
      typeSubscriptions := Subscribed(typeSubscriptions, entityType, callback);
    }

    /** The function `subscribeToType` returns. */
    method UnsubscribeFromType(entityType: string, callback: CallbackId)
      requires Valid()
      modifies this
      ensures Valid() && typeSubscriptions == Unsubscribed(old(typeSubscriptions), entityType, callback)
      ensures attributes == old(attributes) && entities == old(entities) && changeHistory == old(changeHistory)
      ensures subscriptions == old(subscriptions) && entitySubscriptions == old(entitySubscriptions)
      ensures globalSubscriptions == old(globalSubscriptions) && suppressNotifications == old(suppressNotifications)
      ensures delivered == old(delivered) && dispatched == old(dispatched)
    {
      typeSubscriptions := Unsubscribed(typeSubscriptions, entityType, callback);
    }

    /** `subscribeGlobal(callback)`: added to the global set once. */
    method SubscribeGlobal(callback: CallbackId)
      requires Valid()
      modifies this
      ensures Valid() && callback in globalSubscriptions
      ensures globalSubscriptions == if callback in old(globalSubscriptions) then old(globalSubscriptions) else old(globalSubscriptions) + [callback]
      ensures attributes == old(attributes) && entities == old(entities) && changeHistory == old(changeHistory)
      ensures subscriptions == old(subscriptions) && entitySubscriptions == old(entitySubscriptions)
      ensures typeSubscriptions == old(typeSubscriptions) && suppressNotifications == old(suppressNotifications)
      ensures delivered == old(delivered) && dispatched == old(dispatched)
    {
      if callback !in globalSubscriptions {
        globalSubscriptions := globalSubscriptions + [callback];
      }
    }

    /** The function `subscribeGlobal` returns. */
    method UnsubscribeGlobal(callback: CallbackId)
      requires Valid()
      modifies this
      ensures Valid() && callback !in globalSubscriptions
      ensures globalSubscriptions == Without(old(globalSubscriptions), callback)
      ensures attributes == old(attributes) && entities == old(entities) && changeHistory == old(changeHistory)
      ensures subscriptions == old(subscriptions) && entitySubscriptions == old(entitySubscriptions)
      ensures typeSubscriptions == old(typeSubscriptions) && suppressNotifications == old(suppressNotifications)
      ensures delivered == old(delivered) && dispatched == old(dispatched)
    {
      globalSubscriptions := Without(globalSubscriptions, callback);
    }

    /** The ids of the registered entities of type `entityType`. */
    ghost function IdsOfType(entityType: string): set<string>
      reads this, entities.entries.Values
    {
      set id | id in entities.entries && entities.entries[id].entityType == entityType
    }

    /** `getEntitiesByType(entityType)`: the registered entities of that type, in registration order. */
    method GetEntitiesByType(entityType: string) returns (r: seq<Entity>)
      requires Valid()
      ensures r == ValuesAt(Only(entities.keys, IdsOfType(entityType)), entities.entries)
    {
      r := [];
      var i := 0;
      while i < |entities.keys|
        invariant 0 <= i <= |entities.keys|
        invariant r == ValuesAt(Only(entities.keys[..i], IdsOfType(entityType)), entities.entries)
      {
        var id := entities.keys[i];
        assert entities.keys[..i + 1][..i] == entities.keys[..i];
        if entities.entries[id].entityType == entityType {
          r := r + [entities.entries[id]];
        }
        i := i + 1;
      }
      assert entities.keys[..i] == entities.keys;
    }

    /**
     * `getEntityAttributes(entityId)`: a new map from names to the attributes
     * registered under `entityId::name`.
     */
    method GetEntityAttributes(entityId: string) returns (r: OMap<string, Attribute>)
      requires Valid()
      ensures r.Valid()
      ensures forall n :: n in r.entries <==> HasAttribute(entityId, n)
      ensures forall n :: n in r.entries ==>
        AttributeKey(entityId, n) in attributes.entries && r.entries[n] == attributes.entries[AttributeKey(entityId, n)]
    {
      r := EmptyMap();
      var i := 0;
      var prefix := entityId + "::";
      while i < |attributes.keys|
        invariant 0 <= i <= |attributes.keys|
        invariant r == EntityAttributes(entityId, attributes.keys[..i], attributes.entries)
      {
        var key := attributes.keys[i];
        assert attributes.keys[..i + 1][..i] == attributes.keys[..i];
        if StartsWith(key, prefix) {
          r := r.Put(key[|entityId| + 2..], attributes.entries[key]);
        }
        i := i + 1;
      }
      assert attributes.keys[..i] == attributes.keys;
      EntityAttributesExact(entityId, attributes.keys, attributes.entries);
    }

    /** The registry keys whose attribute has type `kindName`. */
    ghost function KeysOfKind(kindName: string): set<string>
      reads this, attributes.entries.Values
    {
      set k | k in attributes.entries && KindName(attributes.entries[k].kind) == kindName
    }

    /** `getAttributesByType(attributeType)`: a new map of the registered attributes of that type, keys and order kept. */
    method GetAttributesByType(kindName: string) returns (r: OMap<string, Attribute>)
      requires Valid()
      ensures r.Valid() && r.keys == Only(attributes.keys, KeysOfKind(kindName))
      ensures forall k :: k in r.entries <==> k in attributes.entries && KindName(attributes.entries[k].kind) == kindName
      ensures forall k :: k in r.entries ==> r.entries[k] == attributes.entries[k]
    {
      r := EmptyMap();
      var i := 0;
      while i < |attributes.keys|
        invariant 0 <= i <= |attributes.keys|
        invariant r == Restricted(attributes.keys[..i], attributes.entries, KeysOfKind(kindName))
      {
        var key := attributes.keys[i];
        assert attributes.keys[..i + 1][..i] == attributes.keys[..i];
        if KindName(attributes.entries[key].kind) == kindName {
          r := r.Put(key, attributes.entries[key]);
        }
        i := i + 1;
      }
      assert attributes.keys[..i] == attributes.keys;
      RestrictedContents(attributes.keys, attributes.entries, KeysOfKind(kindName));
    }

    /** The registry keys whose attribute name the pattern matches. */
    ghost function KeysMatching(host: Host, pattern: string): set<string>
      reads this, attributes.entries.Values
    {
      set k | k in attributes.entries && host.regexTest(pattern, attributes.entries[k].name)
    }

    /**
     * `searchAttributes(pattern)` with a string pattern, compiled
     * case-insensitively (`host.regexTest`): a new map of the registered
     * attributes whose name matches, keys and order kept.
     */
    method SearchAttributes(host: Host, pattern: string) returns (r: OMap<string, Attribute>)
      requires Valid()
      ensures r.Valid() && r.keys == Only(attributes.keys, KeysMatching(host, pattern))
      ensures forall k :: k in r.entries <==> k in attributes.entries && host.regexTest(pattern, attributes.entries[k].name)
      ensures forall k :: k in r.entries ==> r.entries[k] == attributes.entries[k]
    {
      r := EmptyMap();
      var i := 0;
      while i < |attributes.keys|
        invariant 0 <= i <= |attributes.keys|
        invariant r == Restricted(attributes.keys[..i], attributes.entries, KeysMatching(host, pattern))
      {
        var key := attributes.keys[i];
        assert attributes.keys[..i + 1][..i] == attributes.keys[..i];
        if host.regexTest(pattern, attributes.entries[key].name) {
          r := r.Put(key, attributes.entries[key]);
        }
        i := i + 1;
      }
      assert attributes.keys[..i] == attributes.keys;
      RestrictedContents(attributes.keys, attributes.entries, KeysMatching(host, pattern));
    }

    /** The counting loop of `getStats()`: one tally by attribute type, one by entity id. */
    method CountLabels() returns (types: OMap<string, nat>, owners: OMap<string, nat>)
      requires Valid()
      ensures types == Tally(KindLabels(attributes.keys, attributes.entries))
      ensures owners == Tally(EntityParts(attributes.keys))
    {
      var keys, entries := attributes.keys, attributes.entries;
      types, owners := EmptyMap(), EmptyMap();
      var i := 0;
      while i < |keys|
        invariant 0 <= i <= |keys|
        invariant types == Tally(KindLabels(keys[..i], entries))
        invariant owners == Tally(EntityParts(keys[..i]))
      {
        var key := keys[i];
        TallyKindsStep(keys, entries, i, types);
        TallyOwnersStep(keys, i, owners);
        types := Counted(types, KindName(entries[key].kind));
        owners := Counted(owners, EntityPart(key));
        i := i + 1;
      }
      assert keys[..i] == keys;
    }

    /** What `getStats()` reports for the current state. */
    function StatsOf(): (s: Stats)
      reads this, attributes.entries.Values
      requires Valid()
    {
      Stats(|attributes.keys|, |subscriptions|, |entitySubscriptions|, |typeSubscriptions|, |globalSubscriptions|,
            InPropertyOrder(Pairs(Tally(KindLabels(attributes.keys, attributes.entries)))),
            InPropertyOrder(Pairs(Tally(EntityParts(attributes.keys)))),
            |changeHistory|)
    }

    /**
     * `getStats()`: the sizes of the registry, the four tiers and the history,
     * and how many attributes each type and each entity id has.
     */
    method GetStats() returns (s: Stats)
      requires Valid()
      ensures s == StatsOf()
      ensures s.totalAttributes == |attributes.keys| && s.historySize == |changeHistory|
      ensures forall p :: p in s.typeDistribution <==>
        p.0 in KindLabels(attributes.keys, attributes.entries) && p.1 == multiset(KindLabels(attributes.keys, attributes.entries))[p.0]
      ensures forall p :: p in s.entityDistribution <==>
        p.0 in EntityParts(attributes.keys) && p.1 == multiset(EntityParts(attributes.keys))[p.0]
    {
      var types, owners := CountLabels();
      s := Stats(|attributes.keys|, |subscriptions|, |entitySubscriptions|, |typeSubscriptions|, |globalSubscriptions|,
                 InPropertyOrder(Pairs(types)), InPropertyOrder(Pairs(owners)), |changeHistory|);
      DistributionExact(KindLabels(attributes.keys, attributes.entries));
      DistributionExact(EntityParts(attributes.keys));
    }

    /**
     * `export()`: every registered attribute serialized under its key (in
     * property order, as the keys of a plain object), the stats, the history
     * and the time.
     */
    method Export(clock: int) returns (x: SpaceExport)
      requires Valid()
      ensures KeysOf(x.attributes) == PropertyKeyOrder(attributes.keys)
      ensures forall i :: 0 <= i < |x.attributes| ==>
        x.attributes[i].0 in attributes.entries && x.attributes[i].1 == attributes.entries[x.attributes[i].0].Serialize()
      ensures x.stats == StatsOf() && x.history == changeHistory && x.timestamp == clock
    {
      var keys := PropertyKeyOrder(attributes.keys);
      assert forall k :: k in keys ==> k in multiset(attributes.keys);
      var records := SerializeEach(keys);
      var stats := GetStats();
      x := SpaceExport(records, stats, changeHistory, clock);
    }

    /** `attributesData[key] = attribute.serialize()` for each of `keys`, in order. */
    method SerializeEach(keys: seq<string>) returns (records: seq<(string, AttributeData)>)
      requires forall k :: k in keys ==> k in attributes.entries
      ensures KeysOf(records) == keys
      ensures forall i :: 0 <= i < |records| ==>
        records[i].0 in attributes.entries && records[i].1 == attributes.entries[records[i].0].Serialize()
    {
      records := [];
      var i := 0;
      while i < |keys|
        invariant 0 <= i <= |keys| && |records| == i
        invariant forall j :: 0 <= j < i ==>
          records[j].0 == keys[j] && keys[j] in attributes.entries && records[j].1 == attributes.entries[keys[j]].Serialize()
      {
        records := records + [(keys[i], attributes.entries[keys[i]].Serialize())];
        i := i + 1;
      }
      assert KeysOf(records) == keys;
    }

    /**
     * `import(data)`: everything is cleared, then each record is restored
     * under its key, in order, and the history replaced when given. The
     * imported history is not cut to its limit.
     */
    method Import(data: SpaceImport, clock: int)
      requires Valid()
      requires data.attributes.Some? ==> Distinct(KeysOf(data.attributes.value))
      modifies this
      ensures Valid() && Subscribers() == Tiers(map[], map[], map[], [])
      ensures attributes.keys == if data.attributes.Some? then KeysOf(data.attributes.value) else []
      ensures data.attributes.Some? ==> forall i :: 0 <= i < |data.attributes.value| ==>
        var (key, record) := data.attributes.value[i];
        key in attributes.entries && Restored(attributes.entries[key], record, clock)
      ensures forall k :: k in attributes.entries ==> fresh(attributes.entries[k])
      ensures changeHistory == if data.history.Some? then data.history.value else []
      ensures entities == old(entities) && suppressNotifications == old(suppressNotifications)
      ensures delivered == old(delivered) && dispatched == old(dispatched)
    {
      Clear();
      if data.attributes.Some? {
        attributes := BuildAttributes(data.attributes.value, clock);
      }
      if data.history.Some? {
        changeHistory := data.history.value;
      }
    }

    /** `getHistory(options)` */
    function GetHistory(q: HistoryQuery): seq<HistoryEntry>
      reads this
    {
      History(q, changeHistory)
    }

    /** `clearHistory(options)` */
    method ClearHistory(before: Option<int>)
      modifies this
      ensures changeHistory == Cleared(old(changeHistory), before)
      ensures Registry() == old(Registry()) && delivered == old(delivered) && dispatched == old(dispatched)
    {
      if before.Some? {
        changeHistory := Cleared(changeHistory, before);
      } else {
        changeHistory := [];
      }
    }

    /** `clear()`: every table and the history are emptied; the registered entities stay. */
    method Clear()
      requires Valid()
      modifies this
      ensures Valid() && attributes == EmptyMap() && Subscribers() == Tiers(map[], map[], map[], []) && changeHistory == []
      ensures entities == old(entities) && suppressNotifications == old(suppressNotifications)
      ensures delivered == old(delivered) && dispatched == old(dispatched)
    {
      attributes := EmptyMap();
      subscriptions := map[];
      entitySubscriptions := map[];
      typeSubscriptions := map[];
      globalSubscriptions := [];
      changeHistory := [];
    }
  }
}
