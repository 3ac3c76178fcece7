/**
 * `EventBus`: publish/subscribe by event name. Subscribers are kept per event
 * in a durable table and a once-only table, plus a set of wildcard callbacks;
 * `emit` gathers them, orders them by descending priority and calls them in
 * turn, skipping those whose condition fails, stopping at the first that
 * returns `false`, and reporting a throwing one through a nested
 * `eventbus:error` emission. Every emission is kept in a history of at most
 * 500 records.
 *
 * Callbacks are identities; what a callback returns or throws when called
 * with an event record is given by a `Behaviour` passed to `emit`.
 */
module EventBuses {
  import opened Wrappers
  import opened JsValues
  import opened OrderedMaps
  import opened BoundedLogs
  import opened StableSort

  /** The identity of a callback function. */
  type CallbackId = nat

  const MaxHistorySize: nat := 500
  const ErrorEvent: string := "eventbus:error"

  /** A value passed to `on`/`onAny`: a function, or anything else (which makes them throw). */
  datatype Callable = Function(id: CallbackId) | NotAFunction

  /** The wrapper `on` stores: the callback, its priority, its condition and its generated id. */
  datatype Subscription = Subscription(original: CallbackId, priority: int, condition: Option<CallbackId>, id: string)

  /** What an emission carries: the caller's data, or the report `handleCallbackError` emits. */
  datatype Payload =
    | Data(value: Value)
    | ErrorReport(error: Value, event: string, callbackId: string, timestamp: int)

  /** The `eventData` object each callback receives, also the history record. */
  datatype EventRecord = EventRecord(event: string, data: Payload, timestamp: int, source: string)

  /** A call of a callback either returns a value or throws one. */
  datatype Outcome = Returned(value: Value) | Threw(error: Value)

  type Behaviour = (CallbackId, EventRecord) -> Outcome

  /** What `emit` settles to: the results in invocation order, or the error it rejects with. */
  datatype Emitted = Results(values: seq<Value>) | Rejected(error: Value)

  /** A callback invoked with a record (conditions are not logged). */
  datatype Call = Call(callback: CallbackId, record: EventRecord)

  /** The options of `on`: an empty namespace is no namespace. */
  datatype SubscribeOptions = SubscribeOptions(once: bool, priority: int, namespace: string, condition: Option<CallbackId>)

  /** The options of `emit` (synchronous only): an empty namespace or source is a missing one. */
  datatype EmitOptions = EmitOptions(namespace: string, stopOnError: bool, source: string)

  /** What stays fixed during an emission: the behaviour of the callbacks, the durable table and the wildcards. */
  datatype Stage = Stage(behave: Behaviour, listeners: OMap<string, seq<Subscription>>, wildcards: seq<CallbackId>)

  /**
   * What an emission changes: the once-only table, the history, and two logs
   * the model keeps beside them, the callbacks called and every record emitted.
   */
  datatype Trace = Trace(once: OMap<string, seq<Subscription>>, history: seq<EventRecord>, calls: seq<Call>, emitted: seq<EventRecord>)

  /** `table.get(event)`, or nothing when the event has no set. */
  function Members(table: OMap<string, seq<Subscription>>, event: string): seq<Subscription> {
    if event in table.entries then table.entries[event] else []
  }

  /** A table of sets that are kept in insertion order and deleted when emptied. */
  ghost predicate WellKept(table: OMap<string, seq<Subscription>>) {
    table.Valid() && forall e :: e in table.entries ==> table.entries[e] != []
  }

  /** The wrappers `emit` makes for the wildcard callbacks: priority 0, no condition. */
  function Wildcards(callbacks: seq<CallbackId>): (r: seq<Subscription>)
    ensures |r| == |callbacks|
    ensures forall i :: 0 <= i < |r| ==> r[i] == Subscription(callbacks[i], 0, None, "wildcard")
  {
    seq(|callbacks|, i requires 0 <= i < |callbacks| => Subscription(callbacks[i], 0, None, "wildcard"))
  }

  /** Durable subscribers, then once-only ones, then wildcards, each in insertion order. */
  function Gathered(listeners: OMap<string, seq<Subscription>>, once: OMap<string, seq<Subscription>>,
                    wildcards: seq<CallbackId>, event: string): seq<Subscription>
  {
    Members(listeners, event) + Members(once, event) + Wildcards(wildcards)
  }

  /** The sort key of `(a, b) => b.priority - a.priority`: ascending in it is descending in priority. */
  function Descending(s: Subscription): int {
    -s.priority
  }

  /** `allCallbacks.sort(...)`, a stable sort by descending priority. */
  function InvocationOrder(subs: seq<Subscription>): seq<Subscription> {
    SortBy(subs, Descending)
  }

  /** The record `emit` builds; a missing source is `'unknown'`. */
  function Record(event: string, data: Payload, clock: int, source: string): EventRecord {
    EventRecord(event, data, clock, if source == "" then "unknown" else source)
  }

  /** `onceListeners.delete(event)` when the event has once-only subscribers. */
  function Unlisted(once: OMap<string, seq<Subscription>>, event: string): OMap<string, seq<Subscription>> {
    if event in once.entries then once.Remove(event) else once
  }

  /**
   * The synchronous path of `emit` on a bus without namespace. `fuel` bounds
   * how deeply error reports nest: a report that would go deeper is dropped.
   */
  function EmitEvent(g: Stage, t: Trace, record: EventRecord, stopOnError: bool, fuel: nat): (Trace, Emitted)
    decreases fuel, 1, 0
  {
    var subs := InvocationOrder(Gathered(g.listeners, t.once, g.wildcards, record.event));
    Deliver(g, Trace(Unlisted(t.once, record.event), Push(t.history, record, MaxHistorySize), t.calls, t.emitted + [record]),
            record, subs, 0, [], stopOnError, fuel)
  }

  /** The loop of `emit` from the `i`-th subscriber on, with the results so far. */
  function Deliver(g: Stage, t: Trace, record: EventRecord, subs: seq<Subscription>, i: nat, results: seq<Value>,
                   stopOnError: bool, fuel: nat): (Trace, Emitted)
    requires i <= |subs|
    decreases fuel, 0, |subs| - i
  {
    if i == |subs| then (t, Results(results))
    else
      var s := subs[i];
      var test := if s.condition.Some? then Some(g.behave(s.condition.value, record)) else None;
      if test.Some? && test.value.Threw? then
        var reported := Reported(g, t, test.value.error, record, s, fuel);
        if stopOnError then (reported, Rejected(test.value.error))
        else Deliver(g, reported, record, subs, i + 1, results, stopOnError, fuel)
      else if test.Some? && !Truthy(test.value.value) then
        Deliver(g, t, record, subs, i + 1, results, stopOnError, fuel)
      else
        var called := t.(calls := t.calls + [Call(s.original, record)]);
        var outcome := g.behave(s.original, record);
        if outcome.Threw? then
          var reported := Reported(g, called, outcome.error, record, s, fuel);
          if stopOnError then (reported, Rejected(outcome.error))
          else Deliver(g, reported, record, subs, i + 1, results, stopOnError, fuel)
        else if outcome.value == Bool(false) then (called, Results(results + [outcome.value]))
        else Deliver(g, called, record, subs, i + 1, results + [outcome.value], stopOnError, fuel)
  }

  /** The report `handleCallbackError` emits for an error thrown while delivering `record` to `s`. */
  function ErrorRecord(error: Value, record: EventRecord, s: Subscription): EventRecord {
    EventRecord(ErrorEvent, ErrorReport(error, record.event, s.id, record.timestamp), record.timestamp, "unknown")
  }

  /** `handleCallbackError`: an `eventbus:error` emission that never stops on error. */
  function Reported(g: Stage, t: Trace, error: Value, record: EventRecord, s: Subscription, fuel: nat): Trace
    decreases fuel, 0, 0
  {
    if fuel == 0 then t else EmitEvent(g, t, ErrorRecord(error, record, s), false, fuel - 1).0
  }

  /**
   * One turn of the loop of `emit` for subscriber `s`: the trace after it, the
   * result when the loop ends there, and the results so far otherwise.
   */
  function Visited(g: Stage, t: Trace, record: EventRecord, s: Subscription, results: seq<Value>,
                   stopOnError: bool, fuel: nat): (Trace, Option<Emitted>, seq<Value>)
  {
    var test := if s.condition.Some? then Some(g.behave(s.condition.value, record)) else None;
    if test.Some? && test.value.Threw? then
      var reported := Reported(g, t, test.value.error, record, s, fuel);
      (reported, if stopOnError then Some(Rejected(test.value.error)) else None, results)
    else if test.Some? && !Truthy(test.value.value) then (t, None, results)
    else
      var called := t.(calls := t.calls + [Call(s.original, record)]);
      var outcome := g.behave(s.original, record);
      if outcome.Threw? then
        (Reported(g, called, outcome.error, record, s, fuel), if stopOnError then Some(Rejected(outcome.error)) else None, results)
      else if outcome.value == Bool(false) then (called, Some(Results(results + [outcome.value])), results + [outcome.value])
      else (called, None, results + [outcome.value])
  }

  /** The loop of `emit` is its turns one after another. */
  lemma DeliverVisits(g: Stage, t: Trace, record: EventRecord, subs: seq<Subscription>, i: nat, results: seq<Value>,
                      stopOnError: bool, fuel: nat)
    requires i < |subs|
    ensures var v := Visited(g, t, record, subs[i], results, stopOnError, fuel);
      Deliver(g, t, record, subs, i, results, stopOnError, fuel)
      == if v.1.Some? then (v.0, v.1.value) else Deliver(g, v.0, record, subs, i + 1, v.2, stopOnError, fuel)
  {
  }

  /** `small` holds some of the sets of `big`, unchanged. */
  ghost predicate Shrinks(big: OMap<string, seq<Subscription>>, small: OMap<string, seq<Subscription>>) {
    forall e :: e in small.entries ==> e in big.entries && small.entries[e] == big.entries[e]
  }

  /** The once-only table is well kept and the history holds the newest of everything emitted after `h0`. */
  ghost predicate Logged(h0: seq<EventRecord>, t: Trace) {
    WellKept(t.once) && |h0| <= MaxHistorySize && t.history == PushAll(h0, t.emitted, MaxHistorySize)
  }

  lemma WellKeptShrinks(big: OMap<string, seq<Subscription>>, small: OMap<string, seq<Subscription>>)
    requires WellKept(big) && small.Valid() && Shrinks(big, small)
    ensures WellKept(small)
  {
  }

  /**
   * An emission keeps the tables well kept and the history in step with the
   * records emitted, and leaves no once-only subscriber for its event.
   */
  lemma {:induction false} EmitEventKeeps(h0: seq<EventRecord>, g: Stage, t: Trace, record: EventRecord, stopOnError: bool, fuel: nat)
    requires Logged(h0, t)
    ensures var r := EmitEvent(g, t, record, stopOnError, fuel).0;
      Logged(h0, r) && Shrinks(Unlisted(t.once, record.event), r.once) && record.event !in r.once.entries
    decreases fuel, 1, 0
  {
    var subs := InvocationOrder(Gathered(g.listeners, t.once, g.wildcards, record.event));
    var t1 := Trace(Unlisted(t.once, record.event), Push(t.history, record, MaxHistorySize), t.calls, t.emitted + [record]);
    PushAllSnoc(h0, t.emitted, record, MaxHistorySize);
    WellKeptShrinks(t.once, t1.once);
    DeliverKeeps(h0, g, t1, record, subs, 0, [], stopOnError, fuel);
  }

  lemma {:induction false} DeliverKeeps(h0: seq<EventRecord>, g: Stage, t: Trace, record: EventRecord, subs: seq<Subscription>,
                                        i: nat, results: seq<Value>, stopOnError: bool, fuel: nat)
    requires i <= |subs| && Logged(h0, t)
    ensures var r := Deliver(g, t, record, subs, i, results, stopOnError, fuel).0;
      Logged(h0, r) && Shrinks(t.once, r.once)
    decreases fuel, 0, |subs| - i
  {
    if i < |subs| {
      var s := subs[i];
      var test := if s.condition.Some? then Some(g.behave(s.condition.value, record)) else None;
      if test.Some? && test.value.Threw? {
        ReportedKeeps(h0, g, t, test.value.error, record, s, fuel);
        if !stopOnError {
          DeliverKeeps(h0, g, Reported(g, t, test.value.error, record, s, fuel), record, subs, i + 1, results, stopOnError, fuel);
        }
      } else if test.Some? && !Truthy(test.value.value) {
        DeliverKeeps(h0, g, t, record, subs, i + 1, results, stopOnError, fuel);
      } else {
        var called := t.(calls := t.calls + [Call(s.original, record)]);
        var outcome := g.behave(s.original, record);
        if outcome.Threw? {
          ReportedKeeps(h0, g, called, outcome.error, record, s, fuel);
          if !stopOnError {
            DeliverKeeps(h0, g, Reported(g, called, outcome.error, record, s, fuel), record, subs, i + 1, results, stopOnError, fuel);
          }
        } else if outcome.value != Bool(false) {
          DeliverKeeps(h0, g, called, record, subs, i + 1, results + [outcome.value], stopOnError, fuel);
        }
      }
    }
  }

  lemma {:induction false} ReportedKeeps(h0: seq<EventRecord>, g: Stage, t: Trace, error: Value, record: EventRecord, s: Subscription, fuel: nat)
    requires Logged(h0, t)
    ensures Logged(h0, Reported(g, t, error, record, s, fuel))
    ensures Shrinks(t.once, Reported(g, t, error, record, s, fuel).once)
    decreases fuel, 0, 0
  {
    if fuel > 0 {
      ReportedKeepsStep(h0, g, t, error, record, s, fuel);
    } else {
      var r := Reported(g, t, error, record, s, fuel);
      LoggedSame(h0, t, r);
      UnchangedShrinks(t.once, r.once);
    }
  }

  /** `ReportedKeeps` when fuel allows the report: the emission of the error record keeps the log and shrinks the once-listeners. */
  lemma {:induction false} ReportedKeepsStep(h0: seq<EventRecord>, g: Stage, t: Trace, error: Value, record: EventRecord, s: Subscription, fuel: nat)
    requires fuel > 0 && Logged(h0, t)
    ensures Logged(h0, Reported(g, t, error, record, s, fuel))
    ensures Shrinks(t.once, Reported(g, t, error, record, s, fuel).once)
    decreases fuel, 0, 0, 0
  {
    ErrorReportKeeps(h0, g, t, error, record, s, fuel - 1);
    ReportedEmits(g, t, error, record, s, fuel);
  }

  /** Emitting the error record keeps the log and shrinks the once-listeners. */
  lemma {:induction false} ErrorReportKeeps(h0: seq<EventRecord>, g: Stage, t: Trace, error: Value, record: EventRecord, s: Subscription, fuel: nat)
    requires Logged(h0, t)
    ensures var e := EmitEvent(g, t, ErrorRecord(error, record, s), false, fuel).0;
      Logged(h0, e) && Shrinks(t.once, e.once)
    decreases fuel, 2
  {
    var report := ErrorRecord(error, record, s);
    EmitEventKeeps(h0, g, t, report, false, fuel);
    UnlistedShrinks(t.once, report.event);
    ShrinksTransitive(t.once, Unlisted(t.once, report.event), EmitEvent(g, t, report, false, fuel).0.once);
  }

  /** A report that fuel allows is the emission of the error record. */
  lemma ReportedEmits(g: Stage, t: Trace, error: Value, record: EventRecord, s: Subscription, fuel: nat)
    requires fuel > 0
    ensures Reported(g, t, error, record, s, fuel) == EmitEvent(g, t, ErrorRecord(error, record, s), false, fuel - 1).0
  {
  }

  lemma LoggedSame(h0: seq<EventRecord>, a: Trace, b: Trace)
    requires Logged(h0, a) && a == b
    ensures Logged(h0, b)
  {
  }

  lemma UnchangedShrinks(a: OMap<string, seq<Subscription>>, b: OMap<string, seq<Subscription>>)
    requires a == b
    ensures Shrinks(a, b)
  {
  }

  lemma UnlistedShrinks(once: OMap<string, seq<Subscription>>, event: string)
    ensures Shrinks(once, Unlisted(once, event))
  {
  }

  lemma ShrinksTransitive(a: OMap<string, seq<Subscription>>, b: OMap<string, seq<Subscription>>, c: OMap<string, seq<Subscription>>)
    requires Shrinks(a, b) && Shrinks(b, c)
    ensures Shrinks(a, c)
  {
  }

  predicate Prefix<T(==)>(a: seq<T>, b: seq<T>) {
    |a| <= |b| && b[..|a|] == a
  }

  lemma PrefixTransitive<T>(a: seq<T>, b: seq<T>, c: seq<T>)
    requires Prefix(a, b) && Prefix(b, c)
    ensures Prefix(a, c)
  {
    assert c[..|a|] == c[..|b|][..|a|];
  }

  /** The logs only grow: `r` extends both logs of `t`. */
  ghost predicate Grows(t: Trace, r: Trace) {
    Prefix(t.calls, r.calls) && Prefix(t.emitted, r.emitted)
  }

  lemma GrowsTransitive(t: Trace, u: Trace, r: Trace)
    requires Grows(t, u) && Grows(u, r)
    ensures Grows(t, r)
  {
    PrefixTransitive(t.calls, u.calls, r.calls);
    PrefixTransitive(t.emitted, u.emitted, r.emitted);
  }

  /** An emission only adds to the logs, and the first record it emits is its own. */
  lemma {:induction false} EmitEventGrows(g: Stage, t: Trace, record: EventRecord, stopOnError: bool, fuel: nat)
    ensures var r := EmitEvent(g, t, record, stopOnError, fuel).0;
      Grows(t, r) && |t.emitted| < |r.emitted| && r.emitted[|t.emitted|] == record
    decreases fuel, 1, 0
  {
    var subs := InvocationOrder(Gathered(g.listeners, t.once, g.wildcards, record.event));
    var t1 := Trace(Unlisted(t.once, record.event), Push(t.history, record, MaxHistorySize), t.calls, t.emitted + [record]);
    DeliverGrows(g, t1, record, subs, 0, [], stopOnError, fuel);
    var r := EmitEvent(g, t, record, stopOnError, fuel).0;
    assert Grows(t, t1) by {
      assert t1.emitted[..|t.emitted|] == t.emitted;
    }
    GrowsTransitive(t, t1, r);
    assert r.emitted[|t.emitted|] == r.emitted[..|t1.emitted|][|t.emitted|];
  }

  lemma {:induction false} DeliverGrows(g: Stage, t: Trace, record: EventRecord, subs: seq<Subscription>,
                                        i: nat, results: seq<Value>, stopOnError: bool, fuel: nat)
    requires i <= |subs|
    ensures Grows(t, Deliver(g, t, record, subs, i, results, stopOnError, fuel).0)
    decreases fuel, 0, |subs| - i
  {
    var r := Deliver(g, t, record, subs, i, results, stopOnError, fuel).0;
    if i < |subs| {
      var s := subs[i];
      var test := if s.condition.Some? then Some(g.behave(s.condition.value, record)) else None;
      if test.Some? && test.value.Threw? {
        var reported := Reported(g, t, test.value.error, record, s, fuel);
        ReportedGrows(g, t, test.value.error, record, s, fuel);
        if !stopOnError {
          DeliverGrows(g, reported, record, subs, i + 1, results, stopOnError, fuel);
          GrowsTransitive(t, reported, r);
        }
      } else if test.Some? && !Truthy(test.value.value) {
        DeliverGrows(g, t, record, subs, i + 1, results, stopOnError, fuel);
      } else {
        var called := t.(calls := t.calls + [Call(s.original, record)]);
        assert Grows(t, called) by {
          assert called.calls[..|t.calls|] == t.calls;
        }
        var outcome := g.behave(s.original, record);
        if outcome.Threw? {
          var reported := Reported(g, called, outcome.error, record, s, fuel);
          ReportedGrows(g, called, outcome.error, record, s, fuel);
          GrowsTransitive(t, called, reported);
          if !stopOnError {
            DeliverGrows(g, reported, record, subs, i + 1, results, stopOnError, fuel);
            GrowsTransitive(t, reported, r);
          }
        } else if outcome.value != Bool(false) {
          DeliverGrows(g, called, record, subs, i + 1, results + [outcome.value], stopOnError, fuel);
          GrowsTransitive(t, called, r);
        }
      }
    } else {
      assert t.calls[..|t.calls|] == t.calls && t.emitted[..|t.emitted|] == t.emitted;
    }
  }

  /** A report that fuel allows emits the error record first. */
  lemma {:induction false} ReportedGrows(g: Stage, t: Trace, error: Value, record: EventRecord, s: Subscription, fuel: nat)
    ensures var r := Reported(g, t, error, record, s, fuel);
      Grows(t, r) && (fuel > 0 ==> |t.emitted| < |r.emitted| && r.emitted[|t.emitted|] == ErrorRecord(error, record, s))
    decreases fuel, 0, 0
  {
    if fuel > 0 {
      EmitEventGrows(g, t, ErrorRecord(error, record, s), false, fuel - 1);
    } else {
      assert t.calls[..|t.calls|] == t.calls && t.emitted[..|t.emitted|] == t.emitted;
    }
  }

  /**
   * Stable sorting by descending priority: a permutation, highest priority
   * first, and the subscribers of each priority (sort key `k`, the negated
   * priority) in gathering order.
   */
  lemma {:induction false} PriorityOrder(subs: seq<Subscription>)
    ensures var r := InvocationOrder(subs);
      multiset(r) == multiset(subs)
      && (forall i, j :: 0 <= i < j < |r| ==> r[i].priority >= r[j].priority)
      && (forall k :: WithKey(r, Descending, k) == WithKey(subs, Descending, k))
  {
    var r := InvocationOrder(subs);
    SortByAscending(subs, Descending);
    assert Ascending(r, Descending);
    forall k ensures WithKey(r, Descending, k) == WithKey(subs, Descending, k) {
      SortByStable(subs, Descending, k);
    }
  }

  /** Wildcard callbacks come after the once-only ones at equal priority, since they are gathered last. */
  lemma GatheredOrder(listeners: OMap<string, seq<Subscription>>, once: OMap<string, seq<Subscription>>,
                      wildcards: seq<CallbackId>, event: string)
    ensures WithKey(Gathered(listeners, once, wildcards, event), Descending, 0)
         == WithKey(Members(listeners, event), Descending, 0) + WithKey(Members(once, event), Descending, 0) + Wildcards(wildcards)
  {
    var w := Wildcards(wildcards);
    WithKeyAppend(Members(listeners, event) + Members(once, event), w, Descending, 0);
    WithKeyAppend(Members(listeners, event), Members(once, event), Descending, 0);
    AllWithKey(w, 0);
  }

  lemma {:induction false} AllWithKey(w: seq<Subscription>, k: int)
    requires forall i :: 0 <= i < |w| ==> Descending(w[i]) == k
    ensures WithKey(w, Descending, k) == w
  {
    if w != [] {
      AllWithKey(w[1..], k);
      assert w == [w[0]] + w[1..];
    }
  }

  /** A subscriber whose condition, if any, holds. */
  predicate Passes(behave: Behaviour, record: EventRecord, s: Subscription) {
    s.condition.None? || (behave(s.condition.value, record).Returned? && Truthy(behave(s.condition.value, record).value))
  }

  /** A subscriber whose callback returns exactly `false`. */
  predicate Stops(behave: Behaviour, record: EventRecord, s: Subscription) {
    behave(s.original, record) == Returned(Bool(false))
  }

  /** The value a call returned (`undefined` for one that threw, which a quiet delivery never meets). */
  function ValueOf(o: Outcome): Value {
    if o.Returned? then o.value else Undefined
  }

  /** Nothing called while delivering `record` to `subs` throws. */
  predicate Quiet(behave: Behaviour, record: EventRecord, subs: seq<Subscription>) {
    forall s :: s in subs ==> (s.condition.Some? ==> behave(s.condition.value, record).Returned?) && behave(s.original, record).Returned?
  }

  /** The subscribers a quiet delivery calls: those that pass, up to the first that returns `false`. */
  function Invoked(behave: Behaviour, record: EventRecord, subs: seq<Subscription>): (r: seq<Subscription>)
    ensures |r| <= |subs|
  {
    if subs == [] then []
    else if !Passes(behave, record, subs[0]) then Invoked(behave, record, subs[1..])
    else if Stops(behave, record, subs[0]) then [subs[0]]
    else [subs[0]] + Invoked(behave, record, subs[1..])
  }

  function CallsOf(record: EventRecord, subs: seq<Subscription>): (r: seq<Call>)
    ensures |r| == |subs| && forall i :: 0 <= i < |subs| ==> r[i] == Call(subs[i].original, record)
  {
    seq(|subs|, i requires 0 <= i < |subs| => Call(subs[i].original, record))
  }

  function ValuesOf(behave: Behaviour, record: EventRecord, subs: seq<Subscription>): (r: seq<Value>)
    ensures |r| == |subs| && forall i :: 0 <= i < |subs| ==> r[i] == ValueOf(behave(subs[i].original, record))
  {
    seq(|subs|, i requires 0 <= i < |subs| => ValueOf(behave(subs[i].original, record)))
  }

  /**
   * What `Invoked` promises: every subscriber called passes its condition,
   * comes from `subs` in order, and all but the last returned something
   * other than `false`.
   */
  lemma {:induction false} InvokedFacts(behave: Behaviour, record: EventRecord, subs: seq<Subscription>)
    ensures var r := Invoked(behave, record, subs);
      (forall s :: s in r ==> s in subs && Passes(behave, record, s))
      && (forall i :: 0 <= i < |r| - 1 ==> !Stops(behave, record, r[i]))
      && (Ascending(subs, Descending) ==> Ascending(r, Descending))
  {
    if subs != [] {
      InvokedFacts(behave, record, subs[1..]);
      var rest := Invoked(behave, record, subs[1..]);
      if Passes(behave, record, subs[0]) && !Stops(behave, record, subs[0]) {
        var r := [subs[0]] + rest;
        if Ascending(subs, Descending) {
          assert Ascending(subs[1..], Descending);
          forall i, j | 0 <= i < j < |r| ensures Descending(r[i]) <= Descending(r[j]) {
            if i > 0 {
              assert r[i] == rest[i - 1];
            } else {
              assert r[j] in subs[1..];
            }
          }
        }
      }
    }
  }

  /**
   * When nothing throws, a delivery calls exactly the subscribers `Invoked`
   * names, in order, and returns their results in the same order.
   */
  lemma {:induction false} DeliverQuiet(g: Stage, t: Trace, record: EventRecord, subs: seq<Subscription>, i: nat,
                                        results: seq<Value>, stopOnError: bool, fuel: nat)
    requires i <= |subs| && Quiet(g.behave, record, subs[i..])
    ensures var invoked := Invoked(g.behave, record, subs[i..]);
      Deliver(g, t, record, subs, i, results, stopOnError, fuel)
      == (t.(calls := t.calls + CallsOf(record, invoked)), Results(results + ValuesOf(g.behave, record, invoked)))
    decreases |subs| - i
  {
    if i == |subs| {
      assert subs[i..] == [];
      assert t.calls + [] == t.calls && results + [] == results;
    } else {
      var s := subs[i];
      assert subs[i..][0] == s && subs[i..][1..] == subs[i + 1..];
      assert s in subs[i..];
      DeliverStep(g, t, record, subs, i, results, stopOnError, fuel);
      if !Passes(g.behave, record, s) {
        DeliverQuiet(g, t, record, subs, i + 1, results, stopOnError, fuel);
      } else if Stops(g.behave, record, s) {
        InvokedStops(g.behave, record, subs[i..], t.calls, results);
      } else {
        var v := g.behave(s.original, record).value;
        var called := t.(calls := t.calls + [Call(s.original, record)]);
        DeliverQuiet(g, called, record, subs, i + 1, results + [v], stopOnError, fuel);
        InvokedGoes(g.behave, record, subs[i..], t.calls, results);
      }
    }
  }

  /** One quiet turn of the delivery loop: skip, stop on `false`, or record the value and go on. */
  lemma DeliverStep(g: Stage, t: Trace, record: EventRecord, subs: seq<Subscription>, i: nat,
                    results: seq<Value>, stopOnError: bool, fuel: nat)
    requires i < |subs|
    requires subs[i].condition.Some? ==> g.behave(subs[i].condition.value, record).Returned?
    requires g.behave(subs[i].original, record).Returned?
    ensures var s := subs[i];
      var called := t.(calls := t.calls + [Call(s.original, record)]);
      Deliver(g, t, record, subs, i, results, stopOnError, fuel)
      == if !Passes(g.behave, record, s) then Deliver(g, t, record, subs, i + 1, results, stopOnError, fuel)
         else if Stops(g.behave, record, s) then (called, Results(results + [Bool(false)]))
         else Deliver(g, called, record, subs, i + 1, results + [g.behave(s.original, record).value], stopOnError, fuel)
  {
  }

  /** A subscriber that returns `false` is the last one invoked. */
  lemma InvokedStops(behave: Behaviour, record: EventRecord, subs: seq<Subscription>, calls: seq<Call>, results: seq<Value>)
    requires subs != [] && Passes(behave, record, subs[0]) && Stops(behave, record, subs[0])
    ensures calls + [Call(subs[0].original, record)] == calls + CallsOf(record, Invoked(behave, record, subs))
    ensures results + [Bool(false)] == results + ValuesOf(behave, record, Invoked(behave, record, subs))
  {
    assert Invoked(behave, record, subs) == [subs[0]];
  }

  /** A subscriber that passes and returns something other than `false` is invoked before the rest. */
  lemma InvokedGoes(behave: Behaviour, record: EventRecord, subs: seq<Subscription>, calls: seq<Call>, results: seq<Value>)
    requires subs != [] && Passes(behave, record, subs[0]) && !Stops(behave, record, subs[0])
    requires behave(subs[0].original, record).Returned?
    ensures var rest := Invoked(behave, record, subs[1..]);
      calls + [Call(subs[0].original, record)] + CallsOf(record, rest) == calls + CallsOf(record, Invoked(behave, record, subs))
    ensures var rest := Invoked(behave, record, subs[1..]);
      results + [behave(subs[0].original, record).value] + ValuesOf(behave, record, rest)
      == results + ValuesOf(behave, record, Invoked(behave, record, subs))
  {
    var rest := Invoked(behave, record, subs[1..]);
    assert Invoked(behave, record, subs) == [subs[0]] + rest;
    assert CallsOf(record, [subs[0]] + rest) == [Call(subs[0].original, record)] + CallsOf(record, rest);
    assert ValuesOf(behave, record, [subs[0]] + rest) == [behave(subs[0].original, record).value] + ValuesOf(behave, record, rest);
  }

  /** Without `stopOnError` an emission never rejects: a throwing subscriber is reported and the rest still run. */
  lemma {:induction false} DeliverResolves(g: Stage, t: Trace, record: EventRecord, subs: seq<Subscription>, i: nat,
                                           results: seq<Value>, fuel: nat)
    requires i <= |subs|
    ensures Deliver(g, t, record, subs, i, results, false, fuel).1.Results?
    decreases |subs| - i
  {
    if i < |subs| {
      var s := subs[i];
      var test := if s.condition.Some? then Some(g.behave(s.condition.value, record)) else None;
      if test.Some? && test.value.Threw? {
        DeliverResolves(g, Reported(g, t, test.value.error, record, s, fuel), record, subs, i + 1, results, fuel);
      } else if test.Some? && !Truthy(test.value.value) {
        DeliverResolves(g, t, record, subs, i + 1, results, fuel);
      } else {
        var called := t.(calls := t.calls + [Call(s.original, record)]);
        var outcome := g.behave(s.original, record);
        if outcome.Threw? {
          DeliverResolves(g, Reported(g, called, outcome.error, record, s, fuel), record, subs, i + 1, results, fuel);
        } else if outcome.value != Bool(false) {
          DeliverResolves(g, called, record, subs, i + 1, results + [outcome.value], fuel);
        }
      }
    }
  }

  /**
   * A subscriber that throws is reported by an `eventbus:error` emission
   * (when fuel allows) before anything else is emitted; with `stopOnError`
   * the emission rejects with that error, otherwise delivery goes on with
   * the next subscriber.
   */
  lemma ThrownIsReported(g: Stage, t: Trace, record: EventRecord, subs: seq<Subscription>, i: nat,
                         results: seq<Value>, stopOnError: bool, fuel: nat)
    requires i < |subs| && Passes(g.behave, record, subs[i]) && (subs[i].condition.Some? ==> g.behave(subs[i].condition.value, record).Returned?)
    requires g.behave(subs[i].original, record).Threw?
    ensures var error := g.behave(subs[i].original, record).error;
      var reported := Reported(g, t.(calls := t.calls + [Call(subs[i].original, record)]), error, record, subs[i], fuel);
      Deliver(g, t, record, subs, i, results, stopOnError, fuel)
        == (if stopOnError then (reported, Rejected(error)) else Deliver(g, reported, record, subs, i + 1, results, false, fuel))
      && (fuel > 0 ==> |t.emitted| < |reported.emitted| && reported.emitted[|t.emitted|] == ErrorRecord(error, record, subs[i]))
  {
    var error := g.behave(subs[i].original, record).error;
    ReportedGrows(g, t.(calls := t.calls + [Call(subs[i].original, record)]), error, record, subs[i], fuel);
  }

  /**
   * An emission in which nothing throws records the event, drops the event's
   * once-only subscribers, calls the subscribers `Invoked` picks from the
   * invocation order and resolves to their results in that order.
   */
  lemma EmitQuiet(g: Stage, t: Trace, record: EventRecord, stopOnError: bool, fuel: nat)
    requires Quiet(g.behave, record, InvocationOrder(Gathered(g.listeners, t.once, g.wildcards, record.event)))
    ensures var invoked := Invoked(g.behave, record, InvocationOrder(Gathered(g.listeners, t.once, g.wildcards, record.event)));
      EmitEvent(g, t, record, stopOnError, fuel)
      == (Trace(Unlisted(t.once, record.event), Push(t.history, record, MaxHistorySize), t.calls + CallsOf(record, invoked), t.emitted + [record]),
          Results(ValuesOf(g.behave, record, invoked)))
  {
    var subs := InvocationOrder(Gathered(g.listeners, t.once, g.wildcards, record.event));
    assert subs[0..] == subs;
    var invoked := Invoked(g.behave, record, subs);
    DeliverQuiet(g, Trace(Unlisted(t.once, record.event), Push(t.history, record, MaxHistorySize), t.calls, t.emitted + [record]),
                 record, subs, 0, [], stopOnError, fuel);
    assert [] + ValuesOf(g.behave, record, invoked) == ValuesOf(g.behave, record, invoked);
  }

  /** `listeners.get(event).add(wrapper)`, creating the set when the event has none. */
  function Added(table: OMap<string, seq<Subscription>>, event: string, s: Subscription): (r: OMap<string, seq<Subscription>>)
    ensures WellKept(table) ==> WellKept(r)
    ensures Members(r, event) == Members(table, event) + [s]
    ensures forall e :: e != event ==> Members(r, e) == Members(table, e)
  {
    table.Put(event, Members(table, event) + [s])
  }

  /** The position of the first wrapper of `callback`, or the length when there is none. */
  function FirstIndex(subs: seq<Subscription>, callback: CallbackId): (j: nat)
    ensures j <= |subs|
    ensures forall k :: 0 <= k < j ==> subs[k].original != callback
    ensures j < |subs| ==> subs[j].original == callback
  {
    if subs == [] || subs[0].original == callback then 0 else 1 + FirstIndex(subs[1..], callback)
  }

  /** The wrappers without the first whose original is `callback`. */
  function RemoveFirst(subs: seq<Subscription>, callback: CallbackId): seq<Subscription> {
    var j := FirstIndex(subs, callback);
    if j < |subs| then subs[..j] + subs[j + 1..] else subs
  }

  /** How many wrappers of `callback` there are. */
  function Count(subs: seq<Subscription>, callback: CallbackId): nat {
    if subs == [] then 0 else Count(subs[..|subs| - 1], callback) + (if subs[|subs| - 1].original == callback then 1 else 0)
  }

  lemma {:induction false} CountAppend(a: seq<Subscription>, b: seq<Subscription>, callback: CallbackId)
    ensures Count(a + b, callback) == Count(a, callback) + Count(b, callback)
    decreases |b|
  {
    if b != [] {
      assert (a + b)[..|a + b| - 1] == a + b[..|b| - 1];
      CountAppend(a, b[..|b| - 1], callback);
    } else {
      assert a + b == a;
    }
  }

  lemma {:induction false} CountNone(subs: seq<Subscription>, callback: CallbackId)
    requires forall k :: 0 <= k < |subs| ==> subs[k].original != callback
    ensures Count(subs, callback) == 0
    decreases |subs|
  {
    if subs != [] {
      CountNone(subs[..|subs| - 1], callback);
    }
  }

  /** `off` takes away exactly one wrapper of the callback when there is one, and leaves every other callback's count. */
  lemma RemoveFirstCount(subs: seq<Subscription>, callback: CallbackId)
    ensures Count(subs, callback) > 0 ==> Count(RemoveFirst(subs, callback), callback) == Count(subs, callback) - 1
                                          && |RemoveFirst(subs, callback)| == |subs| - 1
    ensures Count(subs, callback) == 0 ==> RemoveFirst(subs, callback) == subs
    ensures forall c :: c != callback ==> Count(RemoveFirst(subs, callback), c) == Count(subs, c)
  {
    var j := FirstIndex(subs, callback);
    if j < |subs| {
      forall c ensures Count(RemoveFirst(subs, callback), c) == Count(subs, c) - (if subs[j].original == c then 1 else 0) {
        CountWithout(subs, j, c);
      }
    } else {
      CountNone(subs, callback);
    }
  }

  /** `off` on one table: the first matching wrapper removed, the set deleted when it empties. */
  function Dropped(table: OMap<string, seq<Subscription>>, event: string, callback: CallbackId): (r: OMap<string, seq<Subscription>>)
    ensures WellKept(table) ==> WellKept(r)
    ensures Members(r, event) == RemoveFirst(Members(table, event), callback)
    ensures forall e :: e != event ==> Members(r, e) == Members(table, e)
  {
    if event in table.entries then
      var rest := RemoveFirst(table.entries[event], callback);
      if rest == [] then table.Remove(event) else table.Put(event, rest)
    else table
  }

  /** The keys of `more` that are not in `seen`, in order. */
  function Unseen(more: seq<string>, seen: seq<string>): (r: seq<string>)
    ensures forall e :: e in r <==> e in more && e !in seen
    ensures Distinct(more) ==> Distinct(r)
  {
    if more == [] then []
    else
      var before := Unseen(more[..|more| - 1], seen);
      var last := more[|more| - 1];
      assert forall e :: e in more <==> e in more[..|more| - 1] || e == last;
      if last in seen then before else before + [last]
  }

  /** The options of `getHistory`: an empty event, a `None` or zero `since` and a zero limit are missing options (JavaScript treats them as false). */
  datatype HistoryQuery = HistoryQuery(event: string, since: Option<int>, limit: int)

  predicate Matches(q: HistoryQuery, r: EventRecord) {
    (q.event == "" || r.event == q.event) && (q.since.None? || q.since.value == 0 || r.timestamp >= q.since.value)
  }

  /** The records that pass both filters, in history order. */
  function Matching(q: HistoryQuery, history: seq<EventRecord>): (r: seq<EventRecord>)
    ensures forall e :: e in r <==> e in history && Matches(q, e)
    ensures |r| <= |history|
  {
    if history == [] then []
    else (if Matches(q, history[0]) then [history[0]] else []) + Matching(q, history[1..])
  }

  /** `getHistory(options)`: the filters, then the newest `limit` records. */
  function History(q: HistoryQuery, history: seq<EventRecord>): (r: seq<EventRecord>)
    ensures forall e :: e in r ==> e in history && Matches(q, e)
    ensures q.limit > 0 ==> |r| == Min(q.limit, |Matching(q, history)|)
    ensures q.limit > 0 ==> r == Matching(q, history)[|Matching(q, history)| - |r|..]
  {
    SliceFromEnd(Matching(q, history), q.limit)
  }

  /** `clearHistory({ before })`: the records stamped at or after `before`; without `before` (or with a zero one, which JavaScript treats as false), none. */
  function Cleared(history: seq<EventRecord>, before: Option<int>): (r: seq<EventRecord>)
    ensures before.None? || before.value == 0 ==> r == []
    ensures before.Some? && before.value != 0 ==> forall e :: e in r <==> e in history && e.timestamp >= before.value
    ensures |r| <= |history|
  {
    if before.None? || before.value == 0 || history == [] then []
    else (if history[0].timestamp >= before.value then [history[0]] else []) + Cleared(history[1..], before)
  }

  /** The event name a proxy made by `createProxy(prefix)` uses for `event`. */
  function Prefixed(prefix: string, event: string): string {
    prefix + ":" + event
  }

  /** Removing a callback right after subscribing it, when it had no wrapper there before, restores the table. */
  lemma OffUndoesOn(table: OMap<string, seq<Subscription>>, event: string, s: Subscription)
    requires WellKept(table) && Count(Members(table, event), s.original) == 0
    ensures Dropped(Added(table, event, s), event, s.original) == table
  {
    var before := Members(table, event);
    var added := Added(table, event, s);
    RemoveAppended(before, s);
    assert Members(added, event) == before + [s];
    if event in table.entries {
      assert before != [];
      assert Dropped(added, event, s.original) == added.Put(event, before);
      assert added.Put(event, before).entries == table.entries;
    } else {
      WithoutAppendAbsent(table.keys, event);
    }
  }

  /** Taking out the wrapper at `j` lowers the count of its callback by one and leaves the other counts. */
  lemma CountWithout(subs: seq<Subscription>, j: nat, c: CallbackId)
    requires j < |subs|
    ensures Count(subs[..j] + subs[j + 1..], c) == Count(subs, c) - (if subs[j].original == c then 1 else 0)
  {
    assert subs == subs[..j] + [subs[j]] + subs[j + 1..];
    CountAppend(subs[..j] + [subs[j]], subs[j + 1..], c);
    CountAppend(subs[..j], [subs[j]], c);
    CountAppend(subs[..j], subs[j + 1..], c);
    assert [subs[j]][..0] == [];
  }

  /** Removing a callback that was just appended, and had no wrapper before, gives back the earlier list. */
  lemma RemoveAppended(before: seq<Subscription>, s: Subscription)
    requires Count(before, s.original) == 0
    ensures RemoveFirst(before + [s], s.original) == before
  {
    assert FirstIndex(before + [s], s.original) == |before| by {
      var j := FirstIndex(before + [s], s.original);
      if j < |before| {
        assert (before + [s])[j] == before[j];
        CountPositive(before, j, s.original);
      }
    }
    assert (before + [s])[..|before|] == before && (before + [s])[|before| + 1..] == [];
  }

  lemma {:induction false} CountPositive(subs: seq<Subscription>, j: nat, callback: CallbackId)
    requires j < |subs| && subs[j].original == callback
    ensures Count(subs, callback) > 0
    decreases |subs|
  {
    if j < |subs| - 1 {
      CountPositive(subs[..|subs| - 1], j, callback);
    }
  }

  lemma FirstIndexUnique(subs: seq<Subscription>, callback: CallbackId, j: nat)
    requires j <= |subs| && (forall k :: 0 <= k < j ==> subs[k].original != callback)
    requires j < |subs| ==> subs[j].original == callback
    ensures FirstIndex(subs, callback) == j
  {
  }

  const NotAFunctionMessage: string := "Il callback deve essere una funzione"

  class EventBus {
    var listeners: OMap<string, seq<Subscription>>
    var onceListeners: OMap<string, seq<Subscription>>
    var wildcardListeners: seq<CallbackId>
    var eventHistory: seq<EventRecord>
    var namespaces: map<string, EventBus>
    /** Every callback called, in order. */
    ghost var calls: seq<Call>
    /** The history as it was last cleared, and every record emitted since. */
    ghost var historyBase: seq<EventRecord>
    ghost var emitted: seq<EventRecord>

    ghost predicate Valid()
      reads this
    {
      WellKept(listeners) && WellKept(onceListeners) && Distinct(wildcardListeners)
      && |eventHistory| <= MaxHistorySize && |historyBase| <= MaxHistorySize
      && eventHistory == PushAll(historyBase, emitted, MaxHistorySize)
      && this !in namespaces.Values
    }

    /** The part of the bus an emission changes. */
    ghost function State(): Trace
      reads this
    {
      Trace(onceListeners, eventHistory, calls, emitted)
    }

    /** `listenerCount(event)`: durable plus once-only subscribers of the event. */
    function ListenerCount(event: string): (n: nat)
      reads this
      ensures n == |Members(listeners, event)| + |Members(onceListeners, event)|
    {
      (if event in listeners.entries then |listeners.entries[event]| else 0)
      + (if event in onceListeners.entries then |onceListeners.entries[event]| else 0)
    }

    /** `eventNames()`: events with durable subscribers, then those with only once-only ones. */
    function EventNames(): (r: seq<string>)
      reads this
      requires Valid()
      ensures Distinct(r)
      ensures forall e :: e in r <==> e in listeners.entries || e in onceListeners.entries
    {
      var more := Unseen(onceListeners.keys, listeners.keys);
      assert forall i, j :: 0 <= i < |listeners.keys| <= j < |listeners.keys + more| ==> (listeners.keys + more)[i] != (listeners.keys + more)[j] by {
        forall i, j | 0 <= i < |listeners.keys| <= j < |listeners.keys + more|
          ensures (listeners.keys + more)[i] != (listeners.keys + more)[j]
        {
          assert (listeners.keys + more)[j] in more;
        }
      }
      listeners.keys + more
    }

    constructor ()
      ensures Valid() && fresh(this)
      ensures listeners == EmptyMap() && onceListeners == EmptyMap() && wildcardListeners == [] && eventHistory == []
      ensures namespaces == map[] && calls == [] && emitted == [] && historyBase == []
    {
      listeners := EmptyMap();
      onceListeners := EmptyMap();
      wildcardListeners := [];
      eventHistory := [];
      namespaces := map[];
      calls := [];
      historyBase := [];
      emitted := [];
    }

    /** The table update of `on` on this bus (no namespace). */
    method Subscribe(event: string, s: Subscription, once: bool)
      modifies this
      ensures once ==> onceListeners == Added(old(onceListeners), event, s) && listeners == old(listeners)
      ensures !once ==> listeners == Added(old(listeners), event, s) && onceListeners == old(onceListeners)
      ensures wildcardListeners == old(wildcardListeners) && eventHistory == old(eventHistory) && namespaces == old(namespaces)
      ensures calls == old(calls) && historyBase == old(historyBase) && emitted == old(emitted)
      ensures old(Valid()) ==> Valid()
    {
      if once {
        onceListeners := Added(onceListeners, event, s);
      } else {
        listeners := Added(listeners, event, s);
      }
    }

    /** `getNamespace(name)`: the namespace's bus, created empty the first time. */
    method GetNamespace(name: string) returns (nb: EventBus)
      requires Valid()
      modifies this
      ensures Valid() && name in namespaces && nb == namespaces[name] && nb != this
      ensures name in old(namespaces) ==> namespaces == old(namespaces)
      ensures name !in old(namespaces) ==>
        (fresh(nb) && namespaces == old(namespaces)[name := nb]
         && nb.listeners == EmptyMap() && nb.onceListeners == EmptyMap() && nb.wildcardListeners == []
         && nb.eventHistory == [] && nb.calls == [] && nb.emitted == [] && nb.namespaces == map[])
      ensures listeners == old(listeners) && onceListeners == old(onceListeners) && wildcardListeners == old(wildcardListeners)
      ensures eventHistory == old(eventHistory) && calls == old(calls) && historyBase == old(historyBase) && emitted == old(emitted)
    {
      if name !in namespaces {
        nb := new EventBus();
        namespaces := namespaces[name := nb];
      } else {
        nb := namespaces[name];
      }
    }

    /**
     * `on(event, callback, options)`: throws for a non-function; with a
     * namespace, subscribes on that namespace's bus and leaves this one alone;
     * otherwise adds the wrapper to the once-only or the durable set.
     */
    method On(event: string, callback: Callable, options: SubscribeOptions, id: string) returns (r: Result<()>)
      requires Valid()
      modifies this, namespaces.Values
      ensures Valid()
      ensures callback.NotAFunction? ==> r == Err(NotAFunctionMessage) && unchanged(this)
      ensures callback.Function? ==> r.Ok?
      ensures callback.Function? && options.namespace == "" ==>
        var s := Subscription(callback.id, options.priority, options.condition, id);
        namespaces == old(namespaces)
        && (options.once ==> onceListeners == Added(old(onceListeners), event, s) && listeners == old(listeners))
        && (!options.once ==> listeners == Added(old(listeners), event, s) && onceListeners == old(onceListeners))
      ensures callback.Function? && options.namespace != "" ==>
        listeners == old(listeners) && onceListeners == old(onceListeners)
        && options.namespace in namespaces
        && (options.namespace in old(namespaces) ==> namespaces == old(namespaces))
        && namespaces[options.namespace].ListenerCount(event)
           == (if options.namespace in old(namespaces) then old(namespaces[options.namespace].ListenerCount(event)) else 0) + 1
      ensures wildcardListeners == old(wildcardListeners) && eventHistory == old(eventHistory)
      ensures calls == old(calls) && historyBase == old(historyBase) && emitted == old(emitted)
    {
      if callback.NotAFunction? {
        return Err(NotAFunctionMessage);
      }
      var s := Subscription(callback.id, options.priority, options.condition, id);
      if options.namespace != "" {
        var nb := GetNamespace(options.namespace);
        nb.Subscribe(event, s, options.once);
      } else {
        Subscribe(event, s, options.once);
      }
      r := Ok(());
    }

    /** `once(event, callback, options)`: `on` with `once` set. */
    method Once(event: string, callback: Callable, options: SubscribeOptions, id: string) returns (r: Result<()>)
      requires Valid()
      modifies this, namespaces.Values
      ensures Valid()
      ensures callback.NotAFunction? ==> r == Err(NotAFunctionMessage) && unchanged(this)
      ensures callback.Function? ==> r.Ok?
      ensures callback.Function? && options.namespace == "" ==>
        namespaces == old(namespaces) && listeners == old(listeners)
        && onceListeners == Added(old(onceListeners), event, Subscription(callback.id, options.priority, options.condition, id))
      ensures wildcardListeners == old(wildcardListeners) && eventHistory == old(eventHistory)
    {
      r := On(event, callback, options.(once := true), id);
    }

    /** The position of the first wrapper of `callback`, as the `for ... of` loop with `break` finds it. */
    static method FindCallback(subs: seq<Subscription>, callback: CallbackId) returns (j: nat)
      ensures j == FirstIndex(subs, callback)
    {
      j := 0;
      while j < |subs| && subs[j].original != callback
        invariant j <= |subs|
        invariant forall k :: 0 <= k < j ==> subs[k].original != callback
      {
        j := j + 1;
      }
      FirstIndexUnique(subs, callback, j);
    }

    /** One table's part of `off`: the loop finds the first wrapper, which is then spliced out. */
    static method DropFrom(table: OMap<string, seq<Subscription>>, event: string, callback: CallbackId)
      returns (r: OMap<string, seq<Subscription>>)
      ensures r == Dropped(table, event, callback)
    {
      r := table;
      if event in table.entries {
        var subs := table.entries[event];
        var j := FindCallback(subs, callback);
        var rest := if j < |subs| then subs[..j] + subs[j + 1..] else subs;
        assert rest == RemoveFirst(subs, callback);
        r := if rest == [] then table.Remove(event) else table.Put(event, rest);
      }
    }

    /** `off(event, callback)` on this bus: the first wrapper of the callback goes from each table. */
    method OffHere(event: string, callback: CallbackId)
      modifies this
      ensures listeners == Dropped(old(listeners), event, callback) && onceListeners == Dropped(old(onceListeners), event, callback)
      ensures wildcardListeners == old(wildcardListeners) && eventHistory == old(eventHistory) && namespaces == old(namespaces)
      ensures calls == old(calls) && historyBase == old(historyBase) && emitted == old(emitted)
      ensures old(Valid()) ==> Valid()
    {
      listeners := DropFrom(listeners, event, callback);
      onceListeners := DropFrom(onceListeners, event, callback);
    }

    /** `off(event, callback, { namespace })`; a namespace that does not exist yet is created. */
    method Off(event: string, callback: CallbackId, namespace: string)
      requires Valid()
      modifies this, namespaces.Values
      ensures Valid()
      ensures namespace == "" ==>
        (namespaces == old(namespaces)
         && listeners == Dropped(old(listeners), event, callback) && onceListeners == Dropped(old(onceListeners), event, callback))
      ensures namespace != "" ==>
        (listeners == old(listeners) && onceListeners == old(onceListeners) && namespace in namespaces
         && (namespace in old(namespaces) ==>
               (namespaces == old(namespaces)
                && namespaces[namespace].listeners == Dropped(old(namespaces[namespace].listeners), event, callback)
                && namespaces[namespace].onceListeners == Dropped(old(namespaces[namespace].onceListeners), event, callback))))
      ensures wildcardListeners == old(wildcardListeners) && eventHistory == old(eventHistory)
    {
      if namespace != "" {
        var nb := GetNamespace(namespace);
        nb.OffHere(event, callback);
      } else {
        OffHere(event, callback);
      }
    }

    /** `onAny(callback)`: added to the wildcard set (once only, as in a `Set`). */
    method OnAny(callback: Callable) returns (r: Result<()>)
      requires Valid()
      modifies this
      ensures Valid()
      ensures callback.NotAFunction? ==> r == Err(NotAFunctionMessage) && unchanged(this)
      ensures callback.Function? ==>
        (r.Ok? && callback.id in wildcardListeners
         && wildcardListeners == if callback.id in old(wildcardListeners) then old(wildcardListeners) else old(wildcardListeners) + [callback.id])
      ensures listeners == old(listeners) && onceListeners == old(onceListeners) && eventHistory == old(eventHistory) && namespaces == old(namespaces)
    {
      if callback.NotAFunction? {
        return Err(NotAFunctionMessage);
      }
      if callback.id !in wildcardListeners {
        wildcardListeners := wildcardListeners + [callback.id];
      }
      r := Ok(());
    }

    /** The function `onAny` returns: the callback leaves the wildcard set. */
    method OffAny(callback: CallbackId)
      requires Valid()
      modifies this
      ensures Valid() && callback !in wildcardListeners
      ensures forall c :: c in wildcardListeners <==> c in old(wildcardListeners) && c != callback
      ensures listeners == old(listeners) && onceListeners == old(onceListeners) && eventHistory == old(eventHistory) && namespaces == old(namespaces)
    {
      wildcardListeners := Without(wildcardListeners, callback);
    }

    /** `removeAllListeners(event)`: the event's two sets; with no event, every set and the wildcards too. */
    method RemoveAllListeners(event: string)
      modifies this
      ensures event != "" ==>
        (listeners == old(listeners).Remove(event) && onceListeners == old(onceListeners).Remove(event)
         && wildcardListeners == old(wildcardListeners))
      ensures event != "" ==> ListenerCount(event) == 0 && forall e :: e != event ==> ListenerCount(e) == old(ListenerCount(e))
      ensures event == "" ==> listeners == EmptyMap() && onceListeners == EmptyMap() && wildcardListeners == []
      ensures eventHistory == old(eventHistory) && namespaces == old(namespaces)
      ensures calls == old(calls) && historyBase == old(historyBase) && emitted == old(emitted)
      ensures old(Valid()) ==> Valid()
    {
      if event != "" {
        listeners := listeners.Remove(event);
        onceListeners := onceListeners.Remove(event);
      } else {
        listeners := EmptyMap();
        onceListeners := EmptyMap();
        wildcardListeners := [];
      }
    }

    /** `removeNamespace(name)`: the namespace's bus loses every subscriber and leaves the table. */
    method RemoveNamespace(name: string)
      requires Valid()
      modifies this, namespaces.Values
      ensures Valid() && namespaces == old(namespaces) - {name}
      ensures name in old(namespaces) ==> var nb := old(namespaces[name]);
        nb.listeners == EmptyMap() && nb.onceListeners == EmptyMap() && nb.wildcardListeners == []
      ensures listeners == old(listeners) && onceListeners == old(onceListeners) && wildcardListeners == old(wildcardListeners)
      ensures eventHistory == old(eventHistory)
    {
      if name in namespaces {
        var nb := namespaces[name];
        nb.RemoveAllListeners("");
        namespaces := namespaces - {name};
      }
    }

    /** `clearHistory({ before })`. */
    method ClearHistory(before: Option<int>)
      requires Valid()
      modifies this
      ensures Valid() && eventHistory == Cleared(old(eventHistory), before)
      ensures listeners == old(listeners) && onceListeners == old(onceListeners) && wildcardListeners == old(wildcardListeners)
      ensures namespaces == old(namespaces) && calls == old(calls)
    {
      eventHistory := Cleared(eventHistory, before);
      historyBase := eventHistory;
      emitted := [];
    }

    /**
     * `emit(event, data, options)` on the synchronous path: with a namespace,
     * the namespace's bus emits and this one is left alone.
     */
    method Emit(behave: Behaviour, event: string, data: Value, options: EmitOptions, clock: int, fuel: nat) returns (r: Emitted)
      requires Valid()
      modifies this, namespaces.Values
      ensures Valid()
      ensures options.namespace == "" ==>
        namespaces == old(namespaces) && listeners == old(listeners) && wildcardListeners == old(wildcardListeners)
        && (State(), r) == EmitEvent(Stage(behave, old(listeners), old(wildcardListeners)), old(State()),
                                     Record(event, Data(data), clock, options.source), options.stopOnError, fuel)
      ensures options.namespace == "" ==> event !in onceListeners.entries && ListenerCount(event) == |Members(listeners, event)|
      ensures options.namespace != "" ==>
        listeners == old(listeners) && onceListeners == old(onceListeners) && eventHistory == old(eventHistory)
        && options.namespace in namespaces
        && (options.namespace in old(namespaces) ==> namespaces == old(namespaces))
        && var nb := namespaces[options.namespace];
           var prior := if options.namespace in old(namespaces) then old(namespaces[options.namespace].State())
                        else Trace(EmptyMap(), [], [], []);
           var stage := if options.namespace in old(namespaces)
                        then Stage(behave, old(namespaces[options.namespace].listeners), old(namespaces[options.namespace].wildcardListeners))
                        else Stage(behave, EmptyMap(), []);
           (nb.State(), r) == EmitEvent(stage, prior, Record(event, Data(data), clock, options.source), options.stopOnError, fuel)
    {
      var record := Record(event, Data(data), clock, options.source);
      if options.namespace != "" {
        var nb := GetNamespace(options.namespace);
        r := nb.Publish(behave, record, options.stopOnError, fuel);
      } else {
        ghost var g := Stage(behave, listeners, wildcardListeners);
        ghost var t := State();
        r := Publish(behave, record, options.stopOnError, fuel);
        EmitEventKeeps(historyBase, g, t, record, options.stopOnError, fuel);
        PushAllBounded(historyBase, emitted, MaxHistorySize);
      }
    }

    /** The body of `emit` on this bus: record, gather, sort, then call in turn. */
    method Publish(behave: Behaviour, record: EventRecord, stopOnError: bool, fuel: nat) returns (r: Emitted)
      modifies this
      ensures listeners == old(listeners) && wildcardListeners == old(wildcardListeners) && namespaces == old(namespaces)
      ensures historyBase == old(historyBase)
      ensures (State(), r) == EmitEvent(Stage(behave, old(listeners), old(wildcardListeners)), old(State()), record, stopOnError, fuel)
      decreases fuel, 2
    {
      ghost var g := Stage(behave, listeners, wildcardListeners);
      ghost var total := EmitEvent(g, State(), record, stopOnError, fuel);
      var gathered := Gathered(listeners, onceListeners, wildcardListeners, record.event);
      eventHistory := Push(eventHistory, record, MaxHistorySize);
      emitted := emitted + [record];
      onceListeners := Unlisted(onceListeners, record.event);
      var subs := InvocationOrder(gathered);
      var results: seq<Value> := [];
      var i := 0;
      while i < |subs|
        invariant i <= |subs|
        invariant listeners == old(listeners) && wildcardListeners == old(wildcardListeners) && namespaces == old(namespaces)
        invariant historyBase == old(historyBase)
        invariant Deliver(g, State(), record, subs, i, results, stopOnError, fuel) == total
      {
        ghost var t := State();
        ghost var before := results;
        var stopped;
        stopped, results := Visit(behave, record, subs[i], results, stopOnError, fuel, g);
        DeliverVisits(g, t, record, subs, i, before, stopOnError, fuel);
        if stopped.Some? {
          return stopped.value;
        }
        i := i + 1;
      }
      r := Results(results);
    }

    /** One turn of the loop of `emit`: the condition, the call, and the report of what either threw. */
    method Visit(behave: Behaviour, record: EventRecord, s: Subscription, results: seq<Value>, stopOnError: bool, fuel: nat,
                 ghost g: Stage)
      returns (stopped: Option<Emitted>, more: seq<Value>)
      requires g == Stage(behave, listeners, wildcardListeners)
      modifies this
      ensures listeners == old(listeners) && wildcardListeners == old(wildcardListeners) && namespaces == old(namespaces)
      ensures historyBase == old(historyBase)
      ensures (State(), stopped, more) == Visited(g, old(State()), record, s, results, stopOnError, fuel)
      decreases fuel, 1
    {
      more := results;
      stopped := None;
      if s.condition.Some? {
        var test := behave(s.condition.value, record);
        if test.Threw? {
          HandleCallbackError(behave, test.error, record, s, fuel);
          if stopOnError {
            stopped := Some(Rejected(test.error));
          }
          return;
        }
        if !Truthy(test.value) {
          return;
        }
      }
      var outcome := behave(s.original, record);
      calls := calls + [Call(s.original, record)];
      if outcome.Threw? {
        HandleCallbackError(behave, outcome.error, record, s, fuel);
        if stopOnError {
          stopped := Some(Rejected(outcome.error));
        }
        return;
      }
      more := results + [outcome.value];
      if outcome.value == Bool(false) {
        stopped := Some(Results(more));
      }
    }

    /** `handleCallbackError`: the error is emitted as `eventbus:error`, never stopping on error. */
    method HandleCallbackError(behave: Behaviour, error: Value, record: EventRecord, s: Subscription, fuel: nat)
      modifies this
      ensures listeners == old(listeners) && wildcardListeners == old(wildcardListeners) && namespaces == old(namespaces)
      ensures historyBase == old(historyBase)
      ensures State() == Reported(Stage(behave, old(listeners), old(wildcardListeners)), old(State()), error, record, s, fuel)
      decreases fuel, 0
    {
      if fuel > 0 {
        var _ := Publish(behave, ErrorRecord(error, record, s), false, fuel - 1);
      }
    }

    /** `createProxy(prefix).on(event, ...)`. */
    method ProxyOn(prefix: string, event: string, callback: Callable, options: SubscribeOptions, id: string) returns (r: Result<()>)
      requires Valid()
      modifies this, namespaces.Values
      ensures Valid()
      ensures callback.Function? && options.namespace == "" && !options.once ==>
        r.Ok? && listeners == Added(old(listeners), Prefixed(prefix, event), Subscription(callback.id, options.priority, options.condition, id))
        && onceListeners == old(onceListeners)
    {
      r := On(Prefixed(prefix, event), callback, options, id);
    }

    /** `createProxy(prefix).once(event, ...)`. */
    method ProxyOnce(prefix: string, event: string, callback: Callable, options: SubscribeOptions, id: string) returns (r: Result<()>)
      requires Valid()
      modifies this, namespaces.Values
      ensures Valid()
      ensures callback.Function? && options.namespace == "" ==>
        r.Ok? && onceListeners == Added(old(onceListeners), Prefixed(prefix, event), Subscription(callback.id, options.priority, options.condition, id))
        && listeners == old(listeners)
    {
      r := Once(Prefixed(prefix, event), callback, options, id);
    }

    /** `createProxy(prefix).off(event, callback)`. */
    method ProxyOff(prefix: string, event: string, callback: CallbackId)
      requires Valid()
      modifies this, namespaces.Values
      ensures Valid()
      ensures listeners == Dropped(old(listeners), Prefixed(prefix, event), callback)
        && onceListeners == Dropped(old(onceListeners), Prefixed(prefix, event), callback)
    {
      Off(Prefixed(prefix, event), callback, "");
    }

    /** `createProxy(prefix).emit(event, data, options)`. */
    method ProxyEmit(behave: Behaviour, prefix: string, event: string, data: Value, options: EmitOptions, clock: int, fuel: nat)
      returns (r: Emitted)
      requires Valid()
      modifies this, namespaces.Values
      ensures Valid()
      ensures options.namespace == "" ==>
        (State(), r) == EmitEvent(Stage(behave, old(listeners), old(wildcardListeners)), old(State()),
                                  Record(Prefixed(prefix, event), Data(data), clock, options.source), options.stopOnError, fuel)
    {
      r := Emit(behave, Prefixed(prefix, event), data, options, clock, fuel);
    }
  }
}
