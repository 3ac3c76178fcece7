/**
 * `AttributeSpaceBatch`: registrations and removals queued against one
 * attribute space and run together, with the space's notification flag set
 * to the batch's own flag while they run and restored afterwards.
 */
module AttributeSpaceBatches {
  import opened Wrappers
  import opened JsValues
  import opened OrderedMaps
  import opened BoundedLogs
  import opened Attributes
  import opened Entities
  import opened AttributeSpaces

  /**
   * A queued `{ operation, args }`. `OtherOp` names something that is not a
   * method of the space, so calling it throws a `TypeError`.
   */
  datatype Operation =
    | RegisterOp(entityId: string, attribute: Attribute)
    | UnregisterOp(entityId: string, name: string)
    | OtherOp(operation: string)

  /** An operation with the attribute name it will register under, read before the batch runs. */
  datatype Step =
    | Register(entityId: string, name: string, attribute: Attribute)
    | Unregister(entityId: string, name: string)
    | Fails

  function Resolve(op: Operation): (s: Step)
    ensures s.Fails? <==> op.OtherOp?
  {
    match op
    case RegisterOp(entityId, attribute) => Register(entityId, attribute.name, attribute)
    case UnregisterOp(entityId, name) => Unregister(entityId, name)
    case OtherOp(_) => Fails
  }

  function ResolveAll(ops: seq<Operation>): (r: seq<Step>)
    ensures |r| == |ops| && forall i :: 0 <= i < |ops| ==> r[i] == Resolve(ops[i])
  {
    if ops == [] then [] else [Resolve(ops[0])] + ResolveAll(ops[1..])
  }

  /** How many steps run before the first that throws. */
  function Completed(steps: seq<Step>): (n: nat)
    ensures n <= |steps|
    ensures forall i :: 0 <= i < n ==> !steps[i].Fails?
    ensures n < |steps| ==> steps[n].Fails?
  {
    if steps == [] || steps[0].Fails? then 0 else 1 + Completed(steps[1..])
  }

  /** The steps run are exactly those before the first failure. */
  lemma {:induction false} CompletedAt(steps: seq<Step>, n: nat)
    requires n <= |steps| && (forall i :: 0 <= i < n ==> !steps[i].Fails?) && (n < |steps| ==> steps[n].Fails?)
    ensures Completed(steps) == n
    decreases |steps|
  {
    if steps != [] && n > 0 {
      assert !steps[0].Fails?;
      CompletedAt(steps[1..], n - 1);
    }
  }

  /** The registry, the attribute tier and the announcement of one step (`registerAttribute` or `unregisterAttribute`). */
  function StepEffect(attributes: OMap<string, Attribute>, subscriptions: map<string, seq<CallbackId>>, s: Step, clock: int)
    : (r: (OMap<string, Attribute>, map<string, seq<CallbackId>>, seq<HistoryEntry>))
    ensures |r.2| <= 1
  {
    match s
    case Register(entityId, name, attribute) =>
      (attributes.Put(AttributeKey(entityId, name), attribute), subscriptions, [Registration(entityId, name, clock)])
    case Unregister(entityId, name) =>
      var key := AttributeKey(entityId, name);
      if key in attributes.entries then
        (attributes.Remove(key), subscriptions - {key},
         [HistoryEntry("attribute:unregistered", ChangeData(entityId, "", name, Undefined, Undefined, None, clock), clock)])
      else (attributes, subscriptions, [])
    case Fails => (attributes, subscriptions, [])
  }

  /** The registry, the attribute tier and the announcements after `steps`, in order. */
  function Applied(attributes: OMap<string, Attribute>, subscriptions: map<string, seq<CallbackId>>, steps: seq<Step>, clock: int)
    : (r: (OMap<string, Attribute>, map<string, seq<CallbackId>>, seq<HistoryEntry>))
    ensures |r.2| <= |steps|
    decreases |steps|
  {
    if steps == [] then (attributes, subscriptions, [])
    else
      var before := Applied(attributes, subscriptions, steps[..|steps| - 1], clock);
      var after := StepEffect(before.0, before.1, steps[|steps| - 1], clock);
      (after.0, after.1, before.2 + after.2)
  }

  /** The announcement `execute` makes last when the batch does not suppress notifications. */
  function BatchCompleted(operationCount: nat, clock: int): HistoryEntry {
    HistoryEntry("batch:completed", ChangeData("", "", "", Undefined, Undefined, Some(operationCount), clock), clock)
  }

  /** The part of a space a batch changes, after the first `n` steps, from the state `a0`, `s0`, `h0`, `p0`. */
  ghost predicate RanSteps(a0: OMap<string, Attribute>, s0: map<string, seq<CallbackId>>, h0: seq<HistoryEntry>, p0: seq<Dispatch>,
                           steps: seq<Step>, n: nat, clock: int,
                           a: OMap<string, Attribute>, s: map<string, seq<CallbackId>>, h: seq<HistoryEntry>, p: seq<Dispatch>)
  {
    n <= |steps|
    && var r := Applied(a0, s0, steps[..n], clock);
    a == r.0 && s == r.1 && h == PushAll(h0, r.2, MaxHistorySize) && p == p0 + Dispatches(r.2)
  }

  /** One more step extends the run by its effect. */
  lemma AppliedSnoc(a0: OMap<string, Attribute>, s0: map<string, seq<CallbackId>>, steps: seq<Step>, i: nat, clock: int)
    requires i < |steps|
    ensures var before := Applied(a0, s0, steps[..i], clock);
      var e := StepEffect(before.0, before.1, steps[i], clock);
      Applied(a0, s0, steps[..i + 1], clock) == (e.0, e.1, before.2 + e.2)
  {
    assert steps[..i + 1][..i] == steps[..i];
  }

  /** Announcing what one more step announces extends the run by that step. */
  lemma RanStepsNext(a0: OMap<string, Attribute>, s0: map<string, seq<CallbackId>>, h0: seq<HistoryEntry>, p0: seq<Dispatch>,
                     steps: seq<Step>, i: nat, clock: int,
                     a: OMap<string, Attribute>, s: map<string, seq<CallbackId>>, h: seq<HistoryEntry>, p: seq<Dispatch>)
    requires i < |steps| && RanSteps(a0, s0, h0, p0, steps, i, clock, a, s, h, p)
    ensures var e := StepEffect(a, s, steps[i], clock);
      RanSteps(a0, s0, h0, p0, steps, i + 1, clock, e.0, e.1,
               if e.2 == [] then h else Recorded(h, e.2[0].eventType, e.2[0].data, clock),
               if e.2 == [] then p else p + [Dispatch(e.2[0].eventType, e.2[0].data)])
  {
    AppliedSnoc(a0, s0, steps, i, clock);
    var before := Applied(a0, s0, steps[..i], clock);
    var e := StepEffect(a, s, steps[i], clock);
    if e.2 == [] {
      assert before.2 + e.2 == before.2;
    } else {
      Announced(h0, p0, before.2, e.2, clock);
    }
  }

  /** A step's one announcement, stamped with the clock, extends the history and the dispatches. */
  lemma Announced(h0: seq<HistoryEntry>, p0: seq<Dispatch>, events: seq<HistoryEntry>, more: seq<HistoryEntry>, clock: int)
    requires |more| == 1 && more[0].timestamp == clock
    ensures Recorded(PushAll(h0, events, MaxHistorySize), more[0].eventType, more[0].data, clock) == PushAll(h0, events + more, MaxHistorySize)
    ensures p0 + Dispatches(events) + [Dispatch(more[0].eventType, more[0].data)] == p0 + Dispatches(events + more)
  {
    assert more == [more[0]];
    NotifiedAfter(h0, [], p0, Tiers(map[], map[], map[], []), events, more[0], clock);
  }

  /**
   * The callbacks a step's announcement reaches: the tiers `t` except the
   * attribute tier, which is the one the step leaves behind.
   */
  function StepDeliveries(t: Tiers, e: (OMap<string, Attribute>, map<string, seq<CallbackId>>, seq<HistoryEntry>)): seq<Delivery> {
    if e.2 == [] then [] else Recipients(t.(byAttribute := e.1), e.2[0].eventType, e.2[0].data)
  }

  /** The callbacks the announcements of `steps` reach, in order, when the other tiers are those of `t`. */
  function DeliveredBy(a0: OMap<string, Attribute>, s0: map<string, seq<CallbackId>>, t: Tiers, steps: seq<Step>, clock: int): seq<Delivery>
    decreases |steps|
  {
    if steps == [] then []
    else
      var before := Applied(a0, s0, steps[..|steps| - 1], clock);
      DeliveredBy(a0, s0, t, steps[..|steps| - 1], clock) + StepDeliveries(t, StepEffect(before.0, before.1, steps[|steps| - 1], clock))
  }

  /** The deliveries after the first `n` steps, from `d0`. */
  ghost predicate DeliveredSteps(a0: OMap<string, Attribute>, s0: map<string, seq<CallbackId>>, d0: seq<Delivery>, t: Tiers,
                                 steps: seq<Step>, n: nat, clock: int, d: seq<Delivery>)
  {
    n <= |steps| && d == d0 + DeliveredBy(a0, s0, t, steps[..n], clock)
  }

  /** One more step adds the deliveries of its announcement. */
  lemma DeliveredNext(a0: OMap<string, Attribute>, s0: map<string, seq<CallbackId>>, d0: seq<Delivery>, t: Tiers,
                      steps: seq<Step>, i: nat, clock: int, a: OMap<string, Attribute>, s: map<string, seq<CallbackId>>, d: seq<Delivery>)
    requires i < |steps| && DeliveredSteps(a0, s0, d0, t, steps, i, clock, d)
    requires a == Applied(a0, s0, steps[..i], clock).0 && s == Applied(a0, s0, steps[..i], clock).1
    ensures DeliveredSteps(a0, s0, d0, t, steps, i + 1, clock, d + StepDeliveries(t, StepEffect(a, s, steps[i], clock)))
  {
    DeliveredBySnoc(a0, s0, t, steps, i, clock);
    AppendAssociates(d0, DeliveredBy(a0, s0, t, steps[..i], clock), StepDeliveries(t, StepEffect(a, s, steps[i], clock)));
  }

  lemma DeliveredBySnoc(a0: OMap<string, Attribute>, s0: map<string, seq<CallbackId>>, t: Tiers, steps: seq<Step>, i: nat, clock: int)
    requires i < |steps|
    ensures var before := Applied(a0, s0, steps[..i], clock);
      DeliveredBy(a0, s0, t, steps[..i + 1], clock)
      == DeliveredBy(a0, s0, t, steps[..i], clock) + StepDeliveries(t, StepEffect(before.0, before.1, steps[i], clock))
  {
    var pre := steps[..i + 1];
    assert pre[..|pre| - 1] == steps[..i] && pre[|pre| - 1] == steps[i];
  }

  /**
   * The space after the first `n` steps of a batch that started from the
   * registry `a0`/`s0`, history `h0`, dispatches `p0`, deliveries `d0` and
   * tiers `t`, with its entities `e0` and flag `f0` untouched.
   */
  ghost predicate Running(space: AttributeSpace, a0: OMap<string, Attribute>, s0: map<string, seq<CallbackId>>, h0: seq<HistoryEntry>,
                          p0: seq<Dispatch>, d0: seq<Delivery>, t: Tiers, e0: OMap<string, Entity>, f0: Option<bool>,
                          steps: seq<Step>, n: nat, clock: int)
    reads space
  {
    n <= Completed(steps) && space.Valid()
    && RanSteps(a0, s0, h0, p0, steps, n, clock, space.attributes, space.subscriptions, space.changeHistory, space.dispatched)
    && DeliveredSteps(a0, s0, d0, t, steps, n, clock, space.delivered)
    && t.byEntity == space.entitySubscriptions && t.byType == space.typeSubscriptions && t.global == space.globalSubscriptions
    && space.entities == e0 && space.suppressNotifications == f0
  }

  class AttributeSpaceBatch {
    const space: AttributeSpace
    var operations: seq<Operation>
    var suppressNotifications: bool

    /** `new AttributeSpaceBatch(attributeSpace)`, as `createBatch()` makes it: an empty queue that suppresses notifications. */
    constructor (space: AttributeSpace)
      ensures this.space == space && operations == [] && suppressNotifications
    {
      this.space := space;
      operations := [];
      suppressNotifications := true;
    }

    /** `addOperation(operation, ...args)`: queued last. */
    method AddOperation(op: Operation)
      modifies this
      ensures operations == old(operations) + [op] && suppressNotifications == old(suppressNotifications)
    {
      operations := operations + [op];
    }

    /** `registerAttribute(entityId, attribute)`: a registration queued. */
    method RegisterAttribute(entityId: string, attribute: Attribute)
      modifies this
      ensures operations == old(operations) + [RegisterOp(entityId, attribute)] && suppressNotifications == old(suppressNotifications)
    {
      AddOperation(RegisterOp(entityId, attribute));
    }

    /** `unregisterAttribute(entityId, name)`: a removal queued. */
    method UnregisterAttribute(entityId: string, name: string)
      modifies this
      ensures operations == old(operations) + [UnregisterOp(entityId, name)] && suppressNotifications == old(suppressNotifications)
    {
      AddOperation(UnregisterOp(entityId, name));
    }

    /**
     * `execute()`. The queued operations run in order until one throws; the
     * space's flag is restored either way; `batch:completed` with the queue
     * length is announced iff the batch does not suppress notifications
     * (after a throw too); and the queue is emptied only when nothing threw.
     * `ok` is false when an operation threw, which `execute` passes on.
     */
    method Execute(clock: int) returns (ok: bool)
      requires space.Valid()
      modifies this, space
      ensures space.Valid()
      ensures var steps := old(ResolveAll(operations));
        var r := Applied(old(space.attributes), old(space.subscriptions), steps[..Completed(steps)], clock);
        var events := r.2 + (if suppressNotifications then [] else [BatchCompleted(|old(operations)|, clock)]);
        (ok <==> Completed(steps) == |steps|)
        && space.attributes == r.0 && space.subscriptions == r.1
        && space.changeHistory == PushAll(old(space.changeHistory), events, MaxHistorySize)
        && space.dispatched == old(space.dispatched) + Dispatches(events)
      ensures var steps := old(ResolveAll(operations));
        space.delivered == old(space.delivered)
          + DeliveredBy(old(space.attributes), old(space.subscriptions), old(space.Subscribers()), steps[..Completed(steps)], clock)
          + (if suppressNotifications then [] else Recipients(space.Subscribers(), "batch:completed", BatchCompleted(|old(operations)|, clock).data))
      ensures space.suppressNotifications == old(space.suppressNotifications)
      ensures operations == (if ok then [] else old(operations)) && suppressNotifications == old(suppressNotifications)
      ensures space.entities == old(space.entities) && space.entitySubscriptions == old(space.entitySubscriptions)
      ensures space.typeSubscriptions == old(space.typeSubscriptions) && space.globalSubscriptions == old(space.globalSubscriptions)
    {
      var ops := operations;
      var n := RunBatch(ops, suppressNotifications, clock);
      ok := n == |ops|;
      if ok {
        operations := [];
      }
    }

    /**
     * The work of `execute` on the space: the flag set to `quiet`, the
     * operations run until one throws, the flag restored, and then
     * `batch:completed` announced unless `quiet`.
     */
    method RunBatch(ops: seq<Operation>, quiet: bool, clock: int) returns (n: nat)
      requires space.Valid()
      modifies space
      ensures space.Valid()
      ensures var steps := ResolveAll(ops);
        var r := Applied(old(space.attributes), old(space.subscriptions), steps[..Completed(steps)], clock);
        var events := r.2 + (if quiet then [] else [BatchCompleted(|ops|, clock)]);
        n == Completed(steps)
        && space.attributes == r.0 && space.subscriptions == r.1
        && space.changeHistory == PushAll(old(space.changeHistory), events, MaxHistorySize)
        && space.dispatched == old(space.dispatched) + Dispatches(events)
      ensures var steps := ResolveAll(ops);
        space.delivered == old(space.delivered)
          + DeliveredBy(old(space.attributes), old(space.subscriptions), old(space.Subscribers()), steps[..Completed(steps)], clock)
          + (if quiet then [] else Recipients(space.Subscribers(), "batch:completed", BatchCompleted(|ops|, clock).data))
      ensures space.suppressNotifications == old(space.suppressNotifications)
      ensures space.entities == old(space.entities) && space.entitySubscriptions == old(space.entitySubscriptions)
      ensures space.typeSubscriptions == old(space.typeSubscriptions) && space.globalSubscriptions == old(space.globalSubscriptions)
    {
      ghost var steps := ResolveAll(ops);
      ghost var a0, s0, h0, p0 := space.attributes, space.subscriptions, space.changeHistory, space.dispatched;
      ghost var d0, t := space.delivered, space.Subscribers();
      var original := space.suppressNotifications;
      space.suppressNotifications := Some(quiet);
      assert steps[..0] == [];
      assert d0 + [] == d0;
      n := RunOperations(a0, s0, h0, p0, d0, t, steps, ops, clock);
      space.suppressNotifications := original;
      ghost var r := Applied(a0, s0, steps[..n], clock);
      if !quiet {
        var done := BatchCompleted(|ops|, clock);
        NotifyLast(a0, s0, h0, p0, steps, n, done, clock);
      } else {
        assert r.2 + [] == r.2;
        assert space.delivered + [] == space.delivered;
      }
    }

    /** The loop of `execute`: the operations in order, stopping at the first that throws; `n` is how many ran. */
    method RunOperations(ghost a0: OMap<string, Attribute>, ghost s0: map<string, seq<CallbackId>>, ghost h0: seq<HistoryEntry>,
                         ghost p0: seq<Dispatch>, ghost d0: seq<Delivery>, ghost t: Tiers, ghost steps: seq<Step>, ops: seq<Operation>,
                         clock: int) returns (n: nat)
      requires |steps| == |ops| && (forall j :: 0 <= j < |ops| ==> steps[j] == Resolve(ops[j]))
      requires Running(space, a0, s0, h0, p0, d0, t, space.entities, space.suppressNotifications, steps, 0, clock)
      modifies space
      ensures n == Completed(steps)
      ensures Running(space, a0, s0, h0, p0, d0, t, old(space.entities), old(space.suppressNotifications), steps, n, clock)
    {
      ghost var e0, f0 := space.entities, space.suppressNotifications;
      n := 0;
      var ok := true;
      while ok && n < |ops|
        invariant Running(space, a0, s0, h0, p0, d0, t, e0, f0, steps, n, clock)
        invariant !ok ==> n == Completed(steps)
        decreases |ops| - n, ok
      {
        ok := Perform(a0, s0, h0, p0, d0, t, e0, f0, steps, ops[n], n, clock);
        if ok {
          n := n + 1;
        }
      }
    }

    /** `this.attributeSpace[operation](...args)` for the operation at `i`; false when it throws. */
    method Perform(ghost a0: OMap<string, Attribute>, ghost s0: map<string, seq<CallbackId>>, ghost h0: seq<HistoryEntry>,
                   ghost p0: seq<Dispatch>, ghost d0: seq<Delivery>, ghost t: Tiers, ghost e0: OMap<string, Entity>, ghost f0: Option<bool>,
                   ghost steps: seq<Step>, op: Operation, i: nat, clock: int) returns (ok: bool)
      requires i < |steps| && steps[i] == Resolve(op)
      requires Running(space, a0, s0, h0, p0, d0, t, e0, f0, steps, i, clock)
      modifies space
      ensures ok <==> !steps[i].Fails?
      ensures Running(space, a0, s0, h0, p0, d0, t, e0, f0, steps, if ok then i + 1 else i, clock)
    {
      if op.OtherOp? {
        ok := false;
      } else {
        RanStepsNext(a0, s0, h0, p0, steps, i, clock, space.attributes, space.subscriptions, space.changeHistory, space.dispatched);
        DeliveredNext(a0, s0, d0, t, steps, i, clock, space.attributes, space.subscriptions, space.delivered);
        ApplyOperation(op, steps[i], clock);
        ok := true;
      }
    }

    /** A registration or removal run on the space: its step's effect, announced to the tiers as they are after it. */
    method ApplyOperation(op: Operation, ghost step: Step, clock: int)
      requires space.Valid() && !op.OtherOp? && step == Resolve(op)
      modifies space
      ensures space.Valid()
      ensures var e := StepEffect(old(space.attributes), old(space.subscriptions), step, clock);
        space.attributes == e.0 && space.subscriptions == e.1
        && space.changeHistory == (if e.2 == [] then old(space.changeHistory) else Recorded(old(space.changeHistory), e.2[0].eventType, e.2[0].data, clock))
        && space.dispatched == (if e.2 == [] then old(space.dispatched) else old(space.dispatched) + [Dispatch(e.2[0].eventType, e.2[0].data)])
        && space.delivered == old(space.delivered) + StepDeliveries(old(space.Subscribers()), e)
      ensures space.entities == old(space.entities) && space.entitySubscriptions == old(space.entitySubscriptions)
      ensures space.typeSubscriptions == old(space.typeSubscriptions) && space.globalSubscriptions == old(space.globalSubscriptions)
      ensures space.suppressNotifications == old(space.suppressNotifications)
    {
      match op {
        case RegisterOp(entityId, attribute) =>
          space.RegisterAttribute(entityId, attribute, clock);
        case UnregisterOp(entityId, name) =>
          space.UnregisterAttribute(entityId, name, clock);
      }
    }

    /** The closing `batch:completed` announcement. */
    method NotifyLast(ghost a0: OMap<string, Attribute>, ghost s0: map<string, seq<CallbackId>>, ghost h0: seq<HistoryEntry>,
                      ghost p0: seq<Dispatch>, ghost steps: seq<Step>, ghost n: nat, done: HistoryEntry, clock: int)
      requires done.timestamp == clock
      requires RanSteps(a0, s0, h0, p0, steps, n, clock, space.attributes, space.subscriptions, space.changeHistory, space.dispatched)
      modifies space
      ensures var r := Applied(a0, s0, steps[..n], clock);
        space.changeHistory == PushAll(h0, r.2 + [done], MaxHistorySize) && space.dispatched == p0 + Dispatches(r.2 + [done])
      ensures space.delivered == old(space.delivered) + Recipients(space.Subscribers(), done.eventType, done.data)
      ensures space.Registry() == old(space.Registry())
    {
      space.NotifyChange(done.eventType, done.data, clock);
      NotifiedAfter(h0, [], p0, Tiers(map[], map[], map[], []), Applied(a0, s0, steps[..n], clock).2, done, clock);
    }
  }
}
