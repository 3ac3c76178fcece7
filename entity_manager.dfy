/**
 * The entity manager (`EntityManager` of the core): creates entities and
 * registers them in the attribute space, keeps at most one pending debounced
 * save per entity, and turns entities into the plain records the storage
 * collaborator keeps, and back.
 *
 * The storage collaborator is a log of the writes and deletions handed to it
 * (`storage`); a pending `setTimeout` is a timer identity in `saveTimeouts`,
 * and every `clearTimeout` is recorded in `cancelled`.
 */
module EntityManagers {
  import opened Wrappers
  import opened JsStrings
  import opened JsValues
  import opened PropertyOrder
  import opened OrderedMaps
  import opened Attributes
  import opened Entities
  import opened AttributeSpaces

  /** `entityPrefix`: the storage key of an entity is this prefix followed by its id. */
  const EntityPrefix: string := "entity:"

  /** `saveDebounceTime`, in milliseconds: how long a scheduled save waits. */
  const SaveDebounceTime: nat := 1000

  /** The handle `setTimeout` returns. */
  type TimerId = nat

  function StorageKey(entityId: string): (key: string)
    ensures StartsWith(key, EntityPrefix) && key[|EntityPrefix|..] == entityId
  {
    EntityPrefix + entityId
  }

  /** `/^\d{4}-\d{2}-\d{2}/.test(s)`: the text starts like `2024-01-31`. */
  predicate StartsWithDateStamp(s: string) {
    |s| >= 10
    && IsDigit(s[0]) && IsDigit(s[1]) && IsDigit(s[2]) && IsDigit(s[3]) && s[4] == '-'
    && IsDigit(s[5]) && IsDigit(s[6]) && s[7] == '-' && IsDigit(s[8]) && IsDigit(s[9])
  }

  /**
   * `inferAttributeType(value)`, the manager's own, cruder inference: a string
   * holding `@` is an email, else one starting with `http` a URL, else one
   * starting with a date stamp a date, else text; every number (NaN too) is a
   * number; then booleans, arrays, and whatever else `typeof` calls an object
   * (null and dates included); `undefined` falls through to text.
   */
  function InferAttributeType(v: Value): Kind {
    match v
    case Str(s) =>
      if '@' in s then EmailKind
      else if StartsWith(s, "http") then UrlKind
      else if StartsWithDateStamp(s) then DateKind
      else TextKind
    case Num(_) => NumberKind
    case NaN => NumberKind
    case Bool(_) => BooleanKind
    case Arr(_) => ArrayKind
    case Undefined => TextKind
    case Null => ObjectKind
    case DateObj(_) => ObjectKind
    case Obj(_) => ObjectKind
  }

  /**
   * The order of the tests: strings first (`@`, then `http`, then a date
   * stamp), then numbers, booleans, arrays and objects. Each kind is named by
   * exactly the values its test accepts and no earlier test took.
   */
  lemma InferAttributeTypeOrder(v: Value)
    ensures InferAttributeType(v) == EmailKind <==> v.Str? && '@' in v.s
    ensures InferAttributeType(v) == UrlKind <==> v.Str? && '@' !in v.s && StartsWith(v.s, "http")
    ensures InferAttributeType(v) == DateKind <==> v.Str? && '@' !in v.s && !StartsWith(v.s, "http") && StartsWithDateStamp(v.s)
    ensures InferAttributeType(v) == NumberKind <==> TypeOf(v) == "number"
    ensures InferAttributeType(v) == ObjectKind <==> TypeOf(v) == "object" && !v.Arr?
    ensures InferAttributeType(v) == TextKind <==>
      v.Undefined? || (v.Str? && '@' !in v.s && !StartsWith(v.s, "http") && !StartsWithDateStamp(v.s))
    ensures InferAttributeType(v) != IntegerKind && !InferAttributeType(v).CustomKind?
  {
  }

  /**
   * Where the manager's inference and the entity's (`Entity.inferType`)
   * part: a whole number is an integer to the entity and a number here;
   * null is text there and an object here; a date object is a date there and
   * an object here. Booleans, arrays, plain objects, NaN and `undefined` get
   * the same kind from both.
   */
  lemma InferencesCompared(host: Host, v: Value)
    ensures v.Num? ==> InferAttributeType(v) == NumberKind && (InferType(host, v) == IntegerKind <==> IsWhole(v.r))
    ensures v.Null? ==> InferAttributeType(v) == ObjectKind && InferType(host, v) == TextKind
    ensures v.DateObj? ==> InferAttributeType(v) == ObjectKind && InferType(host, v) == DateKind
    ensures v.Bool? || v.Arr? || v.Obj? || v.NaN? || v.Undefined? ==> InferAttributeType(v) == InferType(host, v)
  {
  }

  /**
   * The value a new attribute of `createEntity` ends with: `setAttribute`
   * creates it empty (null) under the inferred kind, with no constraints, so
   * the transformed value is kept iff it passes the kind's type check.
   */
  function InitialValue(host: Host, name: string, v: Value): Value {
    var kind := InferAttributeType(v);
    var t := Coerce(host, kind, v);
    if TypeErrors(host, name, kind, t) == [] then t else Null
  }

  /**
   * A string with an `@` that is no email address is inferred as an email and
   * then refused by the email check, so the new attribute stays null.
   */
  lemma LooseEmailStaysEmpty(host: Host, name: string)
    ensures InferAttributeType(Str("a@b")) == EmailKind
    ensures InitialValue(host, name, Str("a@b")) == Null
  {
    var s := "a@b";
    assert s[1] == '@';
    assert InferAttributeType(Str(s)) == EmailKind;
    UnpaddedTextCoerces(host, EmailKind, s);
    NoDotNoEmail(s);
  }

  /** The text kinds keep a string that needs no trimming as it is. */
  lemma UnpaddedTextCoerces(host: Host, kind: Kind, s: string)
    requires kind == EmailKind && s != [] && !IsWhite(s[0]) && !IsWhite(s[|s| - 1])
    ensures Coerce(host, kind, Str(s)) == Str(s)
  {
    TrimUnpadded(s);
  }

  /** `a@b` has no dot after the `@`, so it is no email address. */
  lemma NoDotNoEmail(s: string)
    requires s == "a@b"
    ensures !IsValidEmail(s)
  {
    assert s[0] != '@' && s[1] == '@';
    assert IndexOf(s, '@') == Some(1);
    assert |s[2..]| == 1;
  }

  /** The attribute record of a stored entity; `metadata` is `None` when missing. */
  datatype StoredAttribute = StoredAttribute(name: string, value: Value, kind: Kind, metadata: Option<MetadataInput>)

  /** The `metadata` of a stored entity; each field may be missing. */
  datatype StoredMetadata = StoredMetadata(createdAt: Option<int>, updatedAt: Option<int>, version: Option<string>)

  /**
   * The record the storage keeps for an entity. An empty `id` stands for a
   * missing one; a `None` attribute record stands for a null one.
   */
  datatype StoredEntity = StoredEntity(
    id: string,
    entityType: string,
    attributes: Option<seq<(string, Option<StoredAttribute>)>>,
    metadata: Option<StoredMetadata>)

  /** A write handed to the storage collaborator. */
  datatype StorageOp = Save(key: string, data: StoredEntity) | Delete(key: string)

  /** The events the auto-save listens to. */
  predicate IsEntityChange(eventType: string) {
    eventType == "attribute:changed" || eventType == "attribute:created" || eventType == "entity:registered"
  }

  /**
   * `handleEntityChange(event)`'s filter: the global payload must carry an
   * entity id and be one of the three change events.
   */
  predicate TriggersSave(eventType: Option<string>, data: ChangeData) {
    data.entityId != "" && eventType.Some? && IsEntityChange(eventType.value)
  }

  /** Which global notifications start a save: removals, unregistrations and batches never do, nor anything without an entity id. */
  lemma TriggersSaveExactly(eventType: Option<string>, data: ChangeData)
    ensures data.entityId == "" ==> !TriggersSave(eventType, data)
    ensures (eventType == Some("attribute:unregistered") || eventType == Some("entity:unregistered")
             || eventType == Some("attribute:registered") || eventType == Some("batch:completed")) ==> !TriggersSave(eventType, data)
    ensures data.entityId != "" && eventType.Some? ==>
      (TriggersSave(eventType, data) <==> eventType.value in ["attribute:changed", "attribute:created", "entity:registered"])
  {
  }

  /** `entity.version || '1.0.0'` */
  function VersionOf(version: Option<string>): (r: string)
    ensures r != ""
    ensures version.Some? && version.value != "" ==> r == version.value
  {
    if version.Some? && version.value != "" then version.value else "1.0.0"
  }

  /** The record of one attribute: name, raw value, kind and the metadata object. */
  function StoredAttributeOf(a: Attribute): StoredAttribute
    reads a
  {
    StoredAttribute(a.name, a.value, a.kind, Some(AsInput(a.metadata)))
  }

  /** The records of the attributes under `names`, in that order. */
  function StoredRecords(e: Entity, names: seq<string>): (r: seq<(string, Option<StoredAttribute>)>)
    reads e, e.attributes.entries.Values
    requires forall n :: n in names ==> n in e.attributes.entries
    ensures |r| == |names|
    ensures forall i :: 0 <= i < |names| ==> r[i] == (names[i], Some(StoredAttributeOf(e.attributes.entries[names[i]])))
    ensures KeysOf(r) == names
  {
    if names == [] then [] else [(names[0], Some(StoredAttributeOf(e.attributes.entries[names[0]])))] + StoredRecords(e, names[1..])
  }

  /**
   * `serializeEntity(entity)`: id, type, one record per attribute (in the
   * property order of the plain object they are written into), and metadata
   * whose `updatedAt` is always the current time and whose version defaults
   * to `1.0.0`.
   */
  function SerializeEntity(e: Entity, now: int): (d: StoredEntity)
    reads e, e.attributes.entries.Values
    requires e.Valid()
    ensures d.id == e.id && d.entityType == e.entityType
    ensures d.metadata == Some(StoredMetadata(Some(e.createdAt), Some(now), Some(VersionOf(e.version))))
    ensures d.attributes.Some? && KeysOf(d.attributes.value) == PropertyKeyOrder(e.attributes.keys)
  {
    var names := PropertyKeyOrder(e.attributes.keys);
    assert forall n :: n in names ==> n in multiset(e.attributes.keys);
    StoredEntity(e.id, e.entityType, Some(StoredRecords(e, names)), Some(StoredMetadata(Some(e.createdAt), Some(now), Some(VersionOf(e.version)))))
  }

  /** Each record `serializeEntity` writes is the record of the attribute under its name, and none is null. */
  lemma SerializedRecords(e: Entity, now: int, i: nat)
    requires e.Valid()
    requires i < |e.attributes.keys|
    ensures var records := SerializeEntity(e, now).attributes.value;
      i < |records| && records[i].0 in e.attributes.entries
      && records[i].1 == Some(StoredAttributeOf(e.attributes.entries[records[i].0]))
  {
    var names := PropertyKeyOrder(e.attributes.keys);
    assert names[i] in multiset(e.attributes.keys);
  }

  /** Every record of a stored attribute list is present (none is null). */
  predicate AllPresent(records: seq<(string, Option<StoredAttribute>)>) {
    forall i :: 0 <= i < |records| ==> records[i].1.Some?
  }

  /** The attribute `deserializeEntity` builds from a record: `new Attribute(name, value, type, metadata || {})`. */
  predicate Loaded(a: Attribute, record: StoredAttribute, clock: int)
    reads a
  {
    a.name == record.name && a.kind == record.kind
    && a.value == (if record.value.Undefined? then Null else record.value)
    && a.metadata == MergeMetadata(record.metadata.GetOr(NoMetadata), clock)
  }

  /** Every record of `loaded` is stored under its key and built from it. */
  ghost predicate AllLoaded(m: OMap<string, Attribute>, loaded: seq<(string, Option<StoredAttribute>)>, clock: int)
    reads m.entries.Values
  {
    forall j :: 0 <= j < |loaded| ==>
      loaded[j].0 in m.entries && loaded[j].1.Some? && Loaded(m.entries[loaded[j].0], loaded[j].1.value, clock)
  }

  /** Extending the loaded prefix by one present record whose key is new. */
  lemma AllLoadedPut(m: OMap<string, Attribute>, records: seq<(string, Option<StoredAttribute>)>, i: nat, a: Attribute, clock: int)
    requires i < |records| && m.Valid() && records[i].0 !in m.entries && records[i].1.Some?
    requires AllLoaded(m, records[..i], clock) && Loaded(a, records[i].1.value, clock)
    ensures AllLoaded(m.Put(records[i].0, a), records[..i + 1], clock)
  {
    var r := m.Put(records[i].0, a);
    var loaded := records[..i + 1];
    forall j | 0 <= j < |loaded|
      ensures loaded[j].0 in r.entries && loaded[j].1.Some? && Loaded(r.entries[loaded[j].0], loaded[j].1.value, clock)
    {
      assert loaded[j] == records[j];
      if j < i {
        assert records[..i][j] == records[j];
      }
    }
  }

  /** The next key is not among the keys before it, and the keys grow by it. */
  lemma NextRecordKey(records: seq<(string, Option<StoredAttribute>)>, i: nat)
    requires i < |records| && Distinct(KeysOf(records))
    ensures records[i].0 !in KeysOf(records[..i])
    ensures KeysOf(records[..i + 1]) == KeysOf(records[..i]) + [records[i].0]
  {
    var all, before := KeysOf(records), KeysOf(records[..i]);
    forall j | 0 <= j < i
      ensures before[j] != records[i].0
    {
      assert before[j] == records[j].0 == all[j];
      assert all[i] == records[i].0;
    }
    KeysOfSnoc(records, i);
  }

  /**
   * The attribute loop of `deserializeEntity`: one attribute per record, in
   * record order. A null record throws, which the caller turns into `null`.
   */
  method LoadAttributes(records: seq<(string, Option<StoredAttribute>)>, clock: int) returns (r: Option<OMap<string, Attribute>>)
    requires Distinct(KeysOf(records))
    ensures r.Some? <==> AllPresent(records)
    ensures r.Some? ==> r.value.Valid() && r.value.keys == KeysOf(records) && AllLoaded(r.value, records, clock)
  {
    var m: OMap<string, Attribute> := EmptyMap();
    var i := 0;
    while i < |records|
      invariant 0 <= i <= |records|
      invariant m.Valid() && m.keys == KeysOf(records[..i]) && AllLoaded(m, records[..i], clock)
    {
      if records[i].1.None? {
        assert !AllPresent(records);
        return None;
      }
      m := LoadRecord(m, records, i, clock);
      i := i + 1;
    }
    assert records[..i] == records;
    return Some(m);
  }

  /** One step of the attribute loop: the present record at `i` becomes a new attribute under its key. */
  method LoadRecord(m: OMap<string, Attribute>, records: seq<(string, Option<StoredAttribute>)>, i: nat, clock: int)
    returns (r: OMap<string, Attribute>)
    requires i < |records| && Distinct(KeysOf(records)) && records[i].1.Some?
    requires m.Valid() && m.keys == KeysOf(records[..i]) && AllLoaded(m, records[..i], clock)
    ensures r.Valid() && r.keys == KeysOf(records[..i + 1]) && AllLoaded(r, records[..i + 1], clock)
  {
    var record := records[i].1.value;
    NextRecordKey(records, i);
    var attribute := new Attribute(record.name, record.value, record.kind, record.metadata.GetOr(NoMetadata), clock);
    AllLoadedPut(m, records, i, attribute, clock);
    r := m.Put(records[i].0, attribute);
  }

  /**
   * `deserializeEntity(data)`: `null` (rather than a thrown error) for null
   * data or a null attribute record. Otherwise a new entity under the stored
   * id (a generated one when it is missing), with `createdAt` and `version`
   * taken from the stored metadata when it is there, and one attribute per
   * record.
   */
  method DeserializeEntity(data: Option<StoredEntity>, clock: nat, random: string) returns (e: Option<Entity>)
    requires data.Some? && data.value.attributes.Some? ==> Distinct(KeysOf(data.value.attributes.value))
    ensures e.None? <==> data.None? || (data.value.attributes.Some? && !AllPresent(data.value.attributes.value))
    ensures e.Some? ==> fresh(e.value) && Built(data.value, e.value, clock, random)
  {
    if data.None? {
      return None;
    }
    var d := data.value;
    var entity := new Entity(d.entityType, d.id, clock, random);
    if d.metadata.Some? {
      if d.metadata.value.createdAt.Some? {
        entity.createdAt := d.metadata.value.createdAt.value;
      }
      entity.version := d.metadata.value.version;
    }
    if d.attributes.Some? {
      var loaded := LoadAttributes(d.attributes.value, clock);
      if loaded.None? {
        return None;
      }
      entity.attributes := loaded.value;
    }
    return Some(entity);
  }

  /** An attribute read back from the record of `a`: same name, kind and metadata, and the value with undefined read as null. */
  predicate ReadBack(copy: Attribute, a: Attribute)
    reads copy, a
  {
    copy.name == a.name && copy.kind == a.kind && copy.metadata == a.metadata
    && copy.value == (if a.value.Undefined? then Null else a.value)
  }

  /**
   * The entity `deserializeEntity(d)` builds: id (or a generated one), type,
   * `createdAt` (or the clock), the stored version, the attributes loaded in
   * the stored order, and the entity's defaults for everything else.
   */
  ghost predicate Built(d: StoredEntity, x: Entity, clock: nat, random: string)
    reads x, x.attributes.entries.Values
  {
    x.Valid()
    && x.id == (if d.id != "" then d.id else GenerateId("", clock, random)) && x.entityType == d.entityType
    && x.createdAt == (if d.metadata.Some? && d.metadata.value.createdAt.Some? then d.metadata.value.createdAt.value else clock)
    && x.version == (if d.metadata.Some? then d.metadata.value.version else None)
    && x.attributes.keys == (if d.attributes.Some? then KeysOf(d.attributes.value) else [])
    && (d.attributes.Some? ==> AllLoaded(x.attributes, d.attributes.value, clock))
    && x.metadata == DefaultEntityMetadata && x.listeners == map[] && x.emitted == []
  }

  /**
   * The round trip `deserializeEntity(serializeEntity(entity))`: the id, the
   * type, `createdAt`, the version (defaulted), the attribute names (in
   * property order) and each attribute's name, value, kind and metadata come
   * back.
   */
  method RoundTrip(e: Entity, now: int, clock: nat, random: string) returns (copy: Option<Entity>)
    requires e.Valid()
    ensures copy.Some? && fresh(copy.value) && copy.value.Valid()
    ensures e.id != "" ==> copy.value.id == e.id
    ensures copy.value.entityType == e.entityType && copy.value.createdAt == e.createdAt
    ensures copy.value.version == Some(VersionOf(e.version))
    ensures copy.value.attributes.keys == PropertyKeyOrder(e.attributes.keys)
    ensures forall n :: n in e.attributes.entries ==>
      n in copy.value.attributes.entries && ReadBack(copy.value.attributes.entries[n], e.attributes.entries[n])
  {
    var data := SerializeEntity(e, now);
    SerializedComplete(e, now);
    copy := DeserializeEntity(Some(data), clock, random);
    assert copy.Some? && data == SerializeEntity(e, now);
    ReadBackAll(e, now, copy.value, clock, random);
  }

  /** What the round trip keeps, for the entity built from the serialized data. */
  lemma ReadBackAll(e: Entity, now: int, x: Entity, clock: nat, random: string)
    requires e.Valid() && Built(SerializeEntity(e, now), x, clock, random)
    ensures e.id != "" ==> x.id == e.id
    ensures x.entityType == e.entityType && x.createdAt == e.createdAt
    ensures x.version == Some(VersionOf(e.version))
    ensures x.attributes.keys == PropertyKeyOrder(e.attributes.keys)
    ensures forall n :: n in e.attributes.entries ==>
      n in x.attributes.entries && ReadBack(x.attributes.entries[n], e.attributes.entries[n])
  {
    forall n | n in e.attributes.entries
      ensures n in x.attributes.entries && ReadBack(x.attributes.entries[n], e.attributes.entries[n])
    {
      ReadBackOne(e, now, x.attributes, n, clock);
    }
  }

  /** The serialized attribute list has distinct keys and no null record, so it loads back. */
  lemma SerializedComplete(e: Entity, now: int)
    requires e.Valid()
    ensures var records := SerializeEntity(e, now).attributes.value;
      Distinct(KeysOf(records)) && AllPresent(records)
  {
    var records := SerializeEntity(e, now).attributes.value;
    DistinctPermutation(e.attributes.keys, PropertyKeyOrder(e.attributes.keys));
    forall i | 0 <= i < |records|
      ensures records[i].1.Some?
    {
      SerializedRecords(e, now, i);
    }
  }

  /** One attribute of the round trip: the attribute loaded from the record of `n` reads back as the original. */
  lemma ReadBackOne(e: Entity, now: int, m: OMap<string, Attribute>, n: string, clock: int)
    requires e.Valid() && n in e.attributes.entries
    requires AllLoaded(m, SerializeEntity(e, now).attributes.value, clock)
    ensures n in m.entries && ReadBack(m.entries[n], e.attributes.entries[n])
  {
    var records := SerializeEntity(e, now).attributes.value;
    var names := PropertyKeyOrder(e.attributes.keys);
    assert n in multiset(names);
    var i :| 0 <= i < |names| && names[i] == n;
    SerializedRecords(e, now, i);
    assert records[i].0 == n && records[i].1 == Some(StoredAttributeOf(e.attributes.entries[n]));
    assert Loaded(m.entries[n], records[i].1.value, clock);
    MergeOfCopy(e.attributes.entries[n].metadata, clock);
  }

  class EntityManager {
    /** The attribute space the manager registers entities in and reads them from. */
    const space: AttributeSpace
    /** `saveTimeouts`: the pending save of each entity id. */
    var saveTimeouts: map<string, TimerId>
    /** The handle the next `setTimeout` returns. */
    var nextTimer: TimerId
    /** Every `clearTimeout`, oldest first. */
    var cancelled: seq<TimerId>
    /** Every write handed to the storage collaborator, oldest first. */
    var storage: seq<StorageOp>

    /**
     * Every pending save is a live timer: handed out already, never cancelled,
     * and owned by exactly one entity.
     */
    ghost predicate Valid()
      reads this
    {
      (forall id :: id in saveTimeouts ==> saveTimeouts[id] < nextTimer && saveTimeouts[id] !in cancelled)
      && (forall a, b :: a in saveTimeouts && b in saveTimeouts && a != b ==> saveTimeouts[a] != saveTimeouts[b])
      && (forall t :: t in cancelled ==> t < nextTimer)
    }

    /** The entity the space holds under `entityId`, if any, keeps its representation invariant. */
    ghost predicate EntityValid(entityId: string)
      reads this, space, if space.entities.Has(entityId) then {space.entities.entries[entityId]} else {}
    {
      space.GetEntity(entityId).Some? ==> space.GetEntity(entityId).value.Valid()
    }

    constructor (space: AttributeSpace)
      ensures Valid() && this.space == space
      ensures saveTimeouts == map[] && nextTimer == 0 && cancelled == [] && storage == []
    {
      this.space := space;
      saveTimeouts := map[];
      nextTimer := 0;
      cancelled := [];
      storage := [];
    }

    /**
     * `scheduleEntitySave(entityId)`: a pending save of the entity is
     * cancelled and replaced by a new one, so there is never more than one.
     */
    method ScheduleEntitySave(entityId: string)
      requires Valid()
      modifies this
      ensures Valid()
      ensures saveTimeouts == old(saveTimeouts)[entityId := old(nextTimer)] && nextTimer == old(nextTimer) + 1
      ensures cancelled == old(cancelled) + (if entityId in old(saveTimeouts) then [old(saveTimeouts[entityId])] else [])
      ensures entityId in old(saveTimeouts) ==> old(saveTimeouts[entityId]) !in saveTimeouts.Values
      ensures storage == old(storage)
    {
      if entityId in saveTimeouts {
        cancelled := cancelled + [saveTimeouts[entityId]];
      }
      saveTimeouts := saveTimeouts[entityId := nextTimer];
      nextTimer := nextTimer + 1;
    }

    /** `handleEntityChange(event)`: a save is scheduled for exactly the change events that carry an entity id. */
    method HandleEntityChange(eventType: Option<string>, data: ChangeData)
      requires Valid()
      modifies this
      ensures Valid()
      ensures TriggersSave(eventType, data) ==>
        saveTimeouts == old(saveTimeouts)[data.entityId := old(nextTimer)] && nextTimer == old(nextTimer) + 1
        && cancelled == old(cancelled) + (if data.entityId in old(saveTimeouts) then [old(saveTimeouts[data.entityId])] else [])
      ensures !TriggersSave(eventType, data) ==>
        saveTimeouts == old(saveTimeouts) && nextTimer == old(nextTimer) && cancelled == old(cancelled)
      ensures storage == old(storage)
    {
      if data.entityId == "" {
        return;
      }
      if eventType.Some? && IsEntityChange(eventType.value) {
        ScheduleEntitySave(data.entityId);
      }
    }

    /**
     * `saveEntity(entityId)`: the entity the space holds under the id is
     * serialized now and written under its storage key; an unknown id writes
     * nothing.
     */
    method SaveEntity(entityId: string, now: int)
      requires Valid() && EntityValid(entityId)
      modifies this
      ensures Valid()
      ensures var found := space.GetEntity(entityId);
        storage == old(storage) + (if found.Some? then [Save(StorageKey(entityId), SerializeEntity(found.value, now))] else [])
      ensures saveTimeouts == old(saveTimeouts) && nextTimer == old(nextTimer) && cancelled == old(cancelled)
    {
      var found := space.GetEntity(entityId);
      if found.Some? {
        storage := storage + [Save(StorageKey(entityId), SerializeEntity(found.value, now))];
      }
    }

    /** The debounce timer of an entity fires: the entity is saved and its pending entry dropped. */
    method SaveTimerFires(entityId: string, now: int)
      requires Valid() && entityId in saveTimeouts && EntityValid(entityId)
      modifies this
      ensures Valid()
      ensures var found := space.GetEntity(entityId);
        storage == old(storage) + (if found.Some? then [Save(StorageKey(entityId), SerializeEntity(found.value, now))] else [])
      ensures saveTimeouts == old(saveTimeouts) - {entityId} && nextTimer == old(nextTimer) && cancelled == old(cancelled)
    {
      SaveEntity(entityId, now);
      saveTimeouts := saveTimeouts - {entityId};
    }

    /**
     * `deleteEntity(entityId)`: the entity is unregistered from the space,
     * its record deleted from storage, and a pending save of it cancelled
     * and dropped.
     */
    method DeleteEntity(entityId: string, clock: int)
      requires Valid() && space.Valid()
      modifies this, space
      ensures Valid() && space.Valid()
      ensures !space.entities.Has(entityId)
      ensures space.entities == old(space.entities).Remove(entityId)
      ensures storage == old(storage) + [Delete(StorageKey(entityId))]
      ensures saveTimeouts == old(saveTimeouts) - {entityId} && entityId !in saveTimeouts
      ensures cancelled == old(cancelled) + (if entityId in old(saveTimeouts) then [old(saveTimeouts[entityId])] else [])
      ensures nextTimer == old(nextTimer)
    {
      Unregister(entityId, clock);
      storage := storage + [Delete(StorageKey(entityId))];
      if entityId in saveTimeouts {
        cancelled := cancelled + [saveTimeouts[entityId]];
        saveTimeouts := saveTimeouts - {entityId};
      }
    }

    /** `attributeSpace.unregisterEntity(entityId)`, seen from the manager: the space no longer holds the entity. */
    method Unregister(entityId: string, clock: int)
      requires space.Valid()
      modifies space
      ensures space.Valid() && space.entities == old(space.entities).Remove(entityId) && !space.entities.Has(entityId)
    {
      if !space.entities.Has(entityId) {
        RemoveAbsentKey(space.entities, entityId);
      }
      space.UnregisterEntity(entityId, clock);
    }

    /**
     * `createEntity(type, id, initialData)`: the given id, or one generated
     * from the type; each initial property set through `setAttribute` with
     * the manager's inferred kind; the entity registered in the space; and
     * only then saved, so the save finds it there.
     */
    method CreateEntity(host: Host, entityType: string, id: string, initialData: seq<(string, Value)>,
                        onChanged: ListenerId, onCreated: ListenerId, clock: nat, random: string) returns (e: Entity)
      requires Valid() && space.Valid() && Distinct(KeysOf(initialData))
      modifies this, space
      ensures Valid() && space.Valid() && fresh(e) && e.Valid()
      ensures e.id == (if id != "" then id else entityType + "_" + NatToString(clock) + "_" + random)
      ensures e.entityType == entityType
      ensures e.attributes.keys == KeysOf(initialData) && Seeded(e.attributes, Expected(host, initialData), |initialData|)
      ensures space.entities == old(space.entities).Put(e.id, e)
      ensures storage == old(storage) + [Save(StorageKey(e.id), SerializeEntity(e, clock))]
      ensures saveTimeouts == old(saveTimeouts) && nextTimer == old(nextTimer) && cancelled == old(cancelled)
    {
      var entityId := if id != "" then id else entityType + "_" + NatToString(clock) + "_" + random;
      e := NewEntity(host, entityType, entityId, initialData, clock, random);
      ghost var expected := Expected(host, initialData);
      Register(e, expected, onChanged, onCreated, clock);
      assert space.GetEntity(entityId) == Some(e);
      SaveNew(e, expected, clock);
    }

    /** `saveEntity` on the entity `createEntity` has just registered, whose attributes the save leaves as they are. */
    method SaveNew(e: Entity, ghost expected: seq<(string, Kind, Value)>, clock: int)
      requires Valid() && e.Valid() && space.GetEntity(e.id) == Some(e) && Seeded(e.attributes, expected, |expected|)
      modifies this
      ensures Valid() && Seeded(e.attributes, expected, |expected|)
      ensures storage == old(storage) + [Save(StorageKey(e.id), SerializeEntity(e, clock))]
      ensures saveTimeouts == old(saveTimeouts) && nextTimer == old(nextTimer) && cancelled == old(cancelled)
    {
      ghost var m := e.attributes;
      SaveEntity(e.id, clock);
      forall j | 0 <= j < |expected|
        ensures expected[j].0 in m.entries && m.entries[expected[j].0].kind == expected[j].1 && m.entries[expected[j].0].value == expected[j].2
      {
        var a := m.entries[expected[j].0];
        assert old(a.kind == expected[j].1 && a.value == expected[j].2);
      }
    }

    /** `attributeSpace.registerEntity(entity)`, seen from the manager: the space now holds the entity, whose attributes keep their kinds and values. */
    method Register(e: Entity, ghost expected: seq<(string, Kind, Value)>, onChanged: ListenerId, onCreated: ListenerId, clock: int)
      requires space.Valid() && e.Valid() && Seeded(e.attributes, expected, |expected|)
      modifies space, e
      ensures space.Valid() && e.Valid() && space.entities == old(space.entities).Put(e.id, e)
      ensures e.Header() == old(e.Header()) && e.attributes == old(e.attributes)
      ensures Seeded(e.attributes, expected, |expected|)
    {
      ghost var m := e.attributes;
      RegisterInSpace(e, onChanged, onCreated, clock);
      forall j | 0 <= j < |expected|
        ensures expected[j].0 in m.entries && m.entries[expected[j].0].kind == expected[j].1 && m.entries[expected[j].0].value == expected[j].2
      {
        var a := m.entries[expected[j].0];
        assert old(a.kind == expected[j].1 && a.value == expected[j].2);
      }
    }

    /** The call into the space, which changes neither the entity's header nor its attribute map. */
    method RegisterInSpace(e: Entity, onChanged: ListenerId, onCreated: ListenerId, clock: int)
      requires space.Valid() && e.Valid()
      modifies space, e
      ensures space.Valid() && e.Valid() && space.entities == old(space.entities).Put(e.id, e)
      ensures e.Header() == old(e.Header()) && e.attributes == old(e.attributes)
    {
      space.RegisterEntity(e, onChanged, onCreated, clock);
    }

    /** `new Entity(type, entityId)` followed by the initial-data loop of `createEntity`. */
    static method NewEntity(host: Host, entityType: string, entityId: string, initialData: seq<(string, Value)>,
                            clock: nat, random: string) returns (e: Entity)
      requires entityId != "" && Distinct(KeysOf(initialData))
      ensures fresh(e) && e.Valid() && e.id == entityId && e.entityType == entityType
      ensures e.attributes.keys == KeysOf(initialData) && Seeded(e.attributes, Expected(host, initialData), |initialData|)
    {
      e := new Entity(entityType, entityId, clock, random);
      SetInitialAttributes(host, e, initialData, clock);
    }

    /** The initial-data loop of `createEntity`, over an entity nothing else refers to yet. */
    static method SetInitialAttributes(host: Host, e: Entity, initialData: seq<(string, Value)>, clock: int)
      requires e.Valid() && e.attributes == EmptyMap() && Distinct(KeysOf(initialData))
      modifies e
      ensures e.Valid() && e.Header() == old(e.Header())
      ensures e.attributes.keys == KeysOf(initialData) && Seeded(e.attributes, Expected(host, initialData), |initialData|)
    {
      var i := 0;
      while i < |initialData|
        invariant 0 <= i <= |initialData|
        invariant e.Valid() && e.Header() == old(e.Header())
        invariant e.attributes.keys == KeysOf(initialData[..i]) && Seeded(e.attributes, Expected(host, initialData), i)
      {
        SetInitialAttribute(host, e, initialData, i, clock);
        i := i + 1;
      }
      assert initialData[..i] == initialData;
    }

    /** One step of the initial-data loop: the property at `i` becomes a new attribute. */
    static method SetInitialAttribute(host: Host, e: Entity, initialData: seq<(string, Value)>, i: nat, clock: int)
      requires i < |initialData| && Distinct(KeysOf(initialData))
      requires e.Valid() && e.attributes.keys == KeysOf(initialData[..i]) && Seeded(e.attributes, Expected(host, initialData), i)
      modifies e
      ensures e.Valid() && e.Header() == old(e.Header())
      ensures e.attributes.keys == KeysOf(initialData[..i + 1]) && Seeded(e.attributes, Expected(host, initialData), i + 1)
    {
      var name, v := initialData[i].0, initialData[i].1;
      NextValueKey(initialData, i);
      ghost var before := e.attributes;
      var a := SetNewAttribute(host, e, name, v, clock);
      assert Expected(host, initialData)[i] == (name, a.kind, a.value);
      SeededPut(before, Expected(host, initialData), i, a);
    }
  }

  /** An attribute `setAttribute` creates without metadata checks its values against its kind alone. */
  lemma InitialValueStored(host: Host, name: string, v: Value, clock: int)
    ensures var w := Written(host, Created(name, InferAttributeType(v), NoMetadata, clock), v, clock);
      w.0.kind == InferAttributeType(v) && w.0.value == InitialValue(host, name, v)
  {
  }

  /** `entity.setAttribute(key, value, inferAttributeType(value))` for a key the entity does not have. */
  method SetNewAttribute(host: Host, e: Entity, name: string, v: Value, clock: int) returns (a: Attribute)
    requires e.Valid() && !e.attributes.Has(name)
    modifies e
    ensures e.Valid() && e.Header() == old(e.Header())
    ensures e.attributes == old(e.attributes).Put(name, a)
    ensures a.kind == InferAttributeType(v) && a.value == InitialValue(host, name, v)
  {
    var success := e.SetAttribute(host, name, v, InferAttributeType(v), NoMetadata, clock);
    a := e.attributes.entries[name];
    InitialValueStored(host, name, v, clock);
  }

  /**
   * What `createEntity` makes of each entry of the initial data: the name,
   * the kind the manager infers, and the value `setAttribute` leaves (the
   * coerced value, or null when it fails the kind's check).
   */
  function Expected(host: Host, data: seq<(string, Value)>): (r: seq<(string, Kind, Value)>)
    ensures |r| == |data|
  {
    seq(|data|, j requires 0 <= j < |data| => (data[j].0, InferAttributeType(data[j].1), InitialValue(host, data[j].0, data[j].1)))
  }

  /** The first `n` expected attributes are in `m`, each with its kind and value. */
  ghost predicate Seeded(m: OMap<string, Attribute>, expected: seq<(string, Kind, Value)>, n: nat)
    requires n <= |expected|
    reads m.entries.Values
  {
    forall j :: 0 <= j < n ==>
      expected[j].0 in m.entries && m.entries[expected[j].0].kind == expected[j].1 && m.entries[expected[j].0].value == expected[j].2
  }

  /** Extending the seeded prefix by one attribute under a new key. */
  lemma SeededPut(m: OMap<string, Attribute>, expected: seq<(string, Kind, Value)>, i: nat, a: Attribute)
    requires i < |expected| && expected[i].0 !in m.entries && Seeded(m, expected, i)
    requires a.kind == expected[i].1 && a.value == expected[i].2
    ensures Seeded(m.Put(expected[i].0, a), expected, i + 1)
  {
    var r := m.Put(expected[i].0, a);
    forall j | 0 <= j < i + 1
      ensures expected[j].0 in r.entries && r.entries[expected[j].0].kind == expected[j].1 && r.entries[expected[j].0].value == expected[j].2
    {
      if j < i {
        assert expected[j].0 in m.entries;
        assert r.entries[expected[j].0] == m.entries[expected[j].0];
      } else {
        assert r.entries[expected[i].0] == a;
      }
    }
  }

  /** The next key of the initial data is new, and the keys grow by it. */
  lemma NextValueKey(pairs: seq<(string, Value)>, i: nat)
    requires i < |pairs| && Distinct(KeysOf(pairs))
    ensures pairs[i].0 !in KeysOf(pairs[..i])
    ensures KeysOf(pairs[..i + 1]) == KeysOf(pairs[..i]) + [pairs[i].0]
  {
    var all, before := KeysOf(pairs), KeysOf(pairs[..i]);
    forall j | 0 <= j < i
      ensures before[j] != pairs[i].0
    {
      assert before[j] == pairs[j].0 == all[j];
      assert all[i] == pairs[i].0;
    }
    KeysOfSnoc(pairs, i);
  }
}
