/**
 * An entity (`Entity`): an ordered map from names to attributes, created on
 * first read, with a small per-entity event system.
 */
module Entities {
  import opened Wrappers
  import opened JsStrings
  import opened JsValues
  import opened PropertyOrder
  import opened OrderedMaps
  import opened Attributes

  /** The identity of a listener function registered with `on`. */
  type ListenerId = nat

  /** The descriptive metadata of an entity. */
  datatype EntityMetadata = EntityMetadata(source: string, tags: seq<string>, description: string)

  const DefaultEntityMetadata := EntityMetadata("user", [], "")

  /** An object spread over the metadata by `updateMetadata`: each field may be missing. */
  datatype MetadataPatch = MetadataPatch(source: Option<string>, tags: Option<seq<string>>, description: Option<string>)

  /** `{ ...metadata, ...patch }` */
  function Patched(md: EntityMetadata, patch: MetadataPatch): (r: EntityMetadata)
    ensures r.source == (if patch.source.Some? then patch.source.value else md.source)
    ensures r.tags == (if patch.tags.Some? then patch.tags.value else md.tags)
    ensures r.description == (if patch.description.Some? then patch.description.value else md.description)
  {
    EntityMetadata(patch.source.GetOr(md.source), patch.tags.GetOr(md.tags), patch.description.GetOr(md.description))
  }

  /** Every field of a whole metadata record, as a patch. */
  function AsPatch(md: EntityMetadata): MetadataPatch {
    MetadataPatch(Some(md.source), Some(md.tags), Some(md.description))
  }

  /** The payload of an entity event. */
  datatype EntityEvent =
    | AttributeCreated(name: string)
    | AttributeChanged(name: string, oldValue: Value, newValue: Value)
    | AttributeRemoved(name: string)
    | MetadataUpdated(metadata: EntityMetadata)
    | TagAdded(tag: string)
    | TagRemoved(tag: string)

  /**
   * One `emit(event, data)`: the listeners called, in order, and the payload;
   * the host sink receives the same payload as `entity:<event>`.
   */
  datatype Emission = Emission(event: string, payload: EntityEvent, notified: seq<ListenerId>)

  /**
   * `generateId()`: the lower-cased type, or `entity` when the type is unset
   * or empty, then the clock in base 36 and the random suffix. `clock` is
   * `Date.now()`, `random` the five characters taken from `Math.random().toString(36)`.
   * The constructor calls it before it assigns `this.type` and passes no type;
   * `clone` calls it on a typed entity.
   */
  function GenerateId(entityType: string, clock: nat, random: string): (r: string)
    ensures entityType == "" ==> |r| > 7 && r[..7] == "entity_"
    ensures entityType != "" ==> |r| > |entityType| && r[..|entityType|] == LowerCase(entityType) && r[|entityType|] == '_'
  {
    (if entityType != "" then LowerCase(entityType) else "entity") + "_" + Base36Text(clock) + "_" + random
  }

  /** A clone of a `Person` gets an id starting `person_`, where a new untyped id starts `entity_`. */
  lemma TypedIdPrefix(clock: nat, random: string)
    ensures GenerateId("Person", clock, random)[..7] == "person_"
    ensures GenerateId("", clock, random)[..7] == "entity_"
  {
    var lower := LowerCase("Person");
    assert lower == "person";
  }

  /** `/^[^\s@]+@[^\s@]+\.[^\s@]+$/.test(s)`, the same pattern the email kind checks. */
  predicate IsEmail(s: string) {
    IsValidEmail(s)
  }

  /** `new URL(s)` does not throw. */
  predicate IsUrl(host: Host, s: string) {
    host.parseUrl(s).Some?
  }

  /** `!isNaN(new Date(s).getTime()) && s.length > 8` */
  predicate IsDate(host: Host, s: string) {
    host.parseDate(Str(s)).Some? && |s| > 8
  }

  /** `inferType(value)`: the first matching test in a fixed order. */
  function InferType(host: Host, v: Value): Kind {
    match v
    case Undefined => TextKind
    case Null => TextKind
    case Bool(_) => BooleanKind
    case Num(r) => if IsWhole(r) then IntegerKind else NumberKind
    case NaN => NumberKind
    case Arr(_) => ArrayKind
    case DateObj(_) => DateKind
    case Obj(_) => ObjectKind
    case Str(s) => InferStringType(host, s)
  }

  /** A string is an email, else a URL, else a date (only when longer than 8), else text. */
  function InferStringType(host: Host, s: string): Kind {
    if IsEmail(s) then EmailKind
    else if IsUrl(host, s) then UrlKind
    else if IsDate(host, s) then DateKind
    else TextKind
  }

  /**
   * The order of the tests: null first, then booleans, numbers (integer iff
   * whole), arrays, dates, objects; a string is checked as email before URL,
   * and as URL before date.
   */
  lemma InferTypeOrder(host: Host, v: Value)
    ensures IsNullish(v) <==> InferType(host, v) == TextKind && !v.Str?
    ensures v.Num? ==> InferType(host, v) == (if IsWhole(v.r) then IntegerKind else NumberKind)
    ensures v.Str? && IsEmail(v.s) ==> InferType(host, v) == EmailKind
    ensures v.Str? && !IsEmail(v.s) && IsUrl(host, v.s) ==> InferType(host, v) == UrlKind
    ensures v.Str? && |v.s| <= 8 ==> InferType(host, v) != DateKind
    ensures InferType(host, v) == DateKind <==> v.DateObj? || (v.Str? && !IsEmail(v.s) && !IsUrl(host, v.s) && IsDate(host, v.s))
  {
  }

  /** The inferred kind accepts the value it was inferred from, except NaN, which the number kind rejects. */
  lemma InferredKindAcceptsValue(host: Host, name: string, v: Value)
    ensures !v.NaN? ==> TypeErrors(host, name, InferType(host, v), v) == []
    ensures v.NaN? ==> TypeErrors(host, name, InferType(host, v), v) != []
  {
  }

  /** `{ attributes: { added, removed, changed } }` as `compare` reports it. */
  datatype AttributeDiff = AttributeDiff(name: string, oldValue: Value, newValue: Value)

  datatype Differences = Differences(added: seq<string>, removed: seq<string>, changed: seq<AttributeDiff>)

  /** The plain-data form of an entity; `None` marks a missing (or falsy) property. */
  datatype EntityData = EntityData(
    id: string,
    entityType: string,
    attributes: Option<seq<(string, AttributeData)>>,
    createdAt: int,
    updatedAt: int,
    schemaVersion: Option<int>,
    metadata: Option<EntityMetadata>)

  /** The options of `getAttribute`/`createAttribute`; `kind` and `createdBy` may be missing, `value` may be undefined. */
  datatype AttributeOptions = AttributeOptions(
    autoCreate: bool,
    kind: Option<Kind>,
    value: Value,
    metadata: MetadataInput,
    createdBy: Option<string>)

  const DefaultOptions := AttributeOptions(true, None, Undefined, NoMetadata, None)

  /** The names of `names` that `m` lacks, in their order. */
  function Missing<V>(names: seq<string>, m: map<string, V>): (r: seq<string>)
    ensures forall n :: n in r <==> n in names && n !in m
    ensures |r| <= |names|
  {
    if names == [] then []
    else (if names[0] in m then [] else [names[0]]) + Missing(names[1..], m)
  }

  /** The names of a list of differences. */
  function DiffNames(ds: seq<AttributeDiff>): (r: seq<string>)
    ensures |r| == |ds| && forall i :: 0 <= i < |ds| ==> r[i] == ds[i].name
  {
    if ds == [] then [] else [ds[0].name] + DiffNames(ds[1..])
  }

  /**
   * The shared names whose display values stringify differently, with both
   * display values, in the order of `names`.
   */
  function Changed(host: Host, names: seq<string>, mine: map<string, Attribute>, theirs: map<string, Attribute>): (r: seq<AttributeDiff>)
    reads mine.Values, theirs.Values
    ensures forall n :: n in DiffNames(r) <==>
      n in names && n in mine && n in theirs && !JsonEqual(host, mine[n].GetValue(host, false), theirs[n].GetValue(host, false))
    ensures forall d :: d in r ==>
      d.name in mine && d.name in theirs && d.oldValue == mine[d.name].GetValue(host, false) && d.newValue == theirs[d.name].GetValue(host, false)
  {
    if names == [] then []
    else
      var n := names[0];
      var rest := Changed(host, names[1..], mine, theirs);
      if n in mine && n in theirs && !JsonEqual(host, mine[n].GetValue(host, false), theirs[n].GetValue(host, false))
      then [AttributeDiff(n, mine[n].GetValue(host, false), theirs[n].GetValue(host, false))] + rest
      else rest
  }

  /** The attributes of the given kind (`getAttributesByType`), in order. */
  function OfKind(attrs: seq<Attribute>, kind: Kind): (r: seq<Attribute>)
    reads set a | a in attrs
    ensures forall a :: a in r ==> a in attrs && a.kind == kind
    ensures forall a :: a in attrs && a.kind == kind ==> a in r
  {
    if attrs == [] then []
    else (if attrs[0].kind == kind then [attrs[0]] else []) + OfKind(attrs[1..], kind)
  }

  /** The required attributes (`getRequiredAttributes`), in order. */
  function RequiredOf(attrs: seq<Attribute>): (r: seq<Attribute>)
    reads set a | a in attrs
    ensures forall a :: a in r ==> a in attrs && a.metadata.required
    ensures forall a :: a in attrs && a.metadata.required ==> a in r
  {
    if attrs == [] then []
    else (if attrs[0].metadata.required then [attrs[0]] else []) + RequiredOf(attrs[1..])
  }

  /** The empty attributes (`getEmptyAttributes`), in order. */
  function EmptyOf(attrs: seq<Attribute>): (r: seq<Attribute>)
    reads set a | a in attrs
    ensures forall a :: a in r ==> a in attrs && IsBlank(a.value)
    ensures forall a :: a in attrs && IsBlank(a.value) ==> a in r
  {
    if attrs == [] then []
    else (if IsBlank(attrs[0].value) then [attrs[0]] else []) + EmptyOf(attrs[1..])
  }

  /** The messages of each attribute's own `validate(value)`, attribute by attribute. */
  function AttributeErrors(host: Host, attrs: seq<Attribute>): seq<string>
    reads set a | a in attrs
  {
    if attrs == [] then []
    else
      var a := attrs[|attrs| - 1];
      AttributeErrors(host, attrs[..|attrs| - 1]) + ValidationErrors(host, a.name, a.metadata, a.kind, a.validators, a.value)
  }

  /** One "is required" message for each empty attribute of `attrs`. */
  function BlankMessages(attrs: seq<Attribute>): seq<string>
    reads set a | a in attrs
  {
    if attrs == [] then []
    else
      var a := attrs[|attrs| - 1];
      BlankMessages(attrs[..|attrs| - 1]) + (if IsBlank(a.value) then [a.name + " è obbligatorio"] else [])
  }

  /** The errors of `Entity.validate()`: every attribute's own errors, then the required-and-empty check again. */
  function EntityErrors(host: Host, attrs: seq<Attribute>): seq<string>
    reads set a | a in attrs
  {
    AttributeErrors(host, attrs) + BlankMessages(RequiredOf(attrs))
  }

  /** `tags.splice(tags.indexOf(tag), 1)`: the first occurrence goes, when there is one. */
  function RemoveFirst(tags: seq<string>, tag: string): (r: seq<string>)
    ensures tag in tags ==> |r| == |tags| - 1 && multiset(r) == multiset(tags) - multiset{tag}
    ensures tag !in tags ==> r == tags
  {
    if tags == [] then []
    else if tags[0] == tag then
      assert tags == [tags[0]] + tags[1..];
      tags[1..]
    else
      assert tags == [tags[0]] + tags[1..];
      [tags[0]] + RemoveFirst(tags[1..], tag)
  }

  /** The names `applyChanges` adds: each name of `names` not yet present, appended in order. */
  function AddMissing(keys: seq<string>, names: seq<string>): (r: seq<string>)
    ensures forall n :: n in r <==> n in keys || n in names
    ensures keys <= r
    decreases |names|
  {
    if names == [] then keys
    else
      var k := AddMissing(keys, names[..|names| - 1]);
      assert forall n :: n in names <==> n in names[..|names| - 1] || n == names[|names| - 1] by {
        assert names == names[..|names| - 1] + [names[|names| - 1]];
      }
      if names[|names| - 1] in k then k else k + [names[|names| - 1]]
  }

  /** `AddMissing` over one more name. */
  lemma AddMissingPrefix(keys: seq<string>, names: seq<string>, i: nat)
    requires i < |names|
    ensures var k := AddMissing(keys, names[..i]);
      AddMissing(keys, names[..i + 1]) == if names[i] in k then k else k + [names[i]]
  {
    assert names[..i + 1][..i] == names[..i];
  }

  /** The names of `keys` that are also in `m`, in order. */
  function KeptIn<V>(keys: seq<string>, m: map<string, V>): (r: seq<string>)
    ensures forall n :: n in r <==> n in keys && n in m
    decreases |keys|
  {
    if keys == [] then []
    else
      var k := KeptIn(keys[..|keys| - 1], m);
      assert forall n :: n in keys <==> n in keys[..|keys| - 1] || n == keys[|keys| - 1] by {
        assert keys == keys[..|keys| - 1] + [keys[|keys| - 1]];
      }
      if keys[|keys| - 1] in m then k + [keys[|keys| - 1]] else k
  }

  /**
   * The attribute names after `applyChanges`: the `addNew` pass appends the
   * names of `theirs` that are missing, in their order; the `removeDeleted`
   * pass then drops the names `theirs` does not have.
   */
  function MergedNames<V>(mine: seq<string>, theirs: seq<string>, present: map<string, V>, addNew: bool, removeDeleted: bool): (r: seq<string>)
    requires forall n :: n in theirs <==> n in present
    ensures forall n :: n in r <==> (n in mine || (addNew && n in theirs)) && (!removeDeleted || n in theirs)
    ensures !removeDeleted ==> mine <= r
  {
    var added := if addNew then AddMissing(mine, theirs) else mine;
    if removeDeleted then KeptIn(added, present) else added
  }

  /** The metadata `createAttribute` hands to the new attribute. */
  function CreationMetadata(options: AttributeOptions): MetadataInput {
    var creator := if options.createdBy.Some? && options.createdBy.value != "" then options.createdBy.value else "system";
    options.metadata.(source := Some("auto-discovery"), createdBy := Some(creator))
  }

  /** The kind `createAttribute` gives: the requested one, or the one inferred from the value. */
  function CreationKind(host: Host, options: AttributeOptions): Kind {
    if options.kind.Some? then options.kind.value else InferType(host, options.value)
  }

  /** The `attribute:changed` emission of `setAttribute`: only after a stored value whose display is not strictly equal to the one before. */
  function ChangeEvents(name: string, stored: bool, before: Value, after: Value): (r: seq<EntityEvent>)
    ensures |r| <= 1
    ensures r != [] <==> stored && (before.NaN? || before != after)
  {
    if stored && !StrictEq(before, after) then [AttributeChanged(name, before, after)] else []
  }

  /** What `setAttribute` reads and writes of an attribute. */
  datatype AttributeState = AttributeState(name: string, kind: Kind, value: Value, metadata: Metadata,
                                           validators: seq<Validator>, transformers: seq<Transformer>)

  function StateOf(a: Attribute): AttributeState
    reads a
  {
    AttributeState(a.name, a.kind, a.value, a.metadata, a.validators, a.transformers)
  }

  /** `getValue()`: the display value of an attribute in this state. */
  function Shown(host: Host, s: AttributeState): Value {
    Display(host, s.kind, s.value)
  }

  /** The attribute `setAttribute` creates for a missing name: source `entity`, value null. */
  function Created(name: string, kind: Kind, md: MetadataInput, clock: int): AttributeState {
    var m := MergeMetadata(Entity.EntityMetadataInput(md), clock);
    AttributeState(name, kind, Null, m, DefaultValidators(m), [])
  }

  /**
   * `setValue(input, { notify: false })` on an attribute in state `s`: the new
   * state, and whether the value was stored. A value that passes validation
   * after the kind's coercion and the transformers is stored and the
   * attribute's `updatedAt` stamped; anything else leaves the state as it was.
   */
  function Written(host: Host, s: AttributeState, input: Value, clock: int): (r: (AttributeState, bool))
    ensures r.0.name == s.name && r.0.kind == s.kind && r.0.validators == s.validators && r.0.transformers == s.transformers
    ensures !r.1 ==> r.0 == s
  {
    var t := Transformed(host, s.kind, s.transformers, input);
    if ValidationErrors(host, s.name, s.metadata, s.kind, s.validators, t) == [] then
      (s.(value := t, metadata := s.metadata.(updatedAt := clock)), true)
    else (s, false)
  }

  /**
   * Writing the same value twice: the second write stores exactly when the
   * first did and leaves the value the first one left.
   */
  lemma RewriteKeepsValue(host: Host, s: AttributeState, input: Value, first: int, second: int)
    ensures var w1 := Written(host, s, input, first);
      var w2 := Written(host, w1.0, input, second);
      w2.1 == w1.1 && w2.0.value == w1.0.value
  {
    var t := Transformed(host, s.kind, s.transformers, input);
    ValidationIgnoresStamp(host, s.name, s.metadata, s.kind, s.validators, t, first);
  }

  /** A value `===` compares by content: not NaN, and not an object, array or date, which it compares by identity. */
  predicate Primitive(v: Value) {
    !v.NaN? && !v.Obj? && !v.Arr? && !v.DateObj?
  }

  /**
   * Writing the same primitive twice announces no change the second time, so
   * the two writes together announce `attribute:changed` at most once.
   */
  lemma RewriteIsSilent(host: Host, s: AttributeState, input: Value, first: int, second: int)
    requires Primitive(Display(host, s.kind, Transformed(host, s.kind, s.transformers, input)))
    ensures var w1 := Written(host, s, input, first);
      var w2 := Written(host, w1.0, input, second);
      && ChangeEvents(s.name, w2.1, Shown(host, w1.0), Shown(host, w2.0)) == []
      && |ChangeEvents(s.name, w1.1, Shown(host, s), Shown(host, w1.0))| + |ChangeEvents(s.name, w2.1, Shown(host, w1.0), Shown(host, w2.0))| <= 1
  {
    RewriteKeepsValue(host, s, input, first, second);
  }

  /** The state of every attribute of a map, by name. */
  function States(m: OMap<string, Attribute>): (r: map<string, AttributeState>)
    reads m.entries.Values
    ensures r.Keys == m.entries.Keys
  {
    map n | n in m.entries :: StateOf(m.entries[n])
  }

  /** The attributes of `m` are in the states `s` gives, name by name. */
  ghost predicate HasStates(m: OMap<string, Attribute>, s: map<string, AttributeState>)
    reads m.entries.Values
  {
    m.entries.Keys == s.Keys && forall n :: n in m.entries ==> StateOf(m.entries[n]) == s[n]
  }

  /**
   * No two names of `mine` share an attribute object, and no attribute of
   * `theirs` is one of `mine` under another name. This holds of entities whose
   * attributes were each made by `new Attribute`, and of an entity taken
   * together with itself.
   */
  predicate Unshared(mine: map<string, Attribute>, theirs: map<string, Attribute>) {
    && (forall n, k :: n in mine && k in mine && mine[n] == mine[k] ==> n == k)
    && (forall n, k :: n in theirs && k in mine && theirs[n] == mine[k] ==> n == k)
  }

  /**
   * `owner` names each attribute of `mine` by its own name, and each attribute
   * of `theirs` it knows by that attribute's name in `theirs`: a witness of
   * `Unshared` that is cheap to carry from one step to the next.
   */
  ghost predicate Owns(owner: map<Attribute, string>, mine: map<string, Attribute>, theirs: map<string, Attribute>) {
    && (forall n :: n in mine ==> mine[n] in owner && owner[mine[n]] == n)
    && (forall n :: n in theirs && theirs[n] in owner ==> owner[theirs[n]] == n)
  }

  /** The attributes of `theirs` under `names` are still in the states `s` gives. */
  ghost predicate Unread(theirs: map<string, Attribute>, names: seq<string>, s: map<string, AttributeState>)
    reads theirs.Values
  {
    forall k :: k in names ==> k in theirs && k in s && StateOf(theirs[k]) == s[k]
  }

  /** Reading the name at `i` leaves the names after it unread, and that name is not among them. */
  lemma UnreadTail(theirs: OMap<string, Attribute>, i: nat, s: map<string, AttributeState>)
    requires theirs.Valid() && i < |theirs.keys|
    ensures theirs.keys[i] !in theirs.keys[i + 1..]
    ensures Unread(theirs.entries, theirs.keys[i..], s) ==>
      Unread(theirs.entries, theirs.keys[i + 1..], s) && StateOf(theirs.entries[theirs.keys[i]]) == s[theirs.keys[i]]
  {
    assert theirs.keys[i..] == [theirs.keys[i]] + theirs.keys[i + 1..];
  }

  /** Under an owner map, no unread attribute of `theirs` is the attribute of `mine` under a name outside `unread`. */
  lemma UnreadApart(owner: map<Attribute, string>, mine: map<string, Attribute>, theirs: map<string, Attribute>, name: string,
                    unread: seq<string>, s: map<string, AttributeState>)
    requires Owns(owner, mine, theirs) && name in mine && name !in unread && Unread(theirs, unread, s)
    ensures forall k :: k in unread ==> theirs[k] != mine[name]
  {
  }

  /** Under an owner map, the attribute under `name` is under no other name of `mine`. */
  lemma OwnsApart(owner: map<Attribute, string>, mine: map<string, Attribute>, theirs: map<string, Attribute>, name: string)
    requires Owns(owner, mine, theirs) && name in mine
    ensures forall n :: n in mine && n != name ==> mine[n] != mine[name]
  {
  }

  /** A new attribute stored under a new name: the states and the owner map grow by that one entry. */
  lemma PutTracked(before: OMap<string, Attribute>, after: OMap<string, Attribute>, states: map<string, AttributeState>, name: string,
                   a: Attribute, owner: map<Attribute, string>, theirs: map<string, Attribute>)
    requires HasStates(before, states) && Owns(owner, before.entries, theirs)
    requires name !in before.entries && after == before.Put(name, a) && a !in owner && a !in theirs.Values
    ensures HasStates(after, states[name := StateOf(a)]) && Owns(owner[a := name], after.entries, theirs)
  {
  }

  /** One attribute written: the states change under that name alone. */
  lemma WriteTracked(m: OMap<string, Attribute>, states: map<string, AttributeState>, name: string, st: AttributeState)
    requires m.entries.Keys == states.Keys && name in m.entries && StateOf(m.entries[name]) == st
    requires forall n :: n in m.entries && n != name ==> StateOf(m.entries[n]) == states[n]
    ensures HasStates(m, states[name := st])
  {
  }

  /** Unshared attributes have an owner map. */
  lemma OwnerOf(mine: map<string, Attribute>, theirs: map<string, Attribute>) returns (owner: map<Attribute, string>)
    requires Unshared(mine, theirs)
    ensures Owns(owner, mine, theirs)
  {
    owner := map a | a in mine.Values :: var n :| n in mine && mine[n] == a; n;
    forall n | n in theirs && theirs[n] in owner
      ensures owner[theirs[n]] == n
    {
      var k :| k in mine && mine[k] == theirs[n] && owner[theirs[n]] == k;
    }
  }

  /** The attribute the `addNew` pass makes for a name of theirs: `setAttribute` with their value, kind and metadata. */
  function Adopted(host: Host, name: string, source: AttributeState, clock: int): AttributeState {
    Written(host, Created(name, source.kind, AsInput(source.metadata), clock), source.value, clock).0
  }

  /** `Adopted` at one host and clock, as a function of the name and their attribute. */
  function AdoptAt(host: Host, clock: int): (string, AttributeState) -> AttributeState {
    (name, source) => Adopted(host, name, source, clock)
  }

  /** The state `setAttributeValue` leaves, at one host and clock, as a function of the state before and the value. */
  function WriteAt(host: Host, clock: int): (AttributeState, Value) -> AttributeState {
    (s, input) => Written(host, s, input, clock).0
  }

  /**
   * The `addNew` pass on states, over `names` in order: each name of theirs
   * the attributes do not have yet is adopted.
   */
  function Added(mine: map<string, AttributeState>, theirs: map<string, AttributeState>, names: seq<string>,
                 adopt: (string, AttributeState) -> AttributeState): (r: map<string, AttributeState>)
    ensures forall n :: n in r <==> n in mine || (n in names && n in theirs)
    decreases |names|
  {
    if names == [] then mine
    else
      var r := Added(mine, theirs, names[..|names| - 1], adopt);
      var n := names[|names| - 1];
      assert forall k :: k in names <==> k in names[..|names| - 1] || k == n by {
        assert names == names[..|names| - 1] + [n];
      }
      if n in r || n !in theirs then r else r[n := adopt(n, theirs[n])]
  }

  /** What the `addNew` pass leaves under one name: their attribute adopted, when the name was not one of `mine`. */
  lemma {:induction false} AddedAt(mine: map<string, AttributeState>, theirs: map<string, AttributeState>, names: seq<string>,
                                   adopt: (string, AttributeState) -> AttributeState, n: string)
    ensures n in mine ==> Added(mine, theirs, names, adopt)[n] == mine[n]
    ensures n !in mine && n in names && n in theirs ==> Added(mine, theirs, names, adopt)[n] == adopt(n, theirs[n])
    decreases |names|
  {
    if names != [] {
      AddedAt(mine, theirs, names[..|names| - 1], adopt, n);
    }
  }

  /** The `addNew` pass over one more name. */
  lemma AddedPrefix(mine: map<string, AttributeState>, theirs: map<string, AttributeState>, names: seq<string>, i: nat,
                    adopt: (string, AttributeState) -> AttributeState)
    requires i < |names|
    ensures var r := Added(mine, theirs, names[..i], adopt);
      Added(mine, theirs, names[..i + 1], adopt) == if names[i] in r || names[i] !in theirs then r else r[names[i] := adopt(names[i], theirs[names[i]])]
  {
    assert names[..i + 1][..i] == names[..i];
  }

  /**
   * The `overwriteExisting` pass on states, over `names` in order: each name
   * of theirs the attributes have is written with their value.
   */
  function Overwritten(mine: map<string, AttributeState>, theirs: map<string, AttributeState>, names: seq<string>,
                       write: (AttributeState, Value) -> AttributeState): (r: map<string, AttributeState>)
    ensures r.Keys == mine.Keys
    decreases |names|
  {
    if names == [] then mine
    else
      var r := Overwritten(mine, theirs, names[..|names| - 1], write);
      var n := names[|names| - 1];
      if n in r && n in theirs then r[n := write(r[n], theirs[n].value)] else r
  }

  /** What the `overwriteExisting` pass leaves under one name: written once with their value when both sides have it. */
  lemma {:induction false} OverwrittenAt(mine: map<string, AttributeState>, theirs: map<string, AttributeState>, names: seq<string>,
                                         write: (AttributeState, Value) -> AttributeState, n: string)
    requires Distinct(names) && n in mine
    ensures Overwritten(mine, theirs, names, write)[n] == if n in names && n in theirs then write(mine[n], theirs[n].value) else mine[n]
    decreases |names|
  {
    if names != [] {
      var init := names[..|names| - 1];
      assert Distinct(init);
      assert names == init + [names[|names| - 1]];
      OverwrittenAt(mine, theirs, init, write, n);
    }
  }

  /** The `overwriteExisting` pass over one more name. */
  lemma OverwrittenPrefix(mine: map<string, AttributeState>, theirs: map<string, AttributeState>, names: seq<string>, i: nat,
                          write: (AttributeState, Value) -> AttributeState)
    requires i < |names|
    ensures var r := Overwritten(mine, theirs, names[..i], write);
      Overwritten(mine, theirs, names[..i + 1], write) == if names[i] in r && names[i] in theirs then r[names[i] := write(r[names[i]], theirs[names[i]].value)] else r
  {
    assert names[..i + 1][..i] == names[..i];
  }

  /** The `removeDeleted` pass on states: the names not in `names` go. */
  function Kept(mine: map<string, AttributeState>, names: set<string>): (r: map<string, AttributeState>)
    ensures forall n :: n in r <==> n in mine && n in names
  {
    map n | n in mine && n in names :: mine[n]
  }

  /** The attributes of `before` that `after` keeps, under the same names, are in the states they had. */
  lemma KeptStates(before: OMap<string, Attribute>, after: OMap<string, Attribute>, states: map<string, AttributeState>, names: set<string>)
    requires HasStates(before, states)
    requires forall n :: n in after.entries <==> n in before.entries && n in names
    requires forall n :: n in after.entries ==> after.entries[n] == before.entries[n]
    ensures HasStates(after, Kept(states, names))
  {
  }

  /**
   * The attributes after `applyChanges`, by name: the passes the options
   * switch on, in order, over the names of theirs in their order.
   */
  function MergedStates(host: Host, mine: map<string, AttributeState>, theirs: map<string, AttributeState>, theirNames: seq<string>,
                        overwriteExisting: bool, addNew: bool, removeDeleted: bool, clock: int): (r: map<string, AttributeState>)
    requires forall n :: n in theirNames <==> n in theirs
    ensures forall n :: n in r <==> (n in mine || (addNew && n in theirs)) && (!removeDeleted || n in theirs)
  {
    var added := if addNew then Added(mine, theirs, theirNames, AdoptAt(host, clock)) else mine;
    var written := if overwriteExisting then Overwritten(added, theirs, theirNames, WriteAt(host, clock)) else added;
    if removeDeleted then Kept(written, theirs.Keys) else written
  }

  /** The three passes in turn, each switched on or off by its option, give `MergedStates`. */
  lemma MergedByPasses(host: Host, mine: map<string, AttributeState>, theirs: map<string, AttributeState>, theirNames: seq<string>,
                       overwriteExisting: bool, addNew: bool, removeDeleted: bool, clock: int,
                       added: map<string, AttributeState>, written: map<string, AttributeState>, kept: map<string, AttributeState>)
    requires forall n :: n in theirNames <==> n in theirs
    requires added == if addNew then Added(mine, theirs, theirNames, AdoptAt(host, clock)) else mine
    requires written == if overwriteExisting then Overwritten(added, theirs, theirNames, WriteAt(host, clock)) else added
    requires kept == if removeDeleted then Kept(written, theirs.Keys) else written
    ensures kept == MergedStates(host, mine, theirs, theirNames, overwriteExisting, addNew, removeDeleted, clock)
  {
  }

  /**
   * Each attribute this entity had before `applyChanges`: one theirs lacks is
   * untouched (unless `removeDeleted` drops it); one both have is written once
   * with their value when `overwriteExisting` is set, and untouched otherwise.
   */
  lemma MergedExisting(host: Host, mine: map<string, AttributeState>, theirs: map<string, AttributeState>, theirNames: seq<string>,
                       overwriteExisting: bool, addNew: bool, removeDeleted: bool, clock: int, n: string)
    requires (forall k :: k in theirNames <==> k in theirs) && Distinct(theirNames)
    requires n in mine
    ensures var r := MergedStates(host, mine, theirs, theirNames, overwriteExisting, addNew, removeDeleted, clock);
      && (n !in theirs && !removeDeleted ==> r[n] == mine[n])
      && (n in theirs ==> r[n] == if overwriteExisting then Written(host, mine[n], theirs[n].value, clock).0 else mine[n])
  {
    var added := if addNew then Added(mine, theirs, theirNames, AdoptAt(host, clock)) else mine;
    AddedAt(mine, theirs, theirNames, AdoptAt(host, clock), n);
    OverwrittenAt(added, theirs, theirNames, WriteAt(host, clock), n);
  }

  /**
   * An attribute only theirs has is adopted by the `addNew` pass, and the
   * overwrite pass that follows writes the same value again without changing
   * the result.
   */
  lemma MergedAdopted(host: Host, mine: map<string, AttributeState>, theirs: map<string, AttributeState>, theirNames: seq<string>,
                      overwriteExisting: bool, removeDeleted: bool, clock: int, n: string)
    requires (forall k :: k in theirNames <==> k in theirs) && Distinct(theirNames)
    requires n !in mine && n in theirs
    ensures MergedStates(host, mine, theirs, theirNames, overwriteExisting, true, removeDeleted, clock)[n] == Adopted(host, n, theirs[n], clock)
  {
    var added := Added(mine, theirs, theirNames, AdoptAt(host, clock));
    AddedAt(mine, theirs, theirNames, AdoptAt(host, clock), n);
    OverwrittenAt(added, theirs, theirNames, WriteAt(host, clock), n);
    if overwriteExisting {
      var c := Created(n, theirs[n].kind, AsInput(theirs[n].metadata), clock);
      RewriteKeepsValue(host, c, theirs[n].value, clock, clock);
    }
  }

  /**
   * A listener table after `on(event, listener)`: the listener joins the end of
   * the event's set unless it is already in it; every other event keeps its set.
   */
  function Joined(table: map<string, seq<ListenerId>>, event: string, listener: ListenerId): (r: map<string, seq<ListenerId>>)
    ensures r.Keys == table.Keys + {event}
    ensures forall e :: e in table && e != event ==> r[e] == table[e]
    ensures listener in r[event]
    ensures event in table ==> |table[event]| <= |r[event]| && r[event][..|table[event]|] == table[event]
    ensures event in table && listener in table[event] ==> r == table
  {
    var current := if event in table then table[event] else [];
    table[event := if listener in current then current else current + [listener]]
  }

  /** Adding the same listener twice is adding it once. */
  lemma JoinedTwice(table: map<string, seq<ListenerId>>, event: string, listener: ListenerId)
    ensures Joined(Joined(table, event, listener), event, listener) == Joined(table, event, listener)
  {
  }

  class Entity {
    var id: string
    var entityType: string
    var attributes: OMap<string, Attribute>
    var createdAt: int
    var updatedAt: int
    var schemaVersion: int
    var metadata: EntityMetadata
    /** `eventListeners`: each event's listener set, in insertion order. */
    var listeners: map<string, seq<ListenerId>>
    /** Every `emit`, oldest first. */
    var emitted: seq<Emission>
    /** `version`: a property only the entity manager sets, on the entities it loads; `None` while unset. */
    var version: Option<string>

    ghost predicate Valid()
      reads this
    {
      attributes.Valid() && forall e :: e in listeners ==> Distinct(listeners[e])
    }

    /** The fields no operation of the entity assigns after construction (`deserialize` and the entity manager do). */
    function Header(): (string, string, int, int, Option<string>)
      reads this
    {
      (id, entityType, createdAt, schemaVersion, version)
    }

    /** `new Entity(type, id)`: a missing (empty) id is generated while the type is still unset. */
    constructor (entityType: string, id: string, clock: nat, random: string)
      ensures Valid()
      ensures this.id == (if id != "" then id else GenerateId("", clock, random))
      ensures this.entityType == entityType
      ensures attributes == EmptyMap() && listeners == map[] && emitted == []
      ensures createdAt == clock && updatedAt == clock && schemaVersion == 1
      ensures metadata == DefaultEntityMetadata && version == None
    {
      this.id := if id != "" then id else GenerateId("", clock, random);
      this.entityType := entityType;
      attributes := EmptyMap();
      createdAt := clock;
      updatedAt := clock;
      schemaVersion := 1;
      metadata := DefaultEntityMetadata;
      listeners := map[];
      emitted := [];
      version := None;
    }

    function ListenersOf(event: string): seq<ListenerId>
      reads this
    {
      if event in listeners then listeners[event] else []
    }

    /** The record of an emission of `event` with the current listeners. */
    function Announcement(event: string, payload: EntityEvent): Emission
      reads this
    {
      Emission(event, payload, ListenersOf(event))
    }

    /** `on(event, callback)`: a listener already registered for the event is not added again. */
    method On(event: string, listener: ListenerId)
      requires Valid()
      modifies this
      ensures Valid()
      ensures listener in ListenersOf(event)
      ensures listeners == Joined(old(listeners), event, listener)
      ensures Header() == old(Header()) && attributes == old(attributes) && updatedAt == old(updatedAt)
      ensures metadata == old(metadata) && emitted == old(emitted)
    {
      if event !in listeners {
        listeners := listeners[event := []];
      }
      if listener !in listeners[event] {
        listeners := listeners[event := listeners[event] + [listener]];
      }
    }

    /** `off(event, callback)`: removes the listener; the (possibly empty) set stays. */
    method Off(event: string, listener: ListenerId)
      requires Valid()
      modifies this
      ensures Valid()
      ensures listener !in ListenersOf(event)
      ensures listeners == if event in old(listeners) then old(listeners)[event := Without(old(listeners)[event], listener)] else old(listeners)
      ensures Header() == old(Header()) && attributes == old(attributes) && updatedAt == old(updatedAt)
      ensures metadata == old(metadata) && emitted == old(emitted)
    {
      if event in listeners {
        listeners := listeners[event := Without(listeners[event], listener)];
      }
    }

    /**
     * `emit(event, data)`: every listener of the event is called in order;
     * each call sits in its own `try`, so one that throws does not keep the
     * later ones from being called. The emission records the listeners called.
     */
    method Emit(event: string, payload: EntityEvent)
      modifies this
      ensures emitted == old(emitted) + [Announcement(event, payload)]
      ensures Header() == old(Header()) && attributes == old(attributes) && updatedAt == old(updatedAt)
      ensures metadata == old(metadata) && listeners == old(listeners)
    {
      emitted := emitted + [Announcement(event, payload)];
    }

    predicate HasAttribute(name: string)
      reads this
    {
      attributes.Has(name)
    }

    /** `getAttributeNames()` */
    function GetAttributeNames(): seq<string>
      reads this
    {
      attributes.keys
    }

    /** `getAllAttributes()`, in insertion order. */
    function GetAllAttributes(): seq<Attribute>
      reads this
      requires Valid()
    {
      attributes.Values()
    }

    /** `createAttribute(name, options)`: a new attribute under `name`, kind inferred from the value when not given. */
    method CreateAttribute(host: Host, name: string, options: AttributeOptions, clock: int) returns (a: Attribute)
      requires Valid()
      modifies this
      ensures Valid() && fresh(a)
      ensures attributes == old(attributes).Put(name, a)
      ensures a.name == name && a.kind == CreationKind(host, options)
      ensures a.value == (if options.value.Undefined? then Null else options.value)
      ensures a.metadata == MergeMetadata(CreationMetadata(options), clock)
      ensures Header() == old(Header()) && updatedAt == clock
      ensures metadata == old(metadata) && listeners == old(listeners) && emitted == old(emitted)
    {
      a := new Attribute(name, options.value, CreationKind(host, options), CreationMetadata(options), clock);
      attributes := attributes.Put(name, a);
      updatedAt := clock;
    }

    /**
     * `getAttribute(name, options)`: an existing attribute is returned as it
     * is; a missing one is created and announced unless `autoCreate` is false.
     */
    method GetAttribute(host: Host, name: string, options: AttributeOptions, clock: int) returns (a: Option<Attribute>)
      requires Valid()
      modifies this
      ensures Valid()
      ensures old(attributes.Has(name)) ==>
        a == Some(old(attributes.entries[name])) && attributes == old(attributes)
        && emitted == old(emitted) && updatedAt == old(updatedAt)
      ensures !old(attributes.Has(name)) && options.autoCreate ==>
        a.Some? && fresh(a.value) && attributes == old(attributes).Put(name, a.value)
        && a.value.value == (if options.value.Undefined? then Null else options.value)
        && a.value.kind == CreationKind(host, options) && a.value.metadata.source == "auto-discovery"
        && emitted == old(emitted) + [Announcement("attribute:created", AttributeCreated(name))] && updatedAt == clock
      ensures !old(attributes.Has(name)) && !options.autoCreate ==>
        a == None && attributes == old(attributes) && emitted == old(emitted) && updatedAt == old(updatedAt)
      ensures Header() == old(Header()) && metadata == old(metadata) && listeners == old(listeners)
    {
      if attributes.Has(name) {
        return Some(attributes.entries[name]);
      }
      if options.autoCreate {
        var created := CreateAttribute(host, name, options, clock);
        Emit("attribute:created", AttributeCreated(name));
        return Some(created);
      }
      return None;
    }
  
    /** The `attribute:changed` emissions `setAttribute` makes, with the current listeners. */
    function ChangeAnnouncements(name: string, stored: bool, before: Value, after: Value): seq<Emission>
      reads this
    {
      var events := ChangeEvents(name, stored, before, after);
      if events == [] then [] else [Announcement("attribute:changed", events[0])]
    }

    /** The metadata `setAttribute` gives an attribute it creates. */
    static function EntityMetadataInput(md: MetadataInput): MetadataInput {
      md.(source := Some("entity"))
    }

    /**
     * `setAttribute(name, value, type, metadata)`. A missing attribute is
     * created (source `entity`, value null) and announced before the value is
     * set, so the announcement stays even when the value is refused; an
     * existing one keeps its kind. The value goes through the attribute's
     * `setValue` without notification; `attribute:changed` follows only if it
     * was stored and its display differs from the one before (null for a new
     * attribute).
     */
    method SetAttribute(host: Host, name: string, value: Value, kind: Kind, md: MetadataInput, clock: int) returns (success: bool)
      requires Valid()
      modifies this, if name in attributes.entries then {attributes.entries[name]} else {}
      ensures Valid() && name in attributes.entries
      ensures old(attributes.Has(name)) ==> attributes == old(attributes)
      ensures !old(attributes.Has(name)) ==> fresh(attributes.entries[name]) && attributes == old(attributes).Put(name, attributes.entries[name])
      ensures var s := if old(attributes.Has(name)) then old(StateOf(attributes.entries[name])) else Created(name, kind, md, clock);
        (StateOf(attributes.entries[name]), success) == Written(host, s, value, clock)
      ensures updatedAt == if success then clock else old(updatedAt)
      ensures var before := if old(attributes.Has(name)) then old(attributes.entries[name].GetValue(host, false)) else Null;
        var after := attributes.entries[name].GetValue(host, false);
        emitted == old(emitted)
          + (if old(attributes.Has(name)) then [] else [Announcement("attribute:created", AttributeCreated(name))])
          + ChangeAnnouncements(name, success, before, after)
      ensures Header() == old(Header()) && metadata == old(metadata) && listeners == old(listeners)
    {
      ghost var had, emitted0 := attributes.Has(name), emitted;
      ghost var s := if had then StateOf(attributes.entries[name]) else Created(name, kind, md, clock);
      ghost var created := if had then [] else [Announcement("attribute:created", AttributeCreated(name))];
      var attribute, before := AttributeToSet(host, name, kind, md, clock);
      assert StateOf(attribute) == s && emitted == emitted0 + created;
      success := StoreValue(host, name, attribute, before, value, clock);
    }

    /** The first half of `setAttribute`: the attribute to write, and its display value before the write. */
    method AttributeToSet(host: Host, name: string, kind: Kind, md: MetadataInput, clock: int) returns (attribute: Attribute, before: Value)
      requires Valid()
      modifies this
      ensures Valid() && name in attributes.entries && attribute == attributes.entries[name]
      ensures old(attributes.Has(name)) ==>
        attributes == old(attributes) && emitted == old(emitted) && before == attribute.GetValue(host, false)
      ensures !old(attributes.Has(name)) ==>
        fresh(attribute) && attributes == old(attributes).Put(name, attribute) && before == Null
        && attribute.name == name && attribute.kind == kind && attribute.value == Null
        && attribute.metadata == MergeMetadata(EntityMetadataInput(md), clock)
        && attribute.validators == DefaultValidators(attribute.metadata) && attribute.transformers == []
        && emitted == old(emitted) + [Announcement("attribute:created", AttributeCreated(name))]
      ensures Header() == old(Header()) && metadata == old(metadata) && listeners == old(listeners) && updatedAt == old(updatedAt)
    {
      if attributes.Has(name) {
        attribute := attributes.entries[name];
        before := attribute.GetValue(host, false);
      } else {
        attribute := new Attribute(name, Null, kind, EntityMetadataInput(md), clock);
        attributes := attributes.Put(name, attribute);
        before := Null;
        Emit("attribute:created", AttributeCreated(name));
      }
    }
  
    /** The second half of `setAttribute`: `setValue(value, { notify: false })`, then the change announcement. */
    method StoreValue(host: Host, name: string, attribute: Attribute, before: Value, value: Value, clock: int) returns (success: bool)
      requires Valid()
      modifies this, attribute
      ensures Valid() && attributes == old(attributes)
      ensures (StateOf(attribute), success) == Written(host, old(StateOf(attribute)), value, clock)
      ensures updatedAt == if success then clock else old(updatedAt)
      ensures emitted == old(emitted) + ChangeAnnouncements(name, success, before, attribute.GetValue(host, false))
      ensures Header() == old(Header()) && metadata == old(metadata) && listeners == old(listeners)
    {
      success := SetQuietly(host, attribute, value, clock);
      if success {
        updatedAt := clock;
        var after := attribute.GetValue(host, false);
        if !StrictEq(before, after) {
          Emit("attribute:changed", AttributeChanged(name, before, after));
        }
      }
    }
  
    /** `attribute.setValue(value, { notify: false })`: whether the value was stored, and the attribute's new state. */
    static method SetQuietly(host: Host, attribute: Attribute, value: Value, clock: int) returns (success: bool)
      modifies attribute
      ensures (StateOf(attribute), success) == Written(host, old(StateOf(attribute)), value, clock)
    {
      ghost var s := StateOf(attribute);
      var outcome := attribute.SetValue(host, value, false, false, clock);
      success := outcome.Stored?;
      assert (StateOf(attribute), success) == Written(host, s, value, clock);
    }

    /** `setAttributeValue(name, value)`: `setAttribute` with the kind inferred from the value, used only if the attribute is new. */
    method SetAttributeValue(host: Host, name: string, value: Value, clock: int) returns (success: bool)
      requires Valid()
      modifies this, if name in attributes.entries then {attributes.entries[name]} else {}
      ensures Valid() && name in attributes.entries
      ensures old(attributes.Has(name)) ==> attributes == old(attributes) && attributes.entries[name].kind == old(attributes.entries[name].kind)
      ensures !old(attributes.Has(name)) ==> fresh(attributes.entries[name]) && attributes.entries[name].kind == InferType(host, value)
      ensures var s := if old(attributes.Has(name)) then old(StateOf(attributes.entries[name]))
                       else Created(name, InferType(host, value), NoMetadata, clock);
        (StateOf(attributes.entries[name]), success) == Written(host, s, value, clock)
      ensures updatedAt == if success then clock else old(updatedAt)
      ensures var before := if old(attributes.Has(name)) then old(attributes.entries[name].GetValue(host, false)) else Null;
        var after := attributes.entries[name].GetValue(host, false);
        emitted == old(emitted)
          + (if old(attributes.Has(name)) then [] else [Announcement("attribute:created", AttributeCreated(name))])
          + ChangeAnnouncements(name, success, before, after)
      ensures Header() == old(Header()) && metadata == old(metadata) && listeners == old(listeners)
    {
      success := SetAttribute(host, name, value, InferType(host, value), NoMetadata, clock);
    }

    /**
     * `getAttributeValue(name, defaultValue)`: the display value of the
     * attribute. The read goes through `getAttribute` with its defaults, which
     * creates a missing attribute, so the default is never returned: a
     * missing name yields the display of a new empty text attribute, `''`.
     */
    method GetAttributeValue(host: Host, name: string, defaultValue: Value, clock: int) returns (v: Value)
      requires Valid()
      modifies this
      ensures Valid() && name in attributes.entries
      ensures v == attributes.entries[name].GetValue(host, false)
      ensures old(attributes.Has(name)) ==> attributes == old(attributes) && emitted == old(emitted)
      ensures !old(attributes.Has(name)) ==> v == Str("") && attributes.keys == old(attributes.keys) + [name]
      ensures Header() == old(Header()) && metadata == old(metadata) && listeners == old(listeners)
    {
      var a := GetAttribute(host, name, DefaultOptions, clock);
      assert a.Some?;
      v := a.value.GetValue(host, false);
    }

    /** `removeAttribute(name)`: true, with the deletion announced, iff the name was present. */
    method RemoveAttribute(name: string, clock: int) returns (removed: bool)
      requires Valid()
      modifies this
      ensures Valid()
      ensures removed == old(attributes.Has(name))
      ensures removed ==>
        attributes == old(attributes).Remove(name) && updatedAt == clock
        && emitted == old(emitted) + [Announcement("attribute:removed", AttributeRemoved(name))]
      ensures !removed ==> attributes == old(attributes) && updatedAt == old(updatedAt) && emitted == old(emitted)
      ensures !attributes.Has(name)
      ensures Header() == old(Header()) && metadata == old(metadata) && listeners == old(listeners)
    {
      removed := false;
      if attributes.Has(name) {
        attributes := attributes.Remove(name);
        updatedAt := clock;
        Emit("attribute:removed", AttributeRemoved(name));
        removed := true;
      }
    }

    /** `validate()`: each attribute's own errors, then one more message for each required attribute that is empty. */
    method Validate(host: Host) returns (r: Validation)
      requires Valid()
      ensures r.errors == EntityErrors(host, GetAllAttributes())
      ensures r.isValid <==> r.errors == []
    {
      r := ValidateAll(host, GetAllAttributes());
    }

    /** `updateMetadata(patch)`: the patch is spread over the metadata, and the result announced. */
    method UpdateMetadata(patch: MetadataPatch, clock: int)
      modifies this
      ensures metadata == Patched(old(metadata), patch) && updatedAt == clock
      ensures emitted == old(emitted) + [Announcement("metadata:updated", MetadataUpdated(metadata))]
      ensures Header() == old(Header()) && attributes == old(attributes) && listeners == old(listeners)
    {
      metadata := Patched(metadata, patch);
      updatedAt := clock;
      Emit("metadata:updated", MetadataUpdated(metadata));
    }

    predicate HasTag(tag: string)
      reads this
    {
      tag in metadata.tags
    }

    /** `addTag(tag)`: appends and announces a tag that is not there yet; a present tag changes nothing. */
    method AddTag(tag: string, clock: int)
      modifies this
      ensures HasTag(tag)
      ensures old(HasTag(tag)) ==> metadata == old(metadata) && updatedAt == old(updatedAt) && emitted == old(emitted)
      ensures !old(HasTag(tag)) ==>
        metadata == old(metadata).(tags := old(metadata.tags) + [tag]) && updatedAt == clock
        && emitted == old(emitted) + [Announcement("tag:added", TagAdded(tag))]
      ensures Header() == old(Header()) && attributes == old(attributes) && listeners == old(listeners)
    {
      if tag !in metadata.tags {
        metadata := metadata.(tags := metadata.tags + [tag]);
        updatedAt := clock;
        Emit("tag:added", TagAdded(tag));
      }
    }

    /** `removeTag(tag)`: drops the first occurrence of a present tag and announces it. */
    method RemoveTag(tag: string, clock: int)
      modifies this
      ensures metadata == old(metadata).(tags := RemoveFirst(old(metadata.tags), tag))
      ensures old(HasTag(tag)) ==> updatedAt == clock && emitted == old(emitted) + [Announcement("tag:removed", TagRemoved(tag))]
      ensures !old(HasTag(tag)) ==> updatedAt == old(updatedAt) && emitted == old(emitted)
      ensures Header() == old(Header()) && attributes == old(attributes) && listeners == old(listeners)
    {
      var index := IndexOfTag(metadata.tags, tag);
      if index.Some? {
        SpliceIsRemoveFirst(metadata.tags, tag, index.value);
        metadata := metadata.(tags := metadata.tags[..index.value] + metadata.tags[index.value + 1..]);
        updatedAt := clock;
        Emit("tag:removed", TagRemoved(tag));
      }
    }

    /** `getAttributesByType(type)` */
    function GetAttributesByType(kind: Kind): seq<Attribute>
      reads this, attributes.entries.Values
      requires Valid()
    {
      OfKind(GetAllAttributes(), kind)
    }

    /** `getRequiredAttributes()` */
    function GetRequiredAttributes(): seq<Attribute>
      reads this, attributes.entries.Values
      requires Valid()
    {
      RequiredOf(GetAllAttributes())
    }

    /** `getEmptyAttributes()` */
    function GetEmptyAttributes(): seq<Attribute>
      reads this, attributes.entries.Values
      requires Valid()
    {
      EmptyOf(GetAllAttributes())
    }

    /** The serialized attributes of `names`, in that order. */
    function Records(names: seq<string>): (r: seq<(string, AttributeData)>)
      reads this, attributes.entries.Values
      requires forall n :: n in names ==> n in attributes.entries
      ensures |r| == |names|
      ensures forall i :: 0 <= i < |names| ==> r[i] == (names[i], attributes.entries[names[i]].Serialize())
    {
      if names == [] then [] else [(names[0], attributes.entries[names[0]].Serialize())] + Records(names[1..])
    }

    /**
     * `serialize()`. The attributes go into a plain object, so they come out
     * in property order: names that are array indices first, ascending.
     */
    function Serialize(): (d: EntityData)
      reads this, attributes.entries.Values
      requires Valid()
      ensures d.attributes.Some? && KeysOf(d.attributes.value) == PropertyKeyOrder(attributes.keys)
      ensures d.id == id && d.entityType == entityType && d.metadata == Some(metadata)
    {
      var names := PropertyKeyOrder(attributes.keys);
      assert forall n :: n in names ==> n in multiset(attributes.keys);
      EntityData(id, entityType, Some(Records(names)), createdAt, updatedAt, Some(schemaVersion), Some(metadata))
    }

    /**
     * `Entity.deserialize(data)`. An empty id is replaced by a generated one,
     * a missing (or zero) schema version by 1, missing metadata by empty metadata.
     */
    static method Deserialize(data: EntityData, clock: nat, random: string) returns (e: Entity)
      requires data.attributes.Some? ==> Distinct(KeysOf(data.attributes.value))
      ensures fresh(e) && e.Valid()
      ensures e.id == (if data.id != "" then data.id else GenerateId("", clock, random)) && e.entityType == data.entityType
      ensures e.createdAt == data.createdAt && e.updatedAt == data.updatedAt
      ensures e.schemaVersion == (if data.schemaVersion.Some? && data.schemaVersion.value != 0 then data.schemaVersion.value else 1)
      ensures e.metadata == (if data.metadata.Some? then data.metadata.value else EntityMetadata("", [], ""))
      ensures e.attributes.keys == (if data.attributes.Some? then KeysOf(data.attributes.value) else [])
      ensures data.attributes.Some? ==> forall i :: 0 <= i < |data.attributes.value| ==>
        var (name, record) := data.attributes.value[i];
        name in e.attributes.entries && Restored(e.attributes.entries[name], record, clock)
      ensures forall n :: n in e.attributes.entries ==> fresh(e.attributes.entries[n])
      ensures e.listeners == map[] && e.emitted == []
    {
      var attributes := EmptyMap();
      if data.attributes.Some? {
        attributes := BuildAttributes(data.attributes.value, clock);
      }
      e := new Entity(data.entityType, data.id, clock, random);
      e.Restore(data.createdAt, data.updatedAt,
                if data.schemaVersion.Some? && data.schemaVersion.value != 0 then data.schemaVersion.value else 1,
                if data.metadata.Some? then data.metadata.value else EntityMetadata("", [], ""), attributes);
    }

    /** The field assignments of `deserialize` after the constructor. */
    method Restore(createdAt: int, updatedAt: int, schemaVersion: int, metadata: EntityMetadata, attributes: OMap<string, Attribute>)
      requires Valid() && attributes.Valid()
      modifies this
      ensures Valid() && Header() == (old(id), old(entityType), createdAt, schemaVersion, old(version))
      ensures this.updatedAt == updatedAt && this.metadata == metadata && this.attributes == attributes
      ensures listeners == old(listeners) && emitted == old(emitted)
    {
      this.createdAt := createdAt;
      this.updatedAt := updatedAt;
      this.schemaVersion := schemaVersion;
      this.metadata := metadata;
      this.attributes := attributes;
    }

    /**
     * `clone(newId)`: a serialize/deserialize round trip under a new id (the
     * given one, or a generated one when it is empty), created and updated now.
     */
    method Clone(newId: string, clock: nat, random: string) returns (e: Entity)
      requires Valid()
      ensures fresh(e) && e.Valid()
      ensures e.id == (if newId != "" then newId else GenerateId(entityType, clock, random))
      ensures e.entityType == entityType && e.createdAt == clock && e.updatedAt == clock
      ensures e.schemaVersion == (if schemaVersion != 0 then schemaVersion else 1) && e.metadata == metadata
      ensures e.attributes.keys == PropertyKeyOrder(attributes.keys)
      ensures forall n :: n in attributes.entries ==> n in e.attributes.entries && Copied(e.attributes.entries[n], attributes.entries[n])
      ensures forall n :: n in e.attributes.entries ==> fresh(e.attributes.entries[n])
      ensures e.listeners == map[] && e.emitted == []
    {
      var data := Serialize();
      var cloneId := if newId != "" then newId else GenerateId(entityType, clock, random);
      data := data.(id := cloneId, createdAt := clock, updatedAt := clock);
      var names := PropertyKeyOrder(attributes.keys);
      DistinctPermutation(attributes.keys, names);
      SameMembers(attributes.keys, names);
      ghost var records := Records(names);
      assert data.attributes == Some(records);
      e := Deserialize(data, clock, random);
      assert records == Records(names);
      RecordsCopied(names, records, e.attributes.entries, clock);
    }

    /** Restoring the records of some attributes' names copies each of those attributes. */
    lemma RecordsCopied(names: seq<string>, records: seq<(string, AttributeData)>, restored: map<string, Attribute>, clock: int)
      requires forall n :: n in names ==> n in attributes.entries
      requires records == Records(names)
      requires forall i :: 0 <= i < |records| ==>
        var (name, record) := records[i];
        name in restored && Restored(restored[name], record, clock)
      ensures forall n :: n in names ==> n in restored && Copied(restored[n], attributes.entries[n])
    {
      forall n | n in names
        ensures n in restored && Copied(restored[n], attributes.entries[n])
      {
        var i :| 0 <= i < |names| && names[i] == n;
        MergeOfCopy(attributes.entries[n].metadata, clock);
        assert records[i] == (n, attributes.entries[n].Serialize());
      }
    }

    /**
     * `compare(other)`: the names only `other` has, the names only this entity
     * has, and the shared names whose display values stringify differently.
     */
    function Compare(host: Host, other: Entity): (d: Differences)
      reads this, other, attributes.entries.Values, other.attributes.entries.Values
      requires Valid() && other.Valid()
      ensures forall n :: n in d.added <==> other.HasAttribute(n) && !HasAttribute(n)
      ensures forall n :: n in d.removed <==> HasAttribute(n) && !other.HasAttribute(n)
      ensures forall n :: n in DiffNames(d.changed) <==>
        HasAttribute(n) && other.HasAttribute(n)
        && !JsonEqual(host, attributes.entries[n].GetValue(host, false), other.attributes.entries[n].GetValue(host, false))
      ensures forall c :: c in d.changed ==>
        HasAttribute(c.name) && other.HasAttribute(c.name)
        && c.oldValue == attributes.entries[c.name].GetValue(host, false)
        && c.newValue == other.attributes.entries[c.name].GetValue(host, false)
    {
      Differences(
        Missing(other.attributes.keys, attributes.entries),
        Missing(attributes.keys, other.attributes.entries),
        Changed(host, attributes.keys, attributes.entries, other.attributes.entries))
    }

    /**
     * Between two states of the `applyChanges` passes: the header, metadata and
     * listeners are as they were, and every attribute is an old one or a new one.
     */
    twostate predicate Grown()
      reads this
    {
      Frame() == old(Frame()) && forall o :: o in attributes.entries.Values ==> o in old(attributes.entries.Values) || fresh(o)
    }

    /** Between two states of the `overwriteExisting` pass: the same attributes under the same names, and the same header, metadata and listeners. */
    twostate predicate Same()
      reads this
    {
      attributes == old(attributes) && Frame() == old(Frame())
    }

    /** The header, metadata and listeners: what the passes of `applyChanges` leave alone. */
    function Frame(): ((string, string, int, int, Option<string>), EntityMetadata, map<string, seq<ListenerId>>)
      reads this
    {
      (Header(), metadata, listeners)
    }

    /**
     * The attributes of this entity are in the states `states`, those of
     * theirs in `theirStates`, and `owner` shows that no attribute object is
     * shared between names.
     */
    ghost predicate Tracks(theirs: OMap<string, Attribute>, states: map<string, AttributeState>, theirStates: map<string, AttributeState>,
                           owner: map<Attribute, string>)
      reads this, attributes.entries.Values, theirs.entries.Values
    {
      HasStates(attributes, states) && HasStates(theirs, theirStates) && Owns(owner, attributes.entries, theirs.entries)
    }

    /**
     * The `addNew` pass of `applyChanges`, when `addNew` is set: the names of
     * theirs this entity lacks are added at the end, in their order, and (when
     * `owned`) the attributes end in the states `Added` gives.
     */
    method AddPass(host: Host, theirs: OMap<string, Attribute>, addNew: bool, clock: int, ghost owned: bool, ghost mine: map<string, AttributeState>,
                   ghost theirStates: map<string, AttributeState>, ghost owner: map<Attribute, string>)
      returns (ghost added: map<string, AttributeState>, ghost owner': map<Attribute, string>)
      requires Valid() && theirs.Valid() && (owned ==> Tracks(theirs, mine, theirStates, owner))
      modifies this
      ensures Valid() && attributes.keys == if addNew then AddMissing(old(attributes.keys), theirs.keys) else old(attributes.keys)
      ensures added == if addNew then Added(mine, theirStates, theirs.keys, AdoptAt(host, clock)) else mine
      ensures owned ==> Tracks(theirs, added, theirStates, owner')
      ensures Grown()
    {
      added, owner' := mine, owner;
      if addNew {
        assert theirs.keys[..0] == [];
        owner' := AddNewFrom(host, theirs, clock, owned, mine, theirStates, AdoptAt(host, clock), owner);
        assert theirs.keys[..|theirs.keys|] == theirs.keys;
        added := Added(mine, theirStates, theirs.keys, AdoptAt(host, clock));
      }
    }

    /** The `addNew` pass has gone through the first `i` names of theirs. */
    ghost predicate Adding(theirs: OMap<string, Attribute>, i: nat, keys: seq<string>, mine: map<string, AttributeState>,
                           theirStates: map<string, AttributeState>, adopt: (string, AttributeState) -> AttributeState,
                           owned: bool, owner: map<Attribute, string>)
      reads this, attributes.entries.Values, theirs.entries.Values
    {
      && Valid() && theirs.Valid() && i <= |theirs.keys|
      && attributes.keys == AddMissing(keys, theirs.keys[..i])
      && (owned ==> Tracks(theirs, Added(mine, theirStates, theirs.keys[..i], adopt), theirStates, owner))
    }

    /** The `addNew` pass: `setAttribute` for each name of `theirs` this entity lacks, with its value, kind and metadata. */
    method AddNewFrom(host: Host, theirs: OMap<string, Attribute>, clock: int, ghost owned: bool, ghost mine: map<string, AttributeState>,
                      ghost theirStates: map<string, AttributeState>, ghost adopt: (string, AttributeState) -> AttributeState,
                      ghost owner: map<Attribute, string>) returns (ghost owner': map<Attribute, string>)
      requires Adding(theirs, 0, attributes.keys, mine, theirStates, adopt, owned, owner) && adopt == AdoptAt(host, clock)
      modifies this
      ensures Adding(theirs, |theirs.keys|, old(attributes.keys), mine, theirStates, adopt, owned, owner') && Grown()
    {
      owner' := owner;
      var i := 0;
      while i < |theirs.keys|
        invariant Adding(theirs, i, old(attributes.keys), mine, theirStates, adopt, owned, owner') && Grown()
      {
        owner' := AddStep(host, theirs, i, clock, old(attributes.keys), mine, theirStates, adopt, owned, owner');
        i := i + 1;
      }
    }

    /** One round of the `addNew` pass: the name of theirs at `i` is adopted unless this entity has it. */
    method AddStep(host: Host, theirs: OMap<string, Attribute>, i: nat, clock: int, ghost keys: seq<string>, ghost mine: map<string, AttributeState>,
                   ghost theirStates: map<string, AttributeState>, ghost adopt: (string, AttributeState) -> AttributeState,
                   ghost owned: bool, ghost owner: map<Attribute, string>) returns (ghost owner': map<Attribute, string>)
      requires Adding(theirs, i, keys, mine, theirStates, adopt, owned, owner) && i < |theirs.keys| && adopt == AdoptAt(host, clock)
      modifies this
      ensures Adding(theirs, i + 1, keys, mine, theirStates, adopt, owned, owner') && Grown()
    {
      var name := theirs.keys[i];
      AddMissingPrefix(keys, theirs.keys, i);
      AddedPrefix(mine, theirStates, theirs.keys, i, adopt);
      owner' := owner;
      if !attributes.Has(name) {
        owner' := AdoptAttribute(host, theirs, name, clock, Added(mine, theirStates, theirs.keys[..i], adopt),
                                 if owned then theirStates[name] else StateOf(theirs.entries[name]), theirStates, adopt, owned, owner);
      }
    }

    /** One step of the `addNew` pass: a name this entity lacks becomes a new attribute made from theirs, in state `source`. */
    method AdoptAttribute(host: Host, theirs: OMap<string, Attribute>, name: string, clock: int, ghost states: map<string, AttributeState>,
                          ghost source: AttributeState, ghost theirStates: map<string, AttributeState>,
                          ghost adopt: (string, AttributeState) -> AttributeState, ghost owned: bool,
                          ghost owner: map<Attribute, string>) returns (ghost owner': map<Attribute, string>)
      requires Valid() && name in theirs.entries && !attributes.Has(name) && StateOf(theirs.entries[name]) == source
      requires adopt == AdoptAt(host, clock) && (owned ==> Tracks(theirs, states, theirStates, owner))
      modifies this
      ensures Valid() && attributes.keys == old(attributes.keys) + [name]
      ensures owned ==> Tracks(theirs, states[name := adopt(name, source)], theirStates, owner')
      ensures Grown()
    {
      ghost var before := attributes;
      var a := NewAttribute(host, name, theirs.entries[name], clock, adopt);
      owner' := owner[a := name];
      if owned {
        PutTracked(before, attributes, states, name, a, owner, theirs.entries);
      }
    }

    /** `setAttribute` for a name this entity lacks, with the value, kind and metadata of `source`. */
    method NewAttribute(host: Host, name: string, source: Attribute, clock: int, ghost adopt: (string, AttributeState) -> AttributeState)
      returns (a: Attribute)
      requires Valid() && !attributes.Has(name) && adopt == AdoptAt(host, clock)
      modifies this
      ensures Valid() && fresh(a) && attributes == old(attributes).Put(name, a)
      ensures StateOf(a) == adopt(name, StateOf(source))
      ensures Header() == old(Header()) && metadata == old(metadata) && listeners == old(listeners)
    {
      var _ := SetAttribute(host, name, source.value, source.kind, AsInput(source.metadata), clock);
      a := attributes.entries[name];
    }

    /**
     * The `overwriteExisting` pass of `applyChanges`, when `overwriteExisting`
     * is set: no name is added or dropped, and (when `owned`) the attributes
     * end in the states `Overwritten` gives.
     */
    method OverwritePass(host: Host, theirs: OMap<string, Attribute>, overwriteExisting: bool, clock: int, ghost owned: bool,
                         ghost added: map<string, AttributeState>, ghost theirStates: map<string, AttributeState>,
                         ghost owner: map<Attribute, string>) returns (ghost written: map<string, AttributeState>)
      requires Valid() && theirs.Valid() && (owned ==> Tracks(theirs, added, theirStates, owner))
      modifies this, attributes.entries.Values
      ensures Valid() && Same()
      ensures written == if overwriteExisting then Overwritten(added, theirStates, theirs.keys, WriteAt(host, clock)) else added
      ensures owned ==> HasStates(attributes, written)
    {
      written := added;
      if overwriteExisting {
        assert theirs.keys[..0] == [];
        OverwriteFrom(host, theirs, clock, owned, added, theirStates, WriteAt(host, clock), owner);
        assert theirs.keys[..|theirs.keys|] == theirs.keys;
        written := Overwritten(added, theirStates, theirs.keys, WriteAt(host, clock));
      }
    }

    /**
     * The `overwriteExisting` pass has gone through the first `i` names of
     * theirs; the attributes of theirs still to be read are in their states
     * from before the pass.
     */
    ghost predicate Writing(theirs: OMap<string, Attribute>, i: nat, added: map<string, AttributeState>, theirStates: map<string, AttributeState>,
                            write: (AttributeState, Value) -> AttributeState, owned: bool, owner: map<Attribute, string>)
      reads this, attributes.entries.Values, theirs.entries.Values
    {
      && Valid() && theirs.Valid() && i <= |theirs.keys|
      && (owned ==>
        && Owns(owner, attributes.entries, theirs.entries) && theirStates.Keys == theirs.entries.Keys
        && Unread(theirs.entries, theirs.keys[i..], theirStates)
        && HasStates(attributes, Overwritten(added, theirStates, theirs.keys[..i], write)))
    }

    /** The `overwriteExisting` pass: `setAttributeValue` for each name of `theirs` this entity has. */
    method OverwriteFrom(host: Host, theirs: OMap<string, Attribute>, clock: int, ghost owned: bool, ghost added: map<string, AttributeState>,
                         ghost theirStates: map<string, AttributeState>, ghost write: (AttributeState, Value) -> AttributeState,
                         ghost owner: map<Attribute, string>)
      requires Writing(theirs, 0, added, theirStates, write, owned, owner) && write == WriteAt(host, clock)
      modifies this, attributes.entries.Values
      ensures Writing(theirs, |theirs.keys|, added, theirStates, write, owned, owner) && Same()
    {
      var i := 0;
      while i < |theirs.keys|
        invariant Writing(theirs, i, added, theirStates, write, owned, owner) && Same()
      {
        OverwriteStep(host, theirs, i, clock, owned, added, theirStates, write, owner);
        i := i + 1;
      }
    }

    /** One round of the `overwriteExisting` pass: the name of theirs at `i` is written with their value if this entity has it. */
    method OverwriteStep(host: Host, theirs: OMap<string, Attribute>, i: nat, clock: int, ghost owned: bool, ghost added: map<string, AttributeState>,
                         ghost theirStates: map<string, AttributeState>, ghost write: (AttributeState, Value) -> AttributeState,
                         ghost owner: map<Attribute, string>)
      requires Writing(theirs, i, added, theirStates, write, owned, owner) && i < |theirs.keys| && write == WriteAt(host, clock)
      modifies this, attributes.entries.Values
      ensures Writing(theirs, i + 1, added, theirStates, write, owned, owner) && Same()
    {
      var name := theirs.keys[i];
      OverwrittenPrefix(added, theirStates, theirs.keys, i, write);
      UnreadTail(theirs, i, theirStates);
      if attributes.Has(name) {
        WriteAttribute(host, name, theirs.entries[name].value, clock, write, owned,
                       Overwritten(added, theirStates, theirs.keys[..i], write), owner, theirs.entries, theirs.keys[i + 1..], theirStates);
      }
    }

    /** One step of the `overwriteExisting` pass: `setAttributeValue` on a name this entity has, which touches that attribute alone. */
    method WriteAttribute(host: Host, name: string, value: Value, clock: int, ghost write: (AttributeState, Value) -> AttributeState,
                          ghost owned: bool, ghost states: map<string, AttributeState>, ghost owner: map<Attribute, string>,
                          ghost theirs: map<string, Attribute>, ghost unread: seq<string>, ghost theirStates: map<string, AttributeState>)
      requires Valid() && attributes.Has(name) && write == WriteAt(host, clock)
      requires owned ==> Owns(owner, attributes.entries, theirs) && HasStates(attributes, states)
      requires owned ==> Unread(theirs, unread, theirStates) && name !in unread
      modifies this, attributes.entries[name]
      ensures Valid() && Same()
      ensures owned ==> HasStates(attributes, states[name := write(states[name], value)]) && Unread(theirs, unread, theirStates)
    {
      ghost var a := attributes.entries[name];
      if owned {
        OwnsApart(owner, attributes.entries, theirs, name);
        UnreadApart(owner, attributes.entries, theirs, name, unread, theirStates);
      }
      WriteUnread(host, name, value, clock, owned, theirs, unread, theirStates);
      if owned {
        assert StateOf(a) == write(states[name], value);
        assert forall n :: n in attributes.entries && n != name ==> StateOf(attributes.entries[n]) == states[n];
        WriteTracked(attributes, states, name, write(states[name], value));
      }
    }

    /** `setAttributeValue` on a name this entity has, which leaves the unread attributes of theirs as they were. */
    method WriteUnread(host: Host, name: string, value: Value, clock: int, ghost owned: bool, ghost theirs: map<string, Attribute>,
                       ghost unread: seq<string>, ghost theirStates: map<string, AttributeState>)
      requires Valid() && attributes.Has(name)
      requires owned ==> Unread(theirs, unread, theirStates) && forall k :: k in unread ==> theirs[k] != attributes.entries[name]
      modifies this, attributes.entries[name]
      ensures Valid() && Same()
      ensures StateOf(attributes.entries[name]) == Written(host, old(StateOf(attributes.entries[name])), value, clock).0
      ensures owned ==> Unread(theirs, unread, theirStates)
    {
      WriteValue(host, name, value, clock);
    }

    /** `setAttributeValue` on a name this entity has: that attribute is written, and nothing else of the entity changes. */
    method WriteValue(host: Host, name: string, value: Value, clock: int)
      requires Valid() && attributes.Has(name)
      modifies this, attributes.entries[name]
      ensures Valid() && Same()
      ensures StateOf(attributes.entries[name]) == Written(host, old(StateOf(attributes.entries[name])), value, clock).0
    {
      var _ := SetAttributeValue(host, name, value, clock);
    }

    /** The `removeDeleted` pass: `removeAttribute` for each name of this entity that `theirs` lacks. */
    method RemoveAbsent(theirs: map<string, Attribute>, clock: int)
      requires Valid()
      modifies this
      ensures Valid() && attributes.keys == KeptIn(old(attributes.keys), theirs)
      ensures forall n :: n in attributes.entries ==> n in old(attributes.entries) && attributes.entries[n] == old(attributes.entries[n])
      ensures Header() == old(Header()) && metadata == old(metadata) && listeners == old(listeners)
    {
      var names := attributes.keys;
      var i := 0;
      while i < |names|
        invariant 0 <= i <= |names| && Distinct(names)
        invariant Valid() && attributes.keys == KeptIn(names[..i], theirs) + names[i..]
        invariant forall n :: n in attributes.entries ==> n in old(attributes.entries) && attributes.entries[n] == old(attributes.entries[n])
        invariant Header() == old(Header()) && metadata == old(metadata) && listeners == old(listeners)
      {
        RemoveIfAbsent(names, i, theirs, clock);
        i := i + 1;
      }
      assert names[..i] == names;
    }

    /** The `removeDeleted` pass of `applyChanges`, when `removeDeleted` is set; the attributes that stay keep their states. */
    method RemovePass(theirs: map<string, Attribute>, removeDeleted: bool, clock: int, ghost owned: bool, ghost written: map<string, AttributeState>)
      returns (ghost kept: map<string, AttributeState>)
      requires Valid() && (owned ==> HasStates(attributes, written))
      modifies this
      ensures Valid() && attributes.keys == if removeDeleted then KeptIn(old(attributes.keys), theirs) else old(attributes.keys)
      ensures kept == if removeDeleted then Kept(written, theirs.Keys) else written
      ensures owned ==> HasStates(attributes, kept)
      ensures Header() == old(Header()) && metadata == old(metadata) && listeners == old(listeners)
    {
      kept := written;
      if removeDeleted {
        ghost var before := attributes;
        RemoveAbsent(theirs, clock);
        kept := Kept(written, theirs.Keys);
        if owned {
          KeptStates(before, attributes, written, theirs.Keys);
        }
      }
    }

    /** The end of `applyChanges`: the `removeDeleted` pass, then `updateMetadata`, which leaves the attributes as they are. */
    method FinishMerge(theirs: map<string, Attribute>, removeDeleted: bool, patch: MetadataPatch, clock: int, ghost owned: bool,
                       ghost written: map<string, AttributeState>) returns (ghost kept: map<string, AttributeState>)
      requires Valid() && (owned ==> HasStates(attributes, written))
      modifies this
      ensures Valid() && attributes.keys == if removeDeleted then KeptIn(old(attributes.keys), theirs) else old(attributes.keys)
      ensures kept == if removeDeleted then Kept(written, theirs.Keys) else written
      ensures owned ==> HasStates(attributes, kept)
      ensures metadata == Patched(old(metadata), patch) && updatedAt == clock
      ensures emitted != [] && emitted[|emitted| - 1] == Announcement("metadata:updated", MetadataUpdated(metadata))
      ensures Header() == old(Header()) && listeners == old(listeners)
    {
      kept := RemovePass(theirs, removeDeleted, clock, owned, written);
      UpdateMetadata(patch, clock);
    }

    /** One step of the `removeDeleted` pass: the name at `i` goes unless `theirs` has it. */
    method RemoveIfAbsent(names: seq<string>, i: nat, theirs: map<string, Attribute>, clock: int)
      requires i < |names| && Distinct(names)
      requires Valid() && attributes.keys == KeptIn(names[..i], theirs) + names[i..]
      modifies this
      ensures Valid() && attributes.keys == KeptIn(names[..i + 1], theirs) + names[i + 1..]
      ensures forall n :: n in attributes.entries ==> n in old(attributes.entries) && attributes.entries[n] == old(attributes.entries[n])
      ensures Header() == old(Header()) && metadata == old(metadata) && listeners == old(listeners)
    {
      var name := names[i];
      KeptStep(names, theirs, i);
      if name !in theirs {
        WithoutSplit(KeptIn(names[..i], theirs), name, names[i + 1..]);
        var _ := RemoveAttribute(name, clock);
      }
    }

    /**
     * `applyChanges(other, options)`: the three passes the options switch on,
     * then `updateMetadata(other.metadata)`, which leaves other's metadata in
     * place and announces last. When no attribute object is shared between
     * names (which holds of entities built by their own operations, and of an
     * entity applied to itself), each attribute ends in the state
     * `MergedStates` gives.
     */
    method ApplyChanges(host: Host, other: Entity, overwriteExisting: bool, addNew: bool, removeDeleted: bool, clock: int)
      requires Valid() && other.Valid()
      modifies this, attributes.entries.Values
      ensures Valid()
      ensures attributes.keys == MergedNames(old(attributes.keys), old(other.attributes.keys), old(other.attributes.entries), addNew, removeDeleted)
      ensures Unshared(old(attributes.entries), old(other.attributes.entries)) ==>
        HasStates(attributes, MergedStates(host, old(States(attributes)), old(States(other.attributes)), old(other.attributes.keys),
                                           overwriteExisting, addNew, removeDeleted, clock))
      ensures metadata == old(other.metadata) && updatedAt == clock
      ensures emitted != [] && emitted[|emitted| - 1] == Announcement("metadata:updated", MetadataUpdated(metadata))
      ensures Header() == old(Header()) && listeners == old(listeners)
    {
      var theirs := other.attributes;
      var theirMetadata := other.metadata;
      ghost var mine0, theirs0 := States(attributes), States(theirs);
      ghost var owned := Unshared(attributes.entries, theirs.entries);
      ghost var owner: map<Attribute, string> := map[];
      if owned {
        owner := OwnerOf(attributes.entries, theirs.entries);
      }
      ghost var added;
      added, owner := AddPass(host, theirs, addNew, clock, owned, mine0, theirs0, owner);
      ghost var written := OverwritePass(host, theirs, overwriteExisting, clock, owned, added, theirs0, owner);
      ghost var kept := FinishMerge(theirs.entries, removeDeleted, AsPatch(theirMetadata), clock, owned, written);
      MergedByPasses(host, mine0, theirs0, theirs.keys, overwriteExisting, addNew, removeDeleted, clock, added, written, kept);
    }
  }

  /** An attribute rebuilt by `Attribute.deserialize` from `record`. */
  predicate Restored(a: Attribute, record: AttributeData, clock: int)
    reads a
  {
    a.name == record.name && a.kind == record.kind
    && a.value == (if record.value.Undefined? then Null else record.value)
    && a.metadata == MergeMetadata(record.metadata, clock)
  }

  /** Every record of `loaded` is stored under its name and restored from it. */
  ghost predicate AllRestored(m: OMap<string, Attribute>, loaded: seq<(string, AttributeData)>, clock: int)
    reads m.entries.Values
  {
    forall j :: 0 <= j < |loaded| ==> loaded[j].0 in m.entries && Restored(m.entries[loaded[j].0], loaded[j].1, clock)
  }

  /** The next record's name is not among the names loaded before it. */
  lemma NextKeyAbsent(records: seq<(string, AttributeData)>, i: nat)
    requires i < |records| && Distinct(KeysOf(records))
    ensures records[i].0 !in KeysOf(records[..i])
    ensures KeysOf(records[..i + 1]) == KeysOf(records[..i]) + [records[i].0]
  {
    var all, before := KeysOf(records), KeysOf(records[..i]);
    forall j | 0 <= j < i
      ensures before[j] != records[i].0
    {
      assert before[j] == records[j].0 == all[j];
      assert all[i] == records[i].0;
    }
    KeysOfSnoc(records, i);
  }

  /** Storing the next record's restored attribute under its new name extends the restored prefix by that record. */
  lemma AllRestoredPut(m: OMap<string, Attribute>, records: seq<(string, AttributeData)>, i: nat, a: Attribute, clock: int)
    requires i < |records| && m.Valid() && records[i].0 !in m.entries
    requires AllRestored(m, records[..i], clock) && Restored(a, records[i].1, clock)
    ensures AllRestored(m.Put(records[i].0, a), records[..i + 1], clock)
  {
    var r := m.Put(records[i].0, a);
    var loaded := records[..i + 1];
    forall j | 0 <= j < |loaded|
      ensures loaded[j].0 in r.entries && Restored(r.entries[loaded[j].0], loaded[j].1, clock)
    {
      assert loaded[j] == records[j];
      if j < i {
        assert records[..i][j] == records[j];
      }
    }
  }

  /** One step of `Entity.deserialize`: `attributes.set(name, Attribute.deserialize(record))` for the next record. */
  method LoadRecord(m: OMap<string, Attribute>, records: seq<(string, AttributeData)>, i: nat, clock: int) returns (r: OMap<string, Attribute>)
    requires i < |records| && Distinct(KeysOf(records))
    requires m.Valid() && m.keys == KeysOf(records[..i]) && AllRestored(m, records[..i], clock)
    ensures r.Valid() && r.keys == KeysOf(records[..i + 1]) && AllRestored(r, records[..i + 1], clock)
    ensures forall n :: n in r.entries ==> n in m.entries || fresh(r.entries[n])
    ensures forall n :: n in m.entries ==> n in r.entries && r.entries[n] == m.entries[n]
  {
    NextKeyAbsent(records, i);
    var attribute := Attribute.Deserialize(records[i].1, clock);
    AllRestoredPut(m, records, i, attribute, clock);
    r := m.Put(records[i].0, attribute);
  }

  /** The attribute map `Entity.deserialize` builds from the serialised records, in their order. */
  method BuildAttributes(records: seq<(string, AttributeData)>, clock: int) returns (m: OMap<string, Attribute>)
    requires Distinct(KeysOf(records))
    ensures m.Valid() && m.keys == KeysOf(records)
    ensures forall i :: 0 <= i < |records| ==> records[i].0 in m.entries && Restored(m.entries[records[i].0], records[i].1, clock)
    ensures forall n :: n in m.entries ==> fresh(m.entries[n])
  {
    m := EmptyMap();
    var i := 0;
    while i < |records|
      invariant 0 <= i <= |records|
      invariant m.Valid() && m.keys == KeysOf(records[..i]) && AllRestored(m, records[..i], clock)
      invariant forall n :: n in m.entries ==> fresh(m.entries[n])
    {
      m := LoadRecord(m, records, i, clock);
      i := i + 1;
    }
    assert records[..i] == records;
  }

  /** An entity compared with itself shows no difference. */
  lemma CompareWithItself(host: Host, e: Entity)
    requires e.Valid()
    ensures e.Compare(host, e) == Differences([], [], [])
  {
    MissingNone(e.attributes.keys, e.attributes.entries);
    ChangedNone(host, e.attributes.keys, e.attributes.entries);
  }

  lemma {:induction false} MissingNone<V>(names: seq<string>, m: map<string, V>)
    requires forall n :: n in names ==> n in m
    ensures Missing(names, m) == []
  {
    if names != [] {
      MissingNone(names[1..], m);
    }
  }

  lemma {:induction false} ChangedNone(host: Host, names: seq<string>, mine: map<string, Attribute>)
    ensures Changed(host, names, mine, mine) == []
  {
    if names != [] {
      ChangedNone(host, names[1..], mine);
    }
  }

  /** An attribute that `clone` rebuilt from `a`: same name, kind and metadata, and the value with undefined read as null. */
  predicate Copied(copy: Attribute, a: Attribute)
    reads copy, a
  {
    copy.name == a.name && copy.kind == a.kind && copy.metadata == a.metadata
    && copy.value == (if a.value.Undefined? then Null else a.value)
  }

  /**
   * One step of the `removeDeleted` pass over distinct `names`: the name at
   * `i` is neither among the kept names before it nor after it.
   */
  lemma KeptStep(names: seq<string>, theirs: map<string, Attribute>, i: nat)
    requires i < |names| && Distinct(names)
    ensures names[i] !in KeptIn(names[..i], theirs) && names[i] !in names[i + 1..]
    ensures KeptIn(names[..i], theirs) + names[i..] == KeptIn(names[..i], theirs) + [names[i]] + names[i + 1..]
    ensures names[i] in theirs ==> KeptIn(names[..i + 1], theirs) + names[i + 1..] == KeptIn(names[..i], theirs) + [names[i]] + names[i + 1..]
    ensures names[i] !in theirs ==> KeptIn(names[..i + 1], theirs) + names[i + 1..] == KeptIn(names[..i], theirs) + names[i + 1..]
  {
    assert names[..i + 1][..i] == names[..i];
    assert names[i..] == [names[i]] + names[i + 1..];
  }

  /** `tags.indexOf(tag)`, `None` for -1. */
  function IndexOfTag(tags: seq<string>, tag: string): (r: Option<nat>)
    ensures r.None? <==> tag !in tags
    ensures r.Some? ==> r.value < |tags| && tags[r.value] == tag && tag !in tags[..r.value]
  {
    if tags == [] then None
    else if tags[0] == tag then Some(0)
    else
      var rest := IndexOfTag(tags[1..], tag);
      if rest.Some? then
        assert tags[..rest.value + 1] == [tags[0]] + tags[1..][..rest.value];
        Some(rest.value + 1)
      else None
  }

  /** Splicing out the first occurrence is `RemoveFirst`. */
  lemma {:induction false} SpliceIsRemoveFirst(tags: seq<string>, tag: string, i: nat)
    requires i < |tags| && tags[i] == tag && tag !in tags[..i]
    ensures tags[..i] + tags[i + 1..] == RemoveFirst(tags, tag)
  {
    if i == 0 {
      assert tags[..i] + tags[i + 1..] == tags[1..];
    } else {
      var rest := tags[1..];
      SpliceTail(tags, tag, i);
      SpliceIsRemoveFirst(rest, tag, i - 1);
      RemoveFirstTail(tags, tag);
    }
  }

  /** Splicing at `i > 0` keeps the head and splices the tail at `i - 1`, where `tag` does not occur earlier either. */
  lemma SpliceTail(tags: seq<string>, tag: string, i: nat)
    requires 0 < i < |tags| && tag !in tags[..i]
    ensures tags[0] != tag && tag !in tags[1..][..i - 1]
    ensures tags[..i] + tags[i + 1..] == [tags[0]] + (tags[1..][..i - 1] + tags[1..][i..])
  {
    var rest := tags[1..];
    assert tags[0] == tags[..i][0];
    assert rest[..i - 1] == tags[1..i];
    assert tags[..i] == [tags[0]] + rest[..i - 1];
    assert tags[i + 1..] == rest[i..];
    AppendAssociates([tags[0]], rest[..i - 1], rest[i..]);
  }

  /** `RemoveFirst` keeps a head that differs from the tag. */
  lemma RemoveFirstTail(tags: seq<string>, tag: string)
    requires tags != [] && tags[0] != tag
    ensures RemoveFirst(tags, tag) == [tags[0]] + RemoveFirst(tags[1..], tag)
  {
  }

  /** The body of `Entity.validate` over the attribute list: both loops, then the verdict. */
  method ValidateAll(host: Host, all: seq<Attribute>) returns (r: Validation)
    ensures r.errors == EntityErrors(host, all)
    ensures r.isValid <==> r.errors == []
  {
    var errors := CollectAttributeErrors(host, all);
    var missing := CollectMissingRequired(RequiredOf(all));
    errors := errors + missing;
    r := Validation(|errors| == 0, errors);
  }

  /** The first loop of `Entity.validate`: each attribute's `validate(attribute.value)`, errors kept only when invalid. */
  method CollectAttributeErrors(host: Host, all: seq<Attribute>) returns (errors: seq<string>)
    ensures errors == AttributeErrors(host, all)
  {
    errors := [];
    var i := 0;
    while i < |all|
      invariant 0 <= i <= |all|
      invariant errors == AttributeErrors(host, all[..i])
    {
      var validation := all[i].Validate(host, all[i].value);
      if !validation.isValid {
        errors := errors + validation.errors;
      }
      assert all[..i + 1][..i] == all[..i];
      i := i + 1;
    }
    assert all[..i] == all;
  }

  /** The second loop of `Entity.validate`: an "is required" message for each empty attribute among the required ones. */
  method CollectMissingRequired(required: seq<Attribute>) returns (errors: seq<string>)
    ensures errors == BlankMessages(required)
  {
    errors := [];
    var i := 0;
    while i < |required|
      invariant 0 <= i <= |required|
      invariant errors == BlankMessages(required[..i])
    {
      if required[i].IsEmpty() {
        errors := errors + [required[i].name + " è obbligatorio"];
      }
      assert required[..i + 1][..i] == required[..i];
      i := i + 1;
    }
    assert required[..i] == required;
  }

  /** An attribute's own errors appear among the errors of every list holding it. */
  lemma {:induction false} AttributeErrorsContain(host: Host, attrs: seq<Attribute>, i: nat, m: string)
    requires i < |attrs|
    requires var a := attrs[i]; m in ValidationErrors(host, a.name, a.metadata, a.kind, a.validators, a.value)
    ensures m in AttributeErrors(host, attrs)
    decreases |attrs|
  {
    if i < |attrs| - 1 {
      AttributeErrorsContain(host, attrs[..|attrs| - 1], i, m);
    }
  }

  /** An empty attribute's "is required" message appears among the blank messages of every list holding it. */
  lemma {:induction false} BlankMessagesContain(attrs: seq<Attribute>, a: Attribute)
    requires a in attrs && IsBlank(a.value)
    ensures a.name + " è obbligatorio" in BlankMessages(attrs)
    decreases |attrs|
  {
    if attrs[|attrs| - 1] != a {
      assert attrs == attrs[..|attrs| - 1] + [attrs[|attrs| - 1]];
      BlankMessagesContain(attrs[..|attrs| - 1], a);
    }
  }

  /**
   * `Entity.validate` reports a required attribute that is empty twice: once
   * through the attribute's own `validate`, once through the entity's own
   * required check.
   */
  lemma RequiredEmptyReportedTwice(host: Host, attrs: seq<Attribute>, i: nat)
    requires i < |attrs| && attrs[i].metadata.required && IsBlank(attrs[i].value)
    ensures multiset(EntityErrors(host, attrs))[attrs[i].name + " è obbligatorio"] >= 2
  {
    var a := attrs[i];
    var m := a.name + " è obbligatorio";
    RequiredRejectsBlank(host, a.name, a.metadata, a.kind, a.validators, a.value);
    assert m in ValidationErrors(host, a.name, a.metadata, a.kind, a.validators, a.value);
    AttributeErrorsContain(host, attrs, i, m);
    BlankMessagesContain(RequiredOf(attrs), a);
    assert multiset(EntityErrors(host, attrs)) == multiset(AttributeErrors(host, attrs)) + multiset(BlankMessages(RequiredOf(attrs)));
  }
}
