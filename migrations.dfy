/**
 * `MigrationInterface`: the registry of version-step migration handlers, the
 * sequential migration chain that stops at the first missing step, the check
 * of an export's format, the default 1→2 migration and the helpers that
 * describe the shape of stored data.
 */
module Migrations {
  import opened Wrappers
  import opened JsStrings
  import opened JsValues
  import opened ModuleDefinitionClass

  /** The version of the data this code writes (`this.currentVersion`, never changed). */
  const CurrentVersion: real := 1.0

  /** The error `Object.entries(null)` throws. */
  const NotAnObject: string := "TypeError: Cannot convert undefined or null to object"

  /** The prefix of the error `migrate` throws for a step with no handler. */
  const Unavailable: string := "Migrazione non disponibile: "

  /** The prefix of the error `import` throws, followed by the message of the error it caught. */
  const ImportFailed: string := "Import fallito: "

  /**
   * A migration handler: the default 1→2 migration, or one a caller registered,
   * whose result (or rejection) is a function of the data it is given.
   */
  datatype Handler = StampUpdatedAt | Custom(run: Value -> Result<Value>)

  /** The key a handler is registered under: `` `${from}->${to}` ``. */
  function MigrationKey(host: Host, from: Value, to: Value): string {
    ToText(host, from) + "->" + ToText(host, to)
  }

  // ---------------------------------------------------------------------------
  // The default 1→2 migration
  // ---------------------------------------------------------------------------

  /** One entry of `data` after the default migration: an entry with a truthy `type` gets `updatedAt = createdAt || now`. */
  function Stamped(host: Host, now: int, entry: Value): (r: Value)
    ensures Truthy(GetProp(entry, "type")) ==>
      r.Obj? && GetProp(r, "updatedAt") == (if Truthy(GetProp(entry, "createdAt")) then GetProp(entry, "createdAt") else Str(host.isoText(now)))
      && forall k :: k != "updatedAt" ==> GetProp(r, k) == GetProp(entry, k)
    ensures !Truthy(GetProp(entry, "type")) ==> r == entry
  {
    if Truthy(entry) && Truthy(GetProp(entry, "type")) then
      var created := GetProp(entry, "createdAt");
      Obj(SetProp(entry.props, "updatedAt", if Truthy(created) then created else Str(host.isoText(now))))
    else entry
  }

  /** Every value stamped in turn. */
  function StampedAll(host: Host, now: int, values: seq<Value>): (r: seq<Value>)
    ensures |r| == |values|
  {
    seq(|values|, i requires 0 <= i < |values| => Stamped(host, now, values[i]))
  }

  /** The property list of an object with the same keys and new values. */
  function WithValues(props: seq<(string, Value)>, values: seq<Value>): (r: seq<(string, Value)>)
    requires |values| == |props|
  {
    seq(|props|, i requires 0 <= i < |props| => (props[i].0, values[i]))
  }

  /** The values of an object's properties, in order. */
  function ValuesOf(props: seq<(string, Value)>): (r: seq<Value>)
    ensures |r| == |props|
  {
    seq(|props|, i requires 0 <= i < |props| => props[i].1)
  }

  /**
   * `migratedData.data` after the loop over its entries: an object's or an
   * array's entries are stamped where they stay; a string's characters and the
   * other values have nothing to stamp; `null` and `undefined` make
   * `Object.entries` throw.
   */
  function StampedEntries(host: Host, now: int, entries: Value): (r: Result<Value>)
    ensures r.Ok? <==> !IsNullish(entries)
    ensures entries.Obj? ==>
      r.Ok? && r.value.Obj? && |r.value.props| == |entries.props|
      && forall i :: 0 <= i < |entries.props| ==>
           r.value.props[i] == (entries.props[i].0, Stamped(host, now, entries.props[i].1))
    ensures entries.Arr? ==>
      r.Ok? && r.value.Arr? && |r.value.items| == |entries.items|
      && forall i :: 0 <= i < |entries.items| ==> r.value.items[i] == Stamped(host, now, entries.items[i])
    ensures !IsNullish(entries) && !entries.Obj? && !entries.Arr? ==> r == Ok(entries)
  {
    match entries
    case Undefined => Err(NotAnObject)
    case Null => Err(NotAnObject)
    case Obj(props) => Ok(Obj(WithValues(props, StampedAll(host, now, ValuesOf(props)))))
    case Arr(items) => Ok(Arr(StampedAll(host, now, items)))
    case _ => Ok(entries)
  }

  /**
   * The default 1→2 migration: a copy of the data whose entries under `data`
   * are stamped and whose `version` is 2.
   */
  function DefaultMigration(host: Host, now: int, data: Value): (r: Result<Value>) {
    var copy := Spread(data);
    match StampedEntries(host, now, Lookup(copy, "data"))
    case Err(m) => Err(m)
    case Ok(stamped) => Ok(Obj(SetProp(SetProp(copy, "data", stamped), "version", Num(2.0))))
  }

  /**
   * On an ordinary object the default migration fails iff `data` is missing
   * (or `null`); otherwise it sets `version` to 2, replaces `data` by its
   * stamped entries and keeps every other property.
   */
  lemma DefaultMigrationEffect(host: Host, now: int, props: seq<(string, Value)>)
    requires Ordinary(props)
    ensures var r := DefaultMigration(host, now, Obj(props));
      && (r.Ok? <==> !IsNullish(GetProp(Obj(props), "data")))
      && (r.Err? ==> r.message == NotAnObject)
      && (r.Ok? ==>
            && GetProp(r.value, "version") == Num(2.0)
            && GetProp(r.value, "data") == StampedEntries(host, now, GetProp(Obj(props), "data")).value
            && forall k :: k != "version" && k != "data" ==> GetProp(r.value, k) == GetProp(Obj(props), k))
  {
    SpreadCopies(props);
  }

  /** What running a handler on the data gives. */
  function Run(host: Host, now: int, handler: Handler, data: Value): Result<Value> {
    match handler
    case StampUpdatedAt => DefaultMigration(host, now, data)
    case Custom(run) => run(data)
  }

  // ---------------------------------------------------------------------------
  // The migration chain
  // ---------------------------------------------------------------------------

  /** The registered keys at least `n` characters long. */
  function LongKeys(handlers: map<string, Handler>, n: nat): set<string> {
    set k | k in handlers && |k| >= n
  }

  /**
   * A bound on the steps left from `from` to `to`: for a number, the versions
   * between them; for a string (which grows by a digit at each step, so that
   * its keys grow too), the registered keys not shorter than its next key.
   */
  function StepsLeft(handlers: map<string, Handler>, from: Value, to: real): nat {
    match from
    case Num(r) => if r < to then (to - r).Floor + 1 else 0
    case Str(s) => |LongKeys(handlers, 2 * |s| + 3)|
    case _ => 0
  }

  /** Versions other than numbers and strings turn into one of those after a step. */
  function Rank(from: Value): nat {
    if from.Num? || from.Str? || from.NaN? then 0 else 1
  }

  /** A step whose handler is registered brings the chain closer to its end. */
  lemma StepShrinks(host: Host, handlers: map<string, Handler>, from: Value, to: real)
    requires LessThanNumber(host, from, to)
    requires MigrationKey(host, from, PlusOne(host, from)) in handlers
    ensures var next := PlusOne(host, from);
      Rank(next) < Rank(from) || (Rank(next) == Rank(from) && StepsLeft(handlers, next, to) < StepsLeft(handlers, from, to))
  {
    if from.Str? {
      var s := from.s;
      var key := MigrationKey(host, from, PlusOne(host, from));
      assert |key| == 2 * |s| + 3;
      var before := LongKeys(handlers, 2 * |s| + 3);
      var after := LongKeys(handlers, 2 * (|s| + 1) + 3);
      assert PlusOne(host, from) == Str(s + "1");
      assert after <= before - {key};
      SubsetSize(after, before - {key});
    }
  }

  /** A subset is no larger than the set it is taken from. */
  lemma {:induction false} SubsetSize<T>(a: set<T>, b: set<T>)
    requires a <= b
    ensures |a| <= |b|
    decreases |b|
  {
    if a != {} {
      var x :| x in a;
      SubsetSize(a - {x}, b - {x});
    }
  }

  /**
   * The steps of `migrate` from `from` on: while `from < to`, the handler under
   * `${from}->${from + 1}` is run on the data and the version becomes
   * `from + 1`; a missing handler throws.
   */
  function Chain(host: Host, now: int, handlers: map<string, Handler>, from: Value, to: real, data: Value): (r: Result<Value>)
    decreases Rank(from), StepsLeft(handlers, from, to)
  {
    if !LessThanNumber(host, from, to) then Ok(data)
    else
      var next := PlusOne(host, from);
      var key := MigrationKey(host, from, next);
      if key !in handlers then Err(Unavailable + key)
      else
        match Run(host, now, handlers[key], data)
        case Err(m) => Err(m)
        case Ok(moved) =>
          StepShrinks(host, handlers, from, to);
          Chain(host, now, handlers, next, to, moved)
  }

  /** `migrate(from, to, data)`: the data unchanged when `from === to`, else the chain. */
  function Migrated(host: Host, now: int, handlers: map<string, Handler>, from: Value, to: real, data: Value): (r: Result<Value>)
    ensures !LessThanNumber(host, from, to) ==> r == Ok(data)
  {
    if StrictEq(from, Num(to)) then Ok(data) else Chain(host, now, handlers, from, to, data)
  }

  /** One step of the chain: below `to`, a registered handler that succeeds moves the chain on by one version. */
  lemma ChainStep(host: Host, now: int, handlers: map<string, Handler>, from: Value, to: real, data: Value)
    requires LessThanNumber(host, from, to)
    requires MigrationKey(host, from, PlusOne(host, from)) in handlers
    requires Run(host, now, handlers[MigrationKey(host, from, PlusOne(host, from))], data).Ok?
    ensures Chain(host, now, handlers, from, to, data)
            == Chain(host, now, handlers, PlusOne(host, from), to,
                     Run(host, now, handlers[MigrationKey(host, from, PlusOne(host, from))], data).value)
  {
  }

  /**
   * From a number, the chain runs its steps in ascending order: when the `n`
   * steps up to `target` leave the data at `mid`, the rest of the chain goes
   * on from `mid`.
   */
  lemma {:induction false} ChainThrough(host: Host, now: int, handlers: map<string, Handler>, from: real, n: nat, target: real,
                                        to: real, data: Value, mid: Value)
    requires target == from + n as real && target <= to
    requires Chain(host, now, handlers, Num(from), target, data) == Ok(mid)
    ensures Chain(host, now, handlers, Num(from), to, data) == Chain(host, now, handlers, Num(target), to, mid)
    decreases n
  {
    if n == 0 {
      assert mid == data;
    } else {
      var key := MigrationKey(host, Num(from), Num(from + 1.0));
      assert PlusOne(host, Num(from)) == Num(from + 1.0);
      assert key in handlers && Run(host, now, handlers[key], data).Ok?;
      var next := Run(host, now, handlers[key], data).value;
      ChainStep(host, now, handlers, Num(from), target, data);
      ChainStep(host, now, handlers, Num(from), to, data);
      ChainThrough(host, now, handlers, from + 1.0, n - 1, target, to, next, mid);
    }
  }

  /**
   * When the first `n` steps from a number succeed and there is no handler for
   * the next one, below `to`, the chain throws for that step.
   */
  lemma FirstMissingStep(host: Host, now: int, handlers: map<string, Handler>, from: real, n: nat, to: real, data: Value, mid: Value)
    requires from + n as real < to
    requires Chain(host, now, handlers, Num(from), from + n as real, data) == Ok(mid)
    requires MigrationKey(host, Num(from + n as real), Num(from + n as real + 1.0)) !in handlers
    ensures Chain(host, now, handlers, Num(from), to, data)
            == Err(Unavailable + MigrationKey(host, Num(from + n as real), Num(from + n as real + 1.0)))
  {
    var target := from + n as real;
    MissingAt(host, now, handlers, target, to, mid);
    ChainThrough(host, now, handlers, from, n, target, to, data, mid);
  }

  /** `MissingStep` from a number. */
  lemma MissingAt(host: Host, now: int, handlers: map<string, Handler>, from: real, to: real, data: Value)
    requires from < to && MigrationKey(host, Num(from), Num(from + 1.0)) !in handlers
    ensures Chain(host, now, handlers, Num(from), to, data) == Err(Unavailable + MigrationKey(host, Num(from), Num(from + 1.0)))
  {
    assert PlusOne(host, Num(from)) == Num(from + 1.0);
    MissingStep(host, now, handlers, Num(from), to, data);
  }

  /** Below `to`, a step with no handler throws, naming the step. */
  lemma MissingStep(host: Host, now: int, handlers: map<string, Handler>, from: Value, to: real, data: Value)
    requires LessThanNumber(host, from, to) && MigrationKey(host, from, PlusOne(host, from)) !in handlers
    ensures Chain(host, now, handlers, from, to, data) == Err(Unavailable + MigrationKey(host, from, PlusOne(host, from)))
  {
  }

  /** A step whose handler is registered runs that handler, and nothing else. */
  lemma SingleStep(host: Host, now: int, handlers: map<string, Handler>, from: real, handler: Handler, data: Value)
    requires MigrationKey(host, Num(from), Num(from + 1.0)) in handlers
    ensures Migrated(host, now, handlers[MigrationKey(host, Num(from), Num(from + 1.0)) := handler], Num(from), from + 1.0, data)
            == Run(host, now, handler, data)
  {
    var after := handlers[MigrationKey(host, Num(from), Num(from + 1.0)) := handler];
    assert PlusOne(host, Num(from)) == Num(from + 1.0);
    match Run(host, now, handler, data)
    case Err(m) =>
    case Ok(next) =>
      assert Chain(host, now, after, Num(from + 1.0), from + 1.0, next) == Ok(next);
  }

  // ---------------------------------------------------------------------------
  // Checking and migrating an export
  // ---------------------------------------------------------------------------

  /**
   * `validateExportFormat`: `None` when the export is accepted, otherwise the
   * message of the error thrown for the first check that fails.
   */
  function FormatError(exportData: Value): (r: Option<string>)
    ensures r.None? <==>
      Truthy(exportData) && TypeOf(exportData) == "object" && Truthy(GetProp(exportData, "data"))
      && Truthy(GetProp(exportData, "version")) && Truthy(GetProp(exportData, "timestamp"))
  {
    if !Truthy(exportData) || TypeOf(exportData) != "object" then Some("Formato export non valido: deve essere un oggetto")
    else if !Truthy(GetProp(exportData, "data")) then Some("Formato export non valido: manca la proprietà data")
    else if !Truthy(GetProp(exportData, "version")) then Some("Formato export non valido: manca la versione")
    else if !Truthy(GetProp(exportData, "timestamp")) then Some("Formato export non valido: manca il timestamp")
    else None
  }

  /**
   * The checks run in order: a missing `data` is reported even when the version
   * and the timestamp are missing too, and a missing timestamp only when all
   * else is present.
   */
  lemma FormatErrorOrder(exportData: Value)
    ensures !Truthy(exportData) ==> FormatError(exportData) == Some("Formato export non valido: deve essere un oggetto")
    ensures exportData.Obj? && !Truthy(GetProp(exportData, "data")) ==>
      FormatError(exportData) == Some("Formato export non valido: manca la proprietà data")
    ensures exportData.Obj? && Truthy(GetProp(exportData, "data")) && !Truthy(GetProp(exportData, "version")) ==>
      FormatError(exportData) == Some("Formato export non valido: manca la versione")
    ensures exportData.Arr? || exportData.DateObj? ==> FormatError(exportData) == Some("Formato export non valido: manca la proprietà data")
  {
  }

  /** The error `migrateIfNeeded` throws for data newer than this code, naming the version as it prints. */
  function Unsupported(host: Host, version: Value): string {
    "Versione non supportata: " + ToText(host, version) + " > " + NumberText(host, CurrentVersion)
  }

  /**
   * `migrateIfNeeded`: data whose version is strictly equal to the current one
   * is returned as it is, data whose version compares above it is refused,
   * and any other data goes through `migrate` up to the current version.
   */
  function MigrationNeeded(host: Host, now: int, handlers: map<string, Handler>, exportData: Value): (r: Result<Value>) {
    var version := GetProp(exportData, "version");
    if StrictEq(version, Num(CurrentVersion)) then Ok(exportData)
    else if GreaterThanNumber(host, version, CurrentVersion) then Err(Unsupported(host, version))
    else Migrated(host, now, handlers, version, CurrentVersion, exportData)
  }

  /**
   * Versions are compared as JavaScript compares them: a version that only
   * converts to 1 (the string "1", `true`, `[1]`) and one that converts to no
   * number at all skip both the refusal and the migration and come back
   * unchanged, while one that converts to more than 1 (the string "2") is
   * refused under its own text.
   */
  lemma LooseVersions(host: Host, now: int, handlers: map<string, Handler>, exportData: Value)
    ensures var version := GetProp(exportData, "version");
      var r := MigrationNeeded(host, now, handlers, exportData);
      && (ToNumber(host, version) == Some(CurrentVersion) ==> r == Ok(exportData))
      && (ToNumber(host, version).None? ==> r == Ok(exportData))
      && (ToNumber(host, version).Some? && ToNumber(host, version).value > CurrentVersion ==> r == Err(Unsupported(host, version)))
      && (version == Bool(true) ==> r == Ok(exportData))
  {
  }

  /**
   * The default 1→2 migration never runs on import: data at version 1 is
   * returned as it is, data at a version above 1 is refused, and with only the
   * default handler registered any whole version below 1 stops at its first step.
   */
  lemma DefaultHandlerUnreachable(host: Host, now: int, exportData: Value)
    ensures var version := GetProp(exportData, "version");
      var r := MigrationNeeded(host, now, map[MigrationKey(host, Num(1.0), Num(2.0)) := StampUpdatedAt], exportData);
      && (version == Num(1.0) ==> r == Ok(exportData))
      && (version.Num? && version.r > 1.0 ==> r == Err(Unsupported(host, version)))
      && (version.Num? && -1000000000000000000000.0 < version.r < 1.0 && IsWhole(version.r) ==>
            r == Err(Unavailable + MigrationKey(host, version, Num(version.r + 1.0))))
  {
    var version := GetProp(exportData, "version");
    if version.Num? && -1000000000000000000000.0 < version.r < 1.0 && IsWhole(version.r) {
      var v := version.r;
      var first := MigrationKey(host, version, Num(v + 1.0));
      WholeKey(host, v);
      WholeKey(host, 1.0);
      assert NumberText(host, 1.0) == "1";
      assert first[0] != '1' by {
        if v.Floor == 0 {
          assert NumberText(host, v) == "0";
        } else {
          assert NumberText(host, v)[0] == '-';
        }
      }
      assert first != MigrationKey(host, Num(1.0), Num(2.0));
      assert PlusOne(host, version) == Num(v + 1.0);
      MissingStep(host, now, map[MigrationKey(host, Num(1.0), Num(2.0)) := StampUpdatedAt], version, CurrentVersion, exportData);
    }
  }

  /** A whole version below 10^21 prints as its decimal digits. */
  lemma WholeKey(host: Host, version: real)
    requires IsWhole(version) && -1000000000000000000000.0 < version < 1000000000000000000000.0
    ensures NumberText(host, version) == IntToString(version.Floor)
  {
  }

  // ---------------------------------------------------------------------------
  // Describing the shape of stored data
  // ---------------------------------------------------------------------------

  /** `getValueType`: `'null'`, `'array'` and `'date'` for those values, `typeof` for the rest. */
  function ValueType(v: Value): (r: string)
    ensures r == "null" <==> v.Null?
    ensures r == "array" <==> v.Arr?
    ensures r == "date" <==> v.DateObj?
    ensures r == "object" <==> v.Obj?
    ensures !v.Null? && !v.Arr? && !v.DateObj? ==> r == TypeOf(v)
  {
    if v.Null? then "null"
    else if v.Arr? then "array"
    else if v.DateObj? then "date"
    else TypeOf(v)
  }

  /** The description `analyzeStructure` gives one field. */
  function FieldShape(v: Value): (r: Value)
    ensures GetProp(r, "type") == Str(ValueType(v)) && GetProp(r, "example") == v
    ensures GetProp(r, "required") == Bool(!IsNullish(v))
  {
    var props := [("type", Str(ValueType(v))), ("required", Bool(!(v.Null? || v.Undefined?))), ("example", v)];
    assert "required"[0] != "type"[0] && "example"[0] != "type"[0] && "example"[0] != "required"[0];
    assert props[1..][1..] == [("example", v)];
    assert Lookup(props, "example") == Lookup(props[1..], "example") == Lookup(props[1..][1..], "example") == v;
    assert Lookup(props, "required") == Lookup(props[1..], "required");
    Obj(props)
  }

  /**
   * `analyzeStructure(obj)`: one description per own entry, under the entry's
   * key and in the same order; `null` and `undefined` make `Object.entries` throw.
   */
  function Structure(obj: Value): (r: Result<Value>)
    ensures r.Ok? <==> !IsNullish(obj)
    ensures r.Ok? ==>
      r.value.Obj? && |r.value.props| == |OwnEntries(obj)|
      && forall i :: 0 <= i < |OwnEntries(obj)| ==>
           var (key, value) := OwnEntries(obj)[i];
           && r.value.props[i].0 == key
           && GetProp(r.value.props[i].1, "example") == value
           && GetProp(r.value.props[i].1, "type") == Str(ValueType(value))
           && (GetProp(r.value.props[i].1, "required") == Bool(true) <==> !IsNullish(value))
  {
    if IsNullish(obj) then Err(NotAnObject)
    else
      var entries := OwnEntries(obj);
      Ok(Obj(seq(|entries|, i requires 0 <= i < |entries| => (entries[i].0, FieldShape(entries[i].1)))))
  }

  // ---------------------------------------------------------------------------
  // The registry
  // ---------------------------------------------------------------------------

  /** The `MigrationInterface` object: its handlers, keyed by `from->to`. */
  class MigrationInterface {
    var migrationHandlers: map<string, Handler>

    /** A new interface holds the default 1→2 migration only. */
    constructor(host: Host)
      ensures migrationHandlers == map[MigrationKey(host, Num(1.0), Num(2.0)) := StampUpdatedAt]
    {
      migrationHandlers := map[];
      new;
      RegisterMigration(host, Num(1.0), Num(2.0), StampUpdatedAt);
    }

    /** `registerMigration`: the handler is stored under `from->to`, replacing any earlier one. */
    method RegisterMigration(host: Host, fromVersion: Value, toVersion: Value, handler: Handler)
      modifies this
      ensures migrationHandlers == old(migrationHandlers)[MigrationKey(host, fromVersion, toVersion) := handler]
    {
      var key := MigrationKey(host, fromVersion, toVersion);
      migrationHandlers := migrationHandlers[key := handler];
    }

    /** `migrate`: the chain of steps from `fromVersion` up to `toVersion`. */
    method Migrate(host: Host, now: int, fromVersion: Value, toVersion: real, data: Value) returns (r: Result<Value>)
      ensures r == Migrated(host, now, migrationHandlers, fromVersion, toVersion, data)
    {
      if StrictEq(fromVersion, Num(toVersion)) {
        return Ok(data);
      }
      var currentData := data;
      var currentVersion := fromVersion;
      while LessThanNumber(host, currentVersion, toVersion)
        invariant Chain(host, now, migrationHandlers, fromVersion, toVersion, data)
                  == Chain(host, now, migrationHandlers, currentVersion, toVersion, currentData)
        decreases Rank(currentVersion), StepsLeft(migrationHandlers, currentVersion, toVersion)
      {
        var nextVersion := PlusOne(host, currentVersion);
        var migrationKey := MigrationKey(host, currentVersion, nextVersion);
        if migrationKey in migrationHandlers {
          var handler := migrationHandlers[migrationKey];
          var outcome := RunHandler(host, now, handler, currentData);
          if outcome.Err? {
            return Err(outcome.message);
          }
          StepShrinks(host, migrationHandlers, currentVersion, toVersion);
          currentData := outcome.value;
          currentVersion := nextVersion;
        } else {
          return Err(Unavailable + migrationKey);
        }
      }
      return Ok(currentData);
    }

    /** `migrateIfNeeded(exportData)` */
    method MigrateIfNeeded(host: Host, now: int, exportData: Value) returns (r: Result<Value>)
      ensures r == MigrationNeeded(host, now, migrationHandlers, exportData)
    {
      var sourceVersion := GetProp(exportData, "version");
      if StrictEq(sourceVersion, Num(CurrentVersion)) {
        return Ok(exportData);
      }
      if GreaterThanNumber(host, sourceVersion, CurrentVersion) {
        return Err(Unsupported(host, sourceVersion));
      }
      r := Migrate(host, now, sourceVersion, CurrentVersion, exportData);
    }

    /**
     * The part of `import` this model keeps: the export is checked, then
     * migrated; the result is what is handed to the storage manager, and any
     * error is rethrown with the `Import fallito: ` prefix.
     */
    method Import(host: Host, now: int, exportData: Value) returns (r: Result<Value>)
      ensures r.Ok? ==> FormatError(exportData).None? && r == MigrationNeeded(host, now, migrationHandlers, exportData)
      ensures FormatError(exportData).Some? ==> r == Err(ImportFailed + FormatError(exportData).value)
      ensures r.Err? ==> StartsWith(r.message, ImportFailed)
    {
      var invalid := FormatError(exportData);
      if invalid.Some? {
        return Err(ImportFailed + invalid.value);
      }
      var migrated := MigrateIfNeeded(host, now, exportData);
      if migrated.Err? {
        return Err(ImportFailed + ErrorMessage(migrated.message));
      }
      r := migrated;
    }
  }

  /** Running a handler: the default migration's loop, or the caller's function. */
  method RunHandler(host: Host, now: int, handler: Handler, data: Value) returns (r: Result<Value>)
    ensures r == Run(host, now, handler, data)
  {
    match handler
    case StampUpdatedAt =>
      r := RunDefaultMigration(host, now, data);
    case Custom(run) =>
      r := run(data);
  }

  /** The default 1→2 migration, with its loop over the entries of `data`. */
  method RunDefaultMigration(host: Host, now: int, data: Value) returns (r: Result<Value>)
    ensures r == DefaultMigration(host, now, data)
  {
    var migratedData := Spread(data);
    var entries := Lookup(migratedData, "data");
    var stamped: Value;
    match entries {
      case Undefined => return Err(NotAnObject);
      case Null => return Err(NotAnObject);
      case Obj(props) =>
        var values := StampEach(host, now, ValuesOf(props));
        stamped := Obj(WithValues(props, values));
      case Arr(items) =>
        var values := StampEach(host, now, items);
        stamped := Arr(values);
      case _ =>
        stamped := entries;
    }
    return Ok(Obj(SetProp(SetProp(migratedData, "data", stamped), "version", Num(2.0))));
  }

  /** The loop of the default migration: each entry stamped in turn. */
  method StampEach(host: Host, now: int, values: seq<Value>) returns (r: seq<Value>)
    ensures r == StampedAll(host, now, values)
  {
    r := [];
    for i := 0 to |values|
      invariant r == StampedAll(host, now, values[..i])
    {
      var entityData := values[i];
      if Truthy(entityData) && Truthy(GetProp(entityData, "type")) {
        var created := GetProp(entityData, "createdAt");
        entityData := Obj(SetProp(entityData.props, "updatedAt", if Truthy(created) then created else Str(host.isoText(now))));
      }
      assert values[..i + 1] == values[..i] + [values[i]];
      r := r + [entityData];
    }
    assert values[..|values|] == values;
  }
}
