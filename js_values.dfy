/**
 * JavaScript values as the model sees them, with the parts of the runtime the
 * core relies on: truthiness, `typeof`, strict equality, `String(v)` and the
 * normal form that `JSON.stringify` compares.
 */
module JsValues {
  import opened Wrappers
  import opened JsStrings

  /**
   * A JavaScript value. Numbers are reals (`NaN` apart; infinities and `-0` are
   * not modelled). A `Date` holds its time in milliseconds, or `None` for an
   * invalid date. `Obj` lists an object's own properties in their property order.
   */
  datatype Value =
    | Undefined
    | Null
    | Bool(b: bool)
    | Num(r: real)
    | NaN
    | Str(s: string)
    | DateObj(time: Option<int>)
    | Arr(items: seq<Value>)
    | Obj(props: seq<(string, Value)>)

  /**
   * The host facilities the core calls but does not define: `parseFloat`
   * (`None` for NaN), `new Date(v)` (`None` for an invalid date), `new URL(text)`
   * (the parsed protocol, `None` when it throws), number and date formatting,
   * `RegExp.prototype.test` for a pattern given by its source text, and
   * `Number(text)` for a string (`None` for NaN).
   */
  datatype Host = Host(
    parseFloat: string -> Option<real>,
    textToNumber: string -> Option<real>,
    parseDate: Value -> Option<int>,
    parseUrl: string -> Option<string>,
    numberText: real -> string,
    dateText: int -> string,
    localeDateText: int -> string,
    isoText: int -> string,
    regexTest: (string, string) -> bool)

  predicate IsNullish(v: Value) {
    v.Undefined? || v.Null?
  }

  /** JavaScript truthiness. */
  predicate Truthy(v: Value) {
    match v
    case Undefined => false
    case Null => false
    case Bool(b) => b
    case Num(r) => r != 0.0
    case NaN => false
    case Str(s) => s != ""
    case _ => true
  }

  /** The `typeof` operator. */
  function TypeOf(v: Value): (r: string)
    ensures r == "object" <==> v.Null? || v.DateObj? || v.Arr? || v.Obj?
    ensures r == "number" <==> v.Num? || v.NaN?
    ensures r == "string" <==> v.Str?
  {
    match v
    case Undefined => "undefined"
    case Null => "object"
    case Bool(_) => "boolean"
    case Num(_) => "number"
    case NaN => "number"
    case Str(_) => "string"
    case _ => "object"
  }

  /** `Number.isInteger` for a finite number. */
  predicate IsWhole(r: real) {
    r.Floor as real == r
  }

  /**
   * `a === b`. NaN equals nothing, itself included. Objects, arrays and dates
   * compare by identity in JavaScript; the model compares them by structure.
   */
  predicate StrictEq(a: Value, b: Value) {
    match a
    case NaN => false
    case _ => a == b
  }

  /** Every value other than NaN is strictly equal to itself. */
  lemma StrictEqReflexive(a: Value)
    ensures StrictEq(a, a) <==> !a.NaN?
  {
  }

  /** `String(r)` for a finite number: integers below 10^21 print as their decimal digits. */
  function NumberText(host: Host, r: real): string {
    if IsWhole(r) && -1000000000000000000000.0 < r < 1000000000000000000000.0 then IntToString(r.Floor)
    else host.numberText(r)
  }

  /** `String(v)`. */
  function ToText(host: Host, v: Value): string
    decreases v, if v.Arr? then |v.items| + 1 else 0
  {
    match v
    case Undefined => "undefined"
    case Null => "null"
    case Bool(b) => if b then "true" else "false"
    case Num(r) => NumberText(host, r)
    case NaN => "NaN"
    case Str(s) => s
    case DateObj(t) => if t.Some? then host.dateText(t.value) else "Invalid Date"
    case Arr(items) => Join(ItemTexts(host, v, 0), ",")
    case Obj(_) => "[object Object]"
  }

  /** The texts of the items of an array from index `k` on, as `Array.prototype.join` prints them. */
  function ItemTexts(host: Host, v: Value, k: nat): (r: seq<string>)
    requires v.Arr? && k <= |v.items|
    ensures |r| == |v.items| - k
    decreases v, |v.items| - k
  {
    if k == |v.items| then []
    else
      var item := v.items[k];
      [if IsNullish(item) then "" else ToText(host, item)] + ItemTexts(host, v, k + 1)
  }

  /**
   * `Number(v)`, `None` for NaN. A date converts to its time; an array or an
   * object converts through its text.
   */
  function ToNumber(host: Host, v: Value): (r: Option<real>)
    ensures v.Num? ==> r == Some(v.r)
    ensures v.Bool? ==> r == Some(if v.b then 1.0 else 0.0)
    ensures v.Undefined? || v.NaN? ==> r.None?
  {
    match v
    case Undefined => None
    case Null => Some(0.0)
    case Bool(b) => Some(if b then 1.0 else 0.0)
    case Num(r) => Some(r)
    case NaN => None
    case Str(s) => host.textToNumber(s)
    case DateObj(t) => if t.Some? then Some(t.value as real) else None
    case _ => host.textToNumber(ToText(host, v))
  }

  /** `v < x` for a number `x`: `v` converts to a number, and NaN is below nothing. */
  predicate LessThanNumber(host: Host, v: Value, x: real) {
    var n := ToNumber(host, v);
    n.Some? && n.value < x
  }

  /** `v > x` for a number `x`: `v` converts to a number, and NaN is above nothing. */
  predicate GreaterThanNumber(host: Host, v: Value, x: real) {
    var n := ToNumber(host, v);
    n.Some? && n.value > x
  }

  /**
   * `v + 1`: a string, or an object, array or date (which convert to their
   * text), gets the digit `1` appended; anything else is added to as a number.
   */
  function PlusOne(host: Host, v: Value): (r: Value)
    ensures v.Str? || v.DateObj? || v.Arr? || v.Obj? ==> r == Str(ToText(host, v) + "1")
    ensures !(v.Str? || v.DateObj? || v.Arr? || v.Obj?) ==>
      r == (if ToNumber(host, v).Some? then Num(ToNumber(host, v).value + 1.0) else NaN)
  {
    match v
    case Str(s) => Str(s + "1")
    case DateObj(_) => Str(ToText(host, v) + "1")
    case Arr(_) => Str(ToText(host, v) + "1")
    case Obj(_) => Str(ToText(host, v) + "1")
    case Undefined => NaN
    case NaN => NaN
    case Null => Num(1.0)
    case Bool(b) => Num(if b then 2.0 else 1.0)
    case Num(x) => Num(x + 1.0)
  }

  /** `array.join(sep)` */
  function JoinValues(host: Host, items: seq<Value>, sep: string): string {
    Join(ItemTexts(host, Arr(items), 0), sep)
  }

  /** The JSON texts that `JSON.stringify` can produce, as trees. */
  datatype Json =
    | JNull
    | JBool(b: bool)
    | JNum(r: real)
    | JStr(s: string)
    | JArr(items: seq<Json>)
    | JObj(props: seq<(string, Json)>)

  /**
   * `JSON.stringify(v)` as a tree, `None` where it returns `undefined`. Two
   * values stringify to the same text iff their trees are equal (numbers and
   * strings print injectively). A valid date prints as its ISO text, an invalid
   * one as null; NaN prints as null; `undefined` items become null and
   * `undefined` properties are dropped.
   */
  function ToJson(host: Host, v: Value): Option<Json>
    decreases v, if v.Obj? then |v.props| + 1 else if v.Arr? then |v.items| + 1 else 0
  {
    match v
    case Undefined => None
    case Null => Some(JNull)
    case Bool(b) => Some(JBool(b))
    case Num(r) => Some(JNum(r))
    case NaN => Some(JNull)
    case Str(s) => Some(JStr(s))
    case DateObj(t) => if t.Some? then Some(JStr(host.isoText(t.value))) else Some(JNull)
    case Arr(_) => Some(JArr(JsonItems(host, v, 0)))
    case Obj(_) => Some(JObj(JsonProps(host, v, 0)))
  }

  function JsonItems(host: Host, v: Value, k: nat): (r: seq<Json>)
    requires v.Arr? && k <= |v.items|
    ensures |r| == |v.items| - k
    decreases v, |v.items| - k
  {
    if k == |v.items| then []
    else
      var j := ToJson(host, v.items[k]);
      [if j.Some? then j.value else JNull] + JsonItems(host, v, k + 1)
  }

  function JsonProps(host: Host, v: Value, k: nat): seq<(string, Json)>
    requires v.Obj? && k <= |v.props|
    decreases v, |v.props| - k
  {
    if k == |v.props| then []
    else
      var j := ToJson(host, v.props[k].1);
      (if j.Some? then [(v.props[k].0, j.value)] else []) + JsonProps(host, v, k + 1)
  }

  /** `JSON.stringify(a) === JSON.stringify(b)` */
  predicate JsonEqual(host: Host, a: Value, b: Value) {
    ToJson(host, a) == ToJson(host, b)
  }

  /** Strictly equal values stringify alike. */
  lemma StrictEqImpliesJsonEqual(host: Host, a: Value, b: Value)
    requires StrictEq(a, b)
    ensures JsonEqual(host, a, b)
  {
  }

  /** `o[key]`: the value of an own property of an object, `undefined` otherwise. */
  function GetProp(v: Value, key: string): Value {
    if v.Obj? then Lookup(v.props, key) else Undefined
  }

  function Lookup(props: seq<(string, Value)>, key: string): (r: Value)
    ensures (forall i :: 0 <= i < |props| ==> props[i].0 != key) ==> r == Undefined
  {
    if props == [] then Undefined
    else if props[0].0 == key then props[0].1
    else Lookup(props[1..], key)
  }

  /** `o[key] = x` on an object's property list: an existing property keeps its place, a new one goes last. */
  function SetProp(props: seq<(string, Value)>, key: string, x: Value): (r: seq<(string, Value)>)
    ensures Lookup(r, key) == x
    ensures forall k :: k != key ==> Lookup(r, k) == Lookup(props, k)
  {
    if props == [] then [(key, x)]
    else if props[0].0 == key then [(key, x)] + props[1..]
    else [props[0]] + SetProp(props[1..], key, x)
  }

  /** The name a built-in `TypeError` is written with, in front of its message. */
  const TypeErrorName: string := "TypeError: "

  /**
   * `error.message`: a built-in `TypeError` is written here with its name in
   * front, which the message does not carry.
   */
  function ErrorMessage(e: string): (r: string)
    ensures StartsWith(e, TypeErrorName) ==> e == TypeErrorName + r
    ensures !StartsWith(e, TypeErrorName) ==> r == e
  {
    if StartsWith(e, TypeErrorName) then e[|TypeErrorName|..] else e
  }
}
