/**
 * The markup and the style sheet `ModuleCompiler` generates for a module
 * definition, as functions of the definition's fields and of the entity the
 * module is compiled against. The compiler's methods are proved against them.
 */
module CompilerMarkup {
  import opened Wrappers
  import opened JsStrings
  import opened JsValues
  import opened OrderedMaps
  import opened PropertyOrder
  import opened ModuleDefinitions
  import opened ModuleDefinitionClass
  import opened HtmlFormat

  // ---------------------------------------------------------------------------
  // The entity a module is compiled against
  // ---------------------------------------------------------------------------

  /** What the markup reads of an entity: its type, and for each attribute it has, `getAttributeValue`'s result. */
  datatype Subject = Subject(entityType: string, values: map<string, Value>)

  // ---------------------------------------------------------------------------
  // A measure for the recursion over layout elements
  // ---------------------------------------------------------------------------

  function Max(a: nat, b: nat): nat {
    if a < b then b else a
  }

  /** The nesting depth of a value: 1 for a value without parts, two more than its deepest part otherwise. */
  function Height(v: Value): nat
    decreases v, if v.Arr? then |v.items| + 1 else if v.Obj? then |v.props| + 1 else 0
  {
    match v
    case Arr(_) => 2 + ItemsHeight(v, 0)
    case Obj(_) => 2 + PropsHeight(v, 0)
    case _ => 1
  }

  /** The greatest height among the items of an array from index `k` on. */
  function ItemsHeight(v: Value, k: nat): nat
    requires v.Arr? && k <= |v.items|
    decreases v, |v.items| - k
  {
    if k == |v.items| then 0 else Max(Height(v.items[k]), ItemsHeight(v, k + 1))
  }

  /** The greatest height among the property values of an object from index `k` on. */
  function PropsHeight(v: Value, k: nat): nat
    requires v.Obj? && k <= |v.props|
    decreases v, |v.props| - k
  {
    if k == |v.props| then 0 else Max(Height(v.props[k].1), PropsHeight(v, k + 1))
  }

  lemma {:induction false} ItemsHeightAtLeast(v: Value, k: nat, j: nat)
    requires v.Arr? && k <= j < |v.items|
    ensures Height(v.items[j]) <= ItemsHeight(v, k)
    decreases j - k
  {
    if k < j {
      ItemsHeightAtLeast(v, k + 1, j);
    }
  }

  lemma {:induction false} ItemsHeightAtMost(v: Value, k: nat, bound: nat)
    requires v.Arr? && k <= |v.items|
    requires forall j :: k <= j < |v.items| ==> Height(v.items[j]) <= bound
    ensures ItemsHeight(v, k) <= bound
    decreases |v.items| - k
  {
    if k < |v.items| {
      ItemsHeightAtMost(v, k + 1, bound);
    }
  }

  lemma {:induction false} PropsHeightAtLeast(v: Value, k: nat, j: nat)
    requires v.Obj? && k <= j < |v.props|
    ensures Height(v.props[j].1) <= PropsHeight(v, k)
    decreases j - k
  {
    if k < j {
      PropsHeightAtLeast(v, k + 1, j);
    }
  }

  /** Every item of an array is at least two lower than the array. */
  lemma ItemLower(items: seq<Value>, j: nat)
    requires j < |items|
    ensures Height(items[j]) + 2 <= Height(Arr(items))
  {
    ItemsHeightAtLeast(Arr(items), 0, j);
  }

  /** A prefix of an array's items is no higher than the array. */
  lemma PrefixNoHigher(items: seq<Value>, n: nat)
    requires n <= |items|
    ensures Height(Arr(items[..n])) <= Height(Arr(items))
  {
    forall j | 0 <= j < n ensures Height(items[..n][j]) <= ItemsHeight(Arr(items), 0) {
      ItemsHeightAtLeast(Arr(items), 0, j);
    }
    ItemsHeightAtMost(Arr(items[..n]), 0, ItemsHeight(Arr(items), 0));
  }

  /** A property read from an object is lower than the object, or absent. */
  lemma {:induction false} LookupLower(props: seq<(string, Value)>, key: string, k: nat)
    requires k <= |props|
    ensures Height(Lookup(props[k..], key)) < Height(Obj(props))
    decreases |props| - k
  {
    if k < |props| {
      assert props[k..][0] == props[k];
      assert props[k..][1..] == props[k + 1..];
      PropsHeightAtLeast(Obj(props), 0, k);
      LookupLower(props, key, k + 1);
    }
  }

  /** A property of any value is lower than the value whenever the value is an object. */
  lemma PropLower(v: Value, key: string)
    requires v.Obj?
    ensures Height(GetProp(v, key)) < Height(v)
  {
    assert v.props[0..] == v.props;
    LookupLower(v.props, key, 0);
  }

  /** An array of strings has height at most 3. */
  lemma CharactersHeight(items: seq<Value>)
    requires forall j :: 0 <= j < |items| ==> items[j].Str?
    ensures Height(Arr(items)) <= 3
  {
    ItemsHeightAtMost(Arr(items), 0, 1);
  }

  // ---------------------------------------------------------------------------
  // Elements
  // ---------------------------------------------------------------------------

  /** The tags that are written without a closing tag. */
  const VoidTags: seq<string> := ["input", "img", "br", "hr", "meta", "link"]

  /** The error destructuring `null` or `undefined` throws. */
  const CannotDestructure: string := "TypeError: Cannot destructure a null or undefined value"

  /** The error `Object.entries(null)` throws. */
  const NotAnObject: string := "TypeError: Cannot convert undefined or null to object"

  /** A destructuring default: `d` when the value is `undefined`. */
  function Defaulted(v: Value, d: Value): Value {
    if v.Undefined? then d else v
  }

  /** ` name="value"` */
  function AttrOf(pair: (string, string)): string {
    " " + pair.0 + "=\"" + pair.1 + "\""
  }

  /** The attributes written in turn, each as ` name="value"`. */
  function AttrText(pairs: seq<(string, string)>): string {
    if pairs == [] then "" else AttrText(pairs[..|pairs| - 1]) + AttrOf(pairs[|pairs| - 1])
  }

  /** Writing two lists of attributes writes one after the other. */
  lemma {:induction false} AttrTextAppend(a: seq<(string, string)>, b: seq<(string, string)>)
    ensures AttrText(a + b) == AttrText(a) + AttrText(b)
    decreases |b|
  {
    if b == [] {
      assert a + b == a;
    } else {
      assert (a + b)[..|a + b| - 1] == a + b[..|b| - 1];
      AttrTextAppend(a, b[..|b| - 1]);
    }
  }

  /** `Object.entries(attributes)`, each value as a template literal prints it. */
  function EntryPairs(host: Host, entries: seq<(string, Value)>): (r: seq<(string, string)>)
    ensures |r| == |entries|
  {
    seq(|entries|, i requires 0 <= i < |entries| => (entries[i].0, ToText(host, entries[i].1)))
  }

  /** Whether an element's `slot` names a slot of the module: `slot && slots.has(slot)`. */
  predicate Binds(slot: Value, slots: OMap<string, SlotDefinition>) {
    Truthy(slot) && Bound(slot, slots)
  }

  /** The binding attributes an element gets when its slot names a slot of the module. */
  function BindingPairs(slot: Value, slots: OMap<string, SlotDefinition>): seq<(string, string)> {
    if Binds(slot, slots) then
      var d := slots.entries[slot.s];
      [("data-slot", slot.s), ("data-path", d.path), ("data-type", d.slotType)]
      + (if d.editable then [("data-editable", "true")] else [])
      + (if Truthy(d.required) then [("data-required", "true")] else [])
    else []
  }

  /** The names of a list of attributes. */
  function Names(pairs: seq<(string, string)>): (r: seq<string>)
    ensures |r| == |pairs|
  {
    seq(|pairs|, i requires 0 <= i < |pairs| => pairs[i].0)
  }

  /**
   * An element bound to a slot carries its name, path and type, and
   * `data-editable`/`data-required` exactly when the slot is editable/required;
   * an unbound element carries none of them.
   */
  lemma BindingAttributes(slot: Value, slots: OMap<string, SlotDefinition>)
    ensures var names := Names(BindingPairs(slot, slots));
      ("data-slot" in names <==> Binds(slot, slots))
      && ("data-editable" in names <==> Binds(slot, slots) && slots.entries[slot.s].editable)
      && ("data-required" in names <==> Binds(slot, slots) && Truthy(slots.entries[slot.s].required))
    ensures Binds(slot, slots) ==>
      BindingPairs(slot, slots)[..3] == [("data-slot", slot.s), ("data-path", slots.entries[slot.s].path),
                                          ("data-type", slots.entries[slot.s].slotType)]
  {
    var pairs := BindingPairs(slot, slots);
    var names := Names(pairs);
    if Binds(slot, slots) {
      var d := slots.entries[slot.s];
      assert names[0] == "data-slot";
      if d.editable {
        assert names[3] == "data-editable";
      }
      if Truthy(d.required) {
        assert names[|names| - 1] == "data-required";
      }
    } else {
      assert names == [];
    }
  }

  /** The closing tag: none for a void tag. */
  function CloseTag(host: Host, tag: Value): string {
    if tag.Str? && tag.s in VoidTags then "" else "</" + ToText(host, tag) + ">"
  }

  /** The opening tag of an element: its own attributes, then the binding attributes. */
  function OpenTag(host: Host, tag: Value, attributes: Value, slot: Value, slots: OMap<string, SlotDefinition>): string {
    "<" + ToText(host, tag) + AttrText(EntryPairs(host, OwnEntries(attributes)) + BindingPairs(slot, slots)) + ">"
  }

  /** The children an element iterates: `children = []` by default. */
  function ChildrenOf(element: Value): Result<seq<Value>> {
    ArraySpread(Defaulted(GetProp(element, "children"), Arr([])))
  }

  /** The children of an element are, together, at most one higher than the element. */
  lemma ChildrenNoHigher(element: Value)
    requires ChildrenOf(element).Ok?
    ensures Height(Arr(ChildrenOf(element).value)) <= Height(element) + 1
  {
    var children := Defaulted(GetProp(element, "children"), Arr([]));
    var items := ChildrenOf(element).value;
    if element.Obj? {
      PropLower(element, "children");
      if children.Str? {
        CharactersHeight(items);
      }
    }
  }

  /** `generateLayoutElement(element, slots, entity)` */
  function ElementHtml(host: Host, element: Value, slots: OMap<string, SlotDefinition>, entity: Option<Subject>): Result<string>
    decreases Height(element) + 1, 1, 0
  {
    if IsNullish(element) then Err(CannotDestructure)
    else
      var tag := GetProp(element, "element");
      var slot := GetProp(element, "slot");
      var attributes := Defaulted(GetProp(element, "attributes"), Obj([]));
      if IsNullish(attributes) then Err(NotAnObject)
      else
        var open := OpenTag(host, tag, attributes, slot, slots);
        match (if Binds(slot, slots) then SlotContent(host, slots.entries[slot.s], tag, entity) else Ok(""))
        case Err(e) => Err(e)
        case Ok(content) =>
          match ChildrenOf(element)
          case Err(e) => Err(e)
          case Ok(items) =>
            ChildrenNoHigher(element);
            match ChildrenHtml(host, items, slots, entity)
            case Err(e) => Err(e)
            case Ok(inner) => Ok(open + content + inner + CloseTag(host, tag))
  }

  /** The elements of a list rendered in turn; the first one that throws stops the rest. */
  function ChildrenHtml(host: Host, items: seq<Value>, slots: OMap<string, SlotDefinition>, entity: Option<Subject>): Result<string>
    decreases Height(Arr(items)), 0, |items|
  {
    if items == [] then Ok("")
    else
      PrefixNoHigher(items, |items| - 1);
      ItemLower(items, |items| - 1);
      match ChildrenHtml(host, items[..|items| - 1], slots, entity)
      case Err(e) => Err(e)
      case Ok(before) =>
        match ElementHtml(host, items[|items| - 1], slots, entity)
        case Err(e) => Err(e)
        case Ok(last) => Ok(before + last)
  }

  /** Results combined in turn: the first error, or the texts joined. */
  function Chain(results: seq<Result<string>>): Result<string> {
    if results == [] then Ok("")
    else
      match Chain(results[..|results| - 1])
      case Err(e) => Err(e)
      case Ok(before) =>
        match results[|results| - 1]
        case Err(e) => Err(e)
        case Ok(last) => Ok(before + last)
  }

  /** A chain succeeds iff every result does; otherwise it fails with the first error. */
  lemma {:induction false} ChainOutcome(results: seq<Result<string>>)
    ensures Chain(results).Ok? <==> forall i :: 0 <= i < |results| ==> results[i].Ok?
    ensures Chain(results).Err? ==>
      exists i :: 0 <= i < |results| && results[i] == Err(Chain(results).message)
        && forall j :: 0 <= j < i ==> results[j].Ok?
    decreases |results|
  {
    if results != [] {
      var init := results[..|results| - 1];
      ChainOutcome(init);
      assert forall i :: 0 <= i < |init| ==> init[i] == results[i];
    }
  }

  /** Each element of a list rendered on its own. */
  function ElementResults(host: Host, items: seq<Value>, slots: OMap<string, SlotDefinition>, entity: Option<Subject>): (r: seq<Result<string>>)
    ensures |r| == |items|
  {
    seq(|items|, i requires 0 <= i < |items| => ElementHtml(host, items[i], slots, entity))
  }

  /** A list renders as the chain of its elements rendered one by one. */
  lemma {:induction false} ChildrenChain(host: Host, items: seq<Value>, slots: OMap<string, SlotDefinition>, entity: Option<Subject>)
    ensures ChildrenHtml(host, items, slots, entity) == Chain(ElementResults(host, items, slots, entity))
    decreases |items|
  {
    if items != [] {
      var init := items[..|items| - 1];
      ChildrenChain(host, init, slots, entity);
      assert ElementResults(host, items, slots, entity)[..|items| - 1] == ElementResults(host, init, slots, entity);
    }
  }

  /**
   * A list renders iff each element renders; when one throws, the list throws
   * the error of the first one that does.
   */
  lemma ChildrenOutcome(host: Host, items: seq<Value>, slots: OMap<string, SlotDefinition>, entity: Option<Subject>)
    ensures ChildrenHtml(host, items, slots, entity).Ok? <==> forall i :: 0 <= i < |items| ==> ElementHtml(host, items[i], slots, entity).Ok?
    ensures ChildrenHtml(host, items, slots, entity).Err? ==>
      exists i :: 0 <= i < |items| && ElementHtml(host, items[i], slots, entity) == Err(ChildrenHtml(host, items, slots, entity).message)
        && forall j :: 0 <= j < i ==> ElementHtml(host, items[j], slots, entity).Ok?
  {
    var results := ElementResults(host, items, slots, entity);
    ChildrenChain(host, items, slots, entity);
    ChainOutcome(results);
    assert forall i :: 0 <= i < |items| ==> results[i] == ElementHtml(host, items[i], slots, entity);
    if Chain(results).Err? {
      var i :| 0 <= i < |results| && results[i] == Err(Chain(results).message) && forall j :: 0 <= j < i ==> results[j].Ok?;
      assert ElementHtml(host, items[i], slots, entity) == Err(ChildrenHtml(host, items, slots, entity).message);
    }
  }

  /** Rendering one more element appends its markup. */
  lemma ChildrenSnoc(host: Host, items: seq<Value>, i: nat, slots: OMap<string, SlotDefinition>, entity: Option<Subject>)
    requires i < |items|
    ensures ChildrenHtml(host, items[..i + 1], slots, entity) ==
      match ChildrenHtml(host, items[..i], slots, entity)
      case Err(e) => Err(e)
      case Ok(before) =>
        match ElementHtml(host, items[i], slots, entity)
        case Err(e) => Err(e)
        case Ok(last) => Ok(before + last)
  {
    assert items[..i + 1][..i] == items[..i];
  }

  /** The opening tag comes first and the closing tag, if any, last; a void tag gets none. */
  lemma ElementShape(host: Host, element: Value, slots: OMap<string, SlotDefinition>, entity: Option<Subject>)
    requires ElementHtml(host, element, slots, entity).Ok?
    ensures var html := ElementHtml(host, element, slots, entity).value;
      var tag := GetProp(element, "element");
      StartsWith(html, OpenTag(host, tag, Defaulted(GetProp(element, "attributes"), Obj([])), GetProp(element, "slot"), slots))
      && |CloseTag(host, tag)| <= |html| && html[|html| - |CloseTag(host, tag)|..] == CloseTag(host, tag)
      && (CloseTag(host, tag) == "" <==> tag.Str? && tag.s in VoidTags)
  {
    var html := ElementHtml(host, element, slots, entity).value;
    var tag := GetProp(element, "element");
    var slot := GetProp(element, "slot");
    var open := OpenTag(host, tag, Defaulted(GetProp(element, "attributes"), Obj([])), slot, slots);
    var close := CloseTag(host, tag);
    var content := (if Binds(slot, slots) then SlotContent(host, slots.entries[slot.s], tag, entity) else Ok("")).value;
    var inner := ChildrenHtml(host, ChildrenOf(element).value, slots, entity).value;
    assert html == open + content + inner + close;
    Framed(open, content, inner, close);
  }

  // ---------------------------------------------------------------------------
  // Slot content
  // ---------------------------------------------------------------------------

  /** `v.length` for a value that is neither `null` nor `undefined`. */
  function LengthValue(v: Value): Value {
    match v
    case Arr(items) => Num(|items| as real)
    case Str(s) => Num(|s| as real)
    case Obj(_) => GetProp(v, "length")
    case _ => Undefined
  }

  /** `v > 0` for a number or a boolean; any other value is taken as not positive. */
  predicate IsPositive(v: Value) {
    match v
    case Num(r) => r > 0.0
    case Bool(b) => b
    case _ => false
  }

  /** `<option value="value">label</option>`; an object option gives its `value` and `label`. */
  function OptionTag(host: Host, option: Value): string {
    var isObject := TypeOf(option) == "object";
    var value := if isObject then GetProp(option, "value") else option;
    var caption := if isObject then GetProp(option, "label") else option;
    "<option value=\"" + ToText(host, value) + "\">" + ToText(host, caption) + "</option>"
  }

  /** The options of a select written in turn; reading `value` of a `null` option throws. */
  function OptionsHtml(host: Host, options: seq<Value>): Result<string> {
    if options == [] then Ok("")
    else
      match OptionsHtml(host, options[..|options| - 1])
      case Err(e) => Err(e)
      case Ok(before) =>
        var last := options[|options| - 1];
        if last.Null? then Err(ReadOfNullish) else Ok(before + OptionTag(host, last))
  }

  /** The strings joined in turn. */
  function Concat(parts: seq<string>): string {
    if parts == [] then "" else Concat(parts[..|parts| - 1]) + parts[|parts| - 1]
  }

  /**
   * The options render iff none is `null`, and then they are the option tags
   * of the options, in order.
   */
  lemma {:induction false} OptionsOutcome(host: Host, options: seq<Value>)
    ensures OptionsHtml(host, options).Ok? <==> forall i :: 0 <= i < |options| ==> !options[i].Null?
    ensures OptionsHtml(host, options).Ok? ==>
      OptionsHtml(host, options).value == Concat(seq(|options|, i requires 0 <= i < |options| => OptionTag(host, options[i])))
    ensures OptionsHtml(host, options).Err? ==> OptionsHtml(host, options).message == ReadOfNullish
    decreases |options|
  {
    OptionsFail(host, options);
    if options != [] {
      var init := options[..|options| - 1];
      OptionsOutcome(host, init);
      var tags := seq(|options|, i requires 0 <= i < |options| => OptionTag(host, options[i]));
      var initTags := seq(|init|, i requires 0 <= i < |init| => OptionTag(host, init[i]));
      assert tags[..|tags| - 1] == initTags;
      assert forall i :: 0 <= i < |init| ==> init[i] == options[i];
    }
  }

  /** The options fail to render, reading `value` of `null`, iff one of them is `null`. */
  lemma {:induction false} OptionsFail(host: Host, options: seq<Value>)
    ensures OptionsHtml(host, options).Ok? <==> forall i :: 0 <= i < |options| ==> !options[i].Null?
    ensures OptionsHtml(host, options).Err? ==> OptionsHtml(host, options).message == ReadOfNullish
    decreases |options|
  {
    if options != [] {
      var init := options[..|options| - 1];
      OptionsFail(host, init);
      assert forall i :: 0 <= i < |init| ==> init[i] == options[i];
    }
  }

  /** The text an entity gives a slot path `Type.attribute`: its value when the entity has that type and attribute, `''` otherwise. */
  function EntityText(host: Host, path: string, entity: Option<Subject>): string {
    if entity.None? || path == "" then ""
    else
      var parts := Split(path, '.');
      if entity.value.entityType == parts[0] && |parts| > 1 && parts[1] in entity.value.values then
        var v := entity.value.values[parts[1]];
        if v.Null? then "" else ToText(host, v)
      else ""
  }

  /** The text of a slot: the entity's, else the placeholder, else the default value, else `{{path}}`. */
  function TextContent(host: Host, slot: SlotDefinition, entity: Option<Subject>): string {
    var found := EntityText(host, slot.path, entity);
    if found != "" then found
    else ToText(host, Or(Str(slot.placeholder), Or(slot.defaultValue, Str("{{" + (if slot.path == "" then "slot" else slot.path) + "}}"))))
  }

  /** `generateSlotContent(slotDef, tagName, entity)` */
  function SlotContent(host: Host, slot: SlotDefinition, tag: Value, entity: Option<Subject>): Result<string> {
    if tag == Str("input") then Ok("")
    else if tag == Str("select") && IsNullish(slot.options) then Err(ReadOfNullish)
    else if tag == Str("select") && IsPositive(LengthValue(slot.options)) then
      match ArraySpread(slot.options)
      case Err(e) => Err(e)
      case Ok(options) => OptionsHtml(host, options)
    else Ok(TextContent(host, slot, entity))
  }

  /**
   * Only a matching entity supplies a slot's text: a non-empty entity text
   * means the entity has the path's type and attribute.
   */
  lemma EntityTextSource(host: Host, path: string, entity: Option<Subject>)
    ensures EntityText(host, path, entity) != "" ==>
      entity.Some? && path != "" && |Split(path, '.')| > 1
      && entity.value.entityType == Split(path, '.')[0] && Split(path, '.')[1] in entity.value.values
      && EntityText(host, path, entity) == ToText(host, entity.value.values[Split(path, '.')[1]])
  {
  }

  /** A path `Type.attribute` without further dots splits into its type and its attribute. */
  lemma PathParts(entityType: string, attribute: string)
    requires '.' !in entityType && '.' !in attribute
    ensures Split(entityType + "." + attribute, '.') == [entityType, attribute]
  {
    var path := entityType + "." + attribute;
    assert path[|entityType|] == '.';
    assert path[..|entityType|] == entityType;
    assert IndexOf(path, '.') == Some(|entityType|);
    assert path[|entityType| + 1..] == attribute;
    SplitWithoutSeparator(attribute, '.');
  }

  /**
   * An entity of the path's type that has the attribute supplies its value, unless it
   * is `null` or prints as `''`; then the placeholder, the default value and `{{path}}`
   * take over in that order.
   */
  lemma TextContentFallback(host: Host, slot: SlotDefinition, entityType: string, attribute: string, entity: Subject)
    requires slot.path == entityType + "." + attribute && '.' !in entityType && '.' !in attribute
    ensures var v := if entity.entityType == entityType && attribute in entity.values then entity.values[attribute] else Null;
      TextContent(host, slot, Some(entity)) ==
        if !v.Null? && ToText(host, v) != "" then ToText(host, v)
        else if slot.placeholder != "" then slot.placeholder
        else if Truthy(slot.defaultValue) then ToText(host, slot.defaultValue)
        else "{{" + slot.path + "}}"
  {
    PathParts(entityType, attribute);
  }

  // ---------------------------------------------------------------------------
  // The module markup
  // ---------------------------------------------------------------------------

  /** The container's opening tag. */
  function ContainerOpen(moduleId: string): string {
    "<div class" + "=\"module-" + "container\" " + "data-module-id=\"" + moduleId + "\">"
  }

  /** `generateLayoutSection(sectionType, sectionConfig, slots, entity)` */
  function SectionHtml(host: Host, sectionType: string, config: Value, slots: OMap<string, SlotDefinition>, entity: Option<Subject>): Result<string> {
    var elements := GetProp(config, "elements");
    var open := "<div class=\"module-" + sectionType + "\">";
    if !Truthy(elements) then Ok(open + "</div>")
    else
      match ArraySpread(elements)
      case Err(e) => Err(e)
      case Ok(items) =>
        match ChildrenHtml(host, items, slots, entity)
        case Err(e) => Err(e)
        case Ok(inner) => Ok(open + inner + "</div>")
  }

  /** `layout.elements && layout.elements.length > 0` */
  predicate HasBody(layout: Value) {
    var elements := GetProp(layout, "elements");
    Truthy(elements) && IsPositive(LengthValue(elements))
  }

  /** The body of the module: its elements inside `<div class="module-body">`, or nothing. */
  function BodyHtml(host: Host, layout: Value, slots: OMap<string, SlotDefinition>, entity: Option<Subject>): Result<string> {
    if !HasBody(layout) then Ok("")
    else
      match ArraySpread(GetProp(layout, "elements"))
      case Err(e) => Err(e)
      case Ok(items) =>
        match ChildrenHtml(host, items, slots, entity)
        case Err(e) => Err(e)
        case Ok(inner) => Ok("<div class=\"module-body\">" + inner + "</div>")
  }

  /** A section of the layout when it is present, nothing otherwise. */
  function OptionalSection(host: Host, sectionType: string, config: Value, slots: OMap<string, SlotDefinition>, entity: Option<Subject>): Result<string> {
    if Truthy(config) then SectionHtml(host, sectionType, config, slots, entity) else Ok("")
  }

  /** The body is written iff the layout has elements, and then it is the body `div`. */
  lemma BodyPresence(host: Host, layout: Value, slots: OMap<string, SlotDefinition>, entity: Option<Subject>)
    requires BodyHtml(host, layout, slots, entity).Ok?
    ensures var body := BodyHtml(host, layout, slots, entity).value;
      (body == "" <==> !HasBody(layout))
      && (HasBody(layout) ==> StartsWith(body, "<div class=\"module-body\">") && body[|body| - 6..] == "</div>")
  {
  }

  /** A section, when present, is a `div` of class `module-<type>`. */
  lemma SectionShape(host: Host, sectionType: string, config: Value, slots: OMap<string, SlotDefinition>, entity: Option<Subject>)
    requires OptionalSection(host, sectionType, config, slots, entity).Ok?
    ensures var s := OptionalSection(host, sectionType, config, slots, entity).value;
      (s == "" <==> !Truthy(config))
      && (Truthy(config) ==> StartsWith(s, "<div class=\"module-" + sectionType + "\">") && s[|s| - 6..] == "</div>")
  {
  }

  /** An id made of letters, digits, `-` and `_` holds no `<`, `>` or line break. */
  lemma IdCharacters(moduleId: string)
    requires IsValidModuleId(moduleId)
    ensures '<' !in moduleId && '>' !in moduleId && '\n' !in moduleId
  {
    forall i | 0 <= i < |moduleId| ensures moduleId[i] != '<' && moduleId[i] != '>' && moduleId[i] != '\n' {
      assert IsIdChar(moduleId[i]);
    }
  }

  /** The container tag of a well-formed id is a clean line of its own. */
  lemma ContainerClean(moduleId: string)
    requires IsValidModuleId(moduleId)
    ensures var c := ContainerOpen(moduleId);
      c[0] == '<' && c[|c| - 1] == '>' && '\n' !in c && Unbroken(c)
  {
    var c := ContainerOpen(moduleId);
    IdCharacters(moduleId);
    var p1, p2, p3, p4 := "<div class", "=\"module-", "container\" ", "data-module-id=\"";
    assert '>' !in p1 && '\n' !in p1 && '>' !in p2 && '\n' !in p2;
    assert '>' !in p3 && '\n' !in p3 && '>' !in p4 && '\n' !in p4;
    var front := p1 + p2 + p3 + p4 + moduleId + "\"";
    assert c == front + ">";
    assert '>' !in front && '\n' !in front;
    assert c[0] == p1[0] == '<';
    assert '\n' !in c by {
      assert forall i :: 0 <= i < |c| - 1 ==> c[i] == front[i];
    }
    forall i | 0 <= i < |c| - 1 ensures !TagPairAt(c, i) {
      assert c[i] == front[i];
    }
  }

  /** What follows the container tag: header, body, footer and the container's end. */
  function Contents(host: Host, layout: Value, slots: OMap<string, SlotDefinition>, entity: Option<Subject>): Result<string> {
    match OptionalSection(host, "header", GetProp(layout, "header"), slots, entity)
    case Err(e) => Err(e)
    case Ok(header) =>
      match BodyHtml(host, layout, slots, entity)
      case Err(e) => Err(e)
      case Ok(body) =>
        match OptionalSection(host, "footer", GetProp(layout, "footer"), slots, entity)
        case Err(e) => Err(e)
        case Ok(footer) => Ok(header + body + footer + "</div>")
  }

  /** The markup `generateHTML` builds before formatting it. */
  function Markup(host: Host, moduleId: string, layout: Value, slots: OMap<string, SlotDefinition>, entity: Option<Subject>): Result<string> {
    if IsNullish(layout) then Err(ReadOfNullish)
    else
      match Contents(host, layout, slots, entity)
      case Err(e) => Err(e)
      case Ok(contents) => Ok(ContainerOpen(moduleId) + contents)
  }

  /** `generateHTML(moduleDefinition, entity)` */
  function GeneratedHtml(host: Host, moduleId: string, layout: Value, slots: OMap<string, SlotDefinition>, entity: Option<Subject>): (r: Result<string>)
    ensures r.Ok? ==> !IsNullish(layout)
  {
    match Markup(host, moduleId, layout, slots, entity)
    case Err(e) => Err(e)
    case Ok(markup) => Ok(FormatHtml(markup))
  }

  /** What follows the container tag opens with a tag: the header's, the body's, the footer's or the container's end. */
  lemma ContentsStartWithTag(host: Host, layout: Value, slots: OMap<string, SlotDefinition>, entity: Option<Subject>)
    requires Contents(host, layout, slots, entity).Ok?
    ensures var r := Contents(host, layout, slots, entity).value; r != [] && r[0] == '<'
  {
    var header := OptionalSection(host, "header", GetProp(layout, "header"), slots, entity).value;
    var body := BodyHtml(host, layout, slots, entity).value;
    var footer := OptionalSection(host, "footer", GetProp(layout, "footer"), slots, entity).value;
    SectionShape(host, "header", GetProp(layout, "header"), slots, entity);
    BodyPresence(host, layout, slots, entity);
    SectionShape(host, "footer", GetProp(layout, "footer"), slots, entity);
    assert Contents(host, layout, slots, entity).value == header + body + footer + "</div>";
  }

  /**
   * The generated markup of a module with a well-formed id starts with the
   * container tag alone on its first line, unindented.
   */
  lemma ContainerFirst(host: Host, moduleId: string, layout: Value, slots: OMap<string, SlotDefinition>, entity: Option<Subject>)
    requires IsValidModuleId(moduleId) && GeneratedHtml(host, moduleId, layout, slots, entity).Ok?
    ensures StartsWith(GeneratedHtml(host, moduleId, layout, slots, entity).value, ContainerOpen(moduleId) + "\n")
  {
    var rest := Contents(host, layout, slots, entity).value;
    ContentsStartWithTag(host, layout, slots, entity);
    ContainerClean(moduleId);
    FirstLine(ContainerOpen(moduleId), rest);
  }

  // ---------------------------------------------------------------------------
  // The style sheet
  // ---------------------------------------------------------------------------

  /** The declarations of each theme. */
  const ThemeTable: seq<(string, string)> := [
    ("minimal", "\n  background: #ffffff;\n  border: 1px solid #e0e0e0;\n  border-radius: 4px;\n  color: #333333;"),
    ("modern", "\n  background: #ffffff;\n  border: none;\n  border-radius: 8px;\n  box-shadow: 0 2px 8px rgba(0,0,0,0.1);\n  color: #2c3e50;"),
    ("classic", "\n  background: #f8f9fa;\n  border: 2px solid #dee2e6;\n  border-radius: 0;\n  color: #495057;"),
    ("dark", "\n  background: #2c3e50;\n  border: 1px solid #34495e;\n  border-radius: 6px;\n  color: #ecf0f1;"),
    ("light", "\n  background: #ffffff;\n  border: 1px solid #f0f0f0;\n  border-radius: 6px;\n  color: #333333;")]

  /** The declarations of each spacing. */
  const SpacingTable: seq<(string, string)> := [
    ("compact", "\n  padding: 8px;\n  gap: 4px;"),
    ("normal", "\n  padding: 16px;\n  gap: 8px;"),
    ("relaxed", "\n  padding: 24px;\n  gap: 16px;")]

  /** The declarations of each layout type. */
  const LayoutTable: seq<(string, string)> := [
    ("card", "\n  display: block;"),
    ("list", "\n  display: flex;\n  flex-direction: column;"),
    ("table", "\n  display: table;\n  width: 100%;"),
    ("form", "\n  display: flex;\n  flex-direction: column;\n  gap: 12px;"),
    ("grid", "\n  display: grid;\n  grid-template-columns: repeat(auto-fit, minmax(200px, 1fr));\n  gap: 16px;"),
    ("custom", "\n  display: block;")]

  /** The entry of a table under a key, if it has one. */
  function TableEntry(table: seq<(string, string)>, key: string): (r: Option<string>)
    ensures r.None? <==> forall i :: 0 <= i < |table| ==> table[i].0 != key
    ensures r.Some? ==> exists i :: 0 <= i < |table| && table[i] == (key, r.value)
  {
    if table == [] then None
    else if table[0].0 == key then Some(table[0].1)
    else
      var r := TableEntry(table[1..], key);
      assert forall i :: 1 <= i < |table| ==> table[1..][i - 1] == table[i];
      r
  }

  /** `table[key] || table[fallback]`, the key being the property key the value converts to. */
  function Styles(host: Host, table: seq<(string, string)>, key: Value, fallback: string): string {
    match TableEntry(table, ToText(host, key))
    case Some(text) => text
    case None => if TableEntry(table, fallback).Some? then TableEntry(table, fallback).value else ""
  }

  /** The rules for editable and required slots: a selector suffix and its declarations. */
  const SlotRules: seq<(string, string)> := [
    ("[data-editable=\"true\"]", "  cursor: pointer;\n  transition: background-color 0.2s;\n"),
    ("[data-editable=\"true\"]:hover", "  background-color: rgba(0, 123, 255, 0.1);\n"),
    ("[data-required=\"true\"]:empty::after", "  content: \"*\";\n  color: #dc3545;\n  margin-left: 4px;\n")]

  /** A rule scoped to the module both by its `data-module-id` and by its class. */
  function ScopedRule(moduleId: string, rule: (string, string)): string {
    "[data-module-id=\"" + moduleId + "\"] " + rule.0 + ", ." + moduleId + " " + rule.0 + " {\n" + rule.1 + "}\n\n"
  }

  /** The rules written in turn, each scoped to the module. */
  function ScopedRules(moduleId: string, rules: seq<(string, string)>): string {
    if rules == [] then "" else ScopedRules(moduleId, rules[..|rules| - 1]) + ScopedRule(moduleId, rules[|rules| - 1])
  }

  /** The rules for editable and required slots, scoped to the module. */
  function ElementStyles(moduleId: string): string {
    ScopedRules(moduleId, SlotRules)
  }

  /** The declarations of the container rule: position, then theme, spacing and layout type when set. */
  function ContainerDeclarations(host: Host, styling: Value, layout: Value): string {
    var theme := GetProp(styling, "theme");
    var spacing := GetProp(styling, "spacing");
    var layoutType := GetProp(layout, "type");
    "  position: relative;\n"
    + "  box-sizing: border-box;\n"
    + (if Truthy(theme) then Styles(host, ThemeTable, theme, "minimal") else "")
    + (if Truthy(spacing) then Styles(host, SpacingTable, spacing, "normal") else "")
    + (if Truthy(layoutType) then Styles(host, LayoutTable, layoutType, "card") else "")
  }

  /** The custom rules, when set. */
  function CustomStyles(host: Host, styling: Value): string {
    var custom := GetProp(styling, "custom");
    if Truthy(custom) then "/* Stili custom */\n" + ToText(host, custom) + "\n" else ""
  }

  /** The rule for the container itself. */
  function ContainerRule(host: Host, moduleId: string, styling: Value, layout: Value): string {
    "[data-module-id=\"" + moduleId + "\"], ." + moduleId + " {\n" + ContainerDeclarations(host, styling, layout) + "}\n\n"
  }

  /** `generateCSS(moduleDefinition)` */
  function GeneratedCss(host: Host, moduleId: string, styling: Value, layout: Value): (r: Result<string>)
    ensures r.Ok? <==> !IsNullish(styling) && !IsNullish(layout)
    ensures r.Ok? ==> StartsWith(r.value, "/* Stili per modulo " + moduleId + " */\n")
  {
    if IsNullish(styling) || IsNullish(layout) then Err(ReadOfNullish)
    else
      var head := "/* Stili per modulo " + moduleId + " */\n";
      var css := head + ContainerRule(host, moduleId, styling, layout) + ElementStyles(moduleId) + CustomStyles(host, styling);
      assert css[..|head|] == head;
      Ok(css)
  }

  /** The themes with declarations are the themes the validator accepts, in the same order. */
  lemma ThemeTableMatchesValidator()
    ensures KeysOf(ThemeTable) == Themes
  {
  }

  /** The spacings with declarations are the spacings the validator accepts, in the same order. */
  lemma SpacingTableMatchesValidator()
    ensures KeysOf(SpacingTable) == Spacings
  {
  }

  /** The layout types with declarations are the layout types the validator accepts, in the same order. */
  lemma LayoutTableMatchesValidator()
    ensures KeysOf(LayoutTable) == LayoutTypes
  {
  }

  /**
   * A key the table has gets its own declarations; any other key gets the
   * fallback's.
   */
  lemma StylesLookup(host: Host, table: seq<(string, string)>, key: Value, fallback: string)
    requires Distinct(KeysOf(table))
    ensures forall i :: 0 <= i < |table| && table[i].0 == ToText(host, key) ==> Styles(host, table, key, fallback) == table[i].1
    ensures (forall i :: 0 <= i < |table| ==> table[i].0 != ToText(host, key)) ==>
      Styles(host, table, key, fallback) == if TableEntry(table, fallback).Some? then TableEntry(table, fallback).value else ""
  {
    forall i | 0 <= i < |table| && table[i].0 == ToText(host, key) ensures Styles(host, table, key, fallback) == table[i].1 {
      var j :| 0 <= j < |table| && table[j] == (ToText(host, key), TableEntry(table, ToText(host, key)).value);
      assert KeysOf(table)[i] == KeysOf(table)[j];
    }
  }

  /** The style sheet ends with the custom rules when they are set, and with the element rules otherwise. */
  lemma CssEnding(host: Host, moduleId: string, styling: Value, layout: Value)
    requires GeneratedCss(host, moduleId, styling, layout).Ok?
    ensures var css := GeneratedCss(host, moduleId, styling, layout).value;
      var tail := ElementStyles(moduleId) + CustomStyles(host, styling);
      |tail| <= |css| && css[|css| - |tail|..] == tail
  {
    var css := GeneratedCss(host, moduleId, styling, layout).value;
    var tail := ElementStyles(moduleId) + CustomStyles(host, styling);
    var front := "/* Stili per modulo " + moduleId + " */\n" + ContainerRule(host, moduleId, styling, layout);
    AppendAssociates(front, ElementStyles(moduleId), CustomStyles(host, styling));
    assert (front + tail)[|front|..] == tail;
  }
}
