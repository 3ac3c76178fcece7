/**
 * `ModuleDefinition` and `SlotDefinition`: the parsed form of a module
 * descriptor (`mod.json`), its validation, the queries over its slot paths
 * and its serialisation.
 */
module ModuleDefinitions {
  import opened Wrappers
  import opened JsValues
  import opened JsStrings
  import opened OrderedMaps
  import opened PropertyOrder

  // ---------------------------------------------------------------------------
  // The regular expressions of the validators
  // ---------------------------------------------------------------------------

  /** `[a-z0-9-]` */
  predicate IsIdChar(c: char) {
    IsLower(c) || IsDigit(c) || c == '-'
  }

  /** `/^[a-z0-9-]+$/` */
  predicate IsValidModuleId(id: string) {
    |id| > 0 && forall i :: 0 <= i < |id| ==> IsIdChar(id[i])
  }

  /** `\d+` */
  predicate IsNumeral(s: string) {
    |s| > 0 && AllDigits(s)
  }

  /** `\d+\.\d+\.\d+`: three numerals between two dots. */
  predicate IsTriple(s: string) {
    var parts := Split(s, '.');
    |parts| == 3 && IsNumeral(parts[0]) && IsNumeral(parts[1]) && IsNumeral(parts[2])
  }

  /** `[a-zA-Z0-9-]` */
  predicate IsTagChar(c: char) {
    IsAlnum(c) || c == '-'
  }

  /** `(-[a-zA-Z0-9-]+)?`: nothing, or a dash and at least one tag character. */
  predicate IsPreRelease(s: string) {
    s == [] || (|s| > 1 && s[0] == '-' && forall i :: 1 <= i < |s| ==> IsTagChar(s[i]))
  }

  /**
   * `/^\d+\.\d+\.\d+(-[a-zA-Z0-9-]+)?$/`: the triple has no dash, so the first
   * dash, if any, starts the pre-release part.
   */
  predicate IsValidVersion(v: string) {
    match IndexOf(v, '-')
    case None => IsTriple(v)
    case Some(k) => IsTriple(v[..k]) && IsPreRelease(v[k..])
  }

  /** `/^\^?\d+\.\d+\.\d+$/` */
  predicate IsCaretRange(v: string) {
    IsTriple(v) || (|v| > 0 && v[0] == '^' && IsTriple(v[1..]))
  }

  /** `/^~\d+\.\d+\.\d+$/` */
  predicate IsTildeRange(v: string) {
    |v| > 0 && v[0] == '~' && IsTriple(v[1..])
  }

  /** `/^>=?\d+\.\d+\.\d+$/` and `/^<=?\d+\.\d+\.\d+$/`, for `op` the comparison character. */
  predicate IsBoundRange(v: string, op: char) {
    |v| > 0 && v[0] == op && (IsTriple(v[1..]) || (|v| > 1 && v[1] == '=' && IsTriple(v[2..])))
  }

  /** `/^\d+\.\d+\.\d+ - \d+\.\d+\.\d+$/`: a triple has no space, so the separator occurs once. */
  predicate IsHyphenRange(v: string) {
    var parts := SplitText(v, " - ");
    |parts| == 2 && IsTriple(parts[0]) && IsTriple(parts[1])
  }

  /** `isValidVersionRange`: one of the six patterns matches. */
  predicate IsValidVersionRange(v: string) {
    IsTriple(v) || IsCaretRange(v) || IsTildeRange(v) || IsBoundRange(v, '>') || IsBoundRange(v, '<') || IsHyphenRange(v)
  }

  /** `isValidPath`, `/^[A-Z][a-zA-Z0-9]*\.[a-zA-Z][a-zA-Z0-9_]*$/`: an entity type and an attribute name. */
  predicate IsValidPath(path: string) {
    var parts := Split(path, '.');
    |parts| == 2 && IsEntityTypeName(parts[0]) && IsAttributeName(parts[1])
  }

  /** `[A-Z][a-zA-Z0-9]*` */
  predicate IsEntityTypeName(s: string) {
    |s| > 0 && IsUpper(s[0]) && forall i :: 0 <= i < |s| ==> IsAlnum(s[i])
  }

  /** `[a-zA-Z][a-zA-Z0-9_]*` */
  predicate IsAttributeName(s: string) {
    |s| > 0 && (IsLower(s[0]) || IsUpper(s[0])) && forall i :: 0 <= i < |s| ==> IsWordChar(s[i])
  }

  /** Splitting at a separator that does not occur before it: the part before, then the split of the rest. */
  lemma SplitAt(x: string, c: char, y: string)
    requires c !in x
    ensures Split(x + [c] + y, c) == [x] + Split(y, c)
  {
    var s := x + [c] + y;
    assert s[..|x|] == x && s[|x|] == c && s[|x| + 1..] == y;
    assert forall j :: |x| < j <= |s| ==> s[..j][|x|] == c;
    assert IndexOf(s, c) == Some(|x|);
  }

  /** A numeral has no dot and no dash. */
  lemma NumeralPlain(s: string)
    requires IsNumeral(s)
    ensures '.' !in s && '-' !in s && ' ' !in s
  {
    assert forall i :: 0 <= i < |s| ==> s[i] != '.' && s[i] != '-' && s[i] != ' ';
  }

  /** Three numerals joined by dots form a triple, and split back into themselves. */
  lemma TripleOf(a: string, b: string, c: string)
    requires IsNumeral(a) && IsNumeral(b) && IsNumeral(c)
    ensures IsTriple(a + "." + b + "." + c)
    ensures Split(a + "." + b + "." + c, '.') == [a, b, c]
    ensures '-' !in a + "." + b + "." + c && ' ' !in a + "." + b + "." + c
  {
    NumeralPlain(a);
    NumeralPlain(b);
    NumeralPlain(c);
    var bc := b + ['.'] + c;
    var t := a + ['.'] + bc;
    assert a + "." + b + "." + c == t;
    SplitWithoutSeparator(c, '.');
    SplitAt(b, '.', c);
    SplitAt(a, '.', bc);
    assert Split(t, '.') == [a, b, c];
  }

  /** A triple is a dotted numeral: it has no dash and no space. */
  lemma TriplePlain(s: string)
    requires IsTriple(s)
    ensures '-' !in s && ' ' !in s
  {
    var p := Split(s, '.');
    NumeralPlain(p[0]);
    NumeralPlain(p[1]);
    NumeralPlain(p[2]);
    assert p[1..][1..] == [p[2]];
    assert Join(p[1..], ".") == p[1] + "." + p[2];
    assert s == p[0] + "." + (p[1] + "." + p[2]);
  }

  /**
   * Every version `major.minor.patch` with an optional `-tag` suffix is valid,
   * numerals with leading zeros included (which Semantic Versioning 2.0.0,
   * section 2, forbids).
   */
  lemma {:induction false} VersionOf(a: string, b: string, c: string, pre: string)
    requires IsNumeral(a) && IsNumeral(b) && IsNumeral(c) && IsPreRelease(pre)
    ensures IsValidVersion(a + "." + b + "." + c + pre)
  {
    var t := a + "." + b + "." + c;
    var v := t + pre;
    TripleOf(a, b, c);
    if pre == [] {
      assert v == t;
    } else {
      assert v[..|t|] == t && v[|t|] == '-' && v[|t|..] == pre;
      assert forall j :: |t| < j <= |v| ==> v[..j][|t|] == '-';
      assert IndexOf(v, '-') == Some(|t|);
    }
  }

  /** A valid version is a triple followed by an optional pre-release part, with nothing else. */
  lemma VersionParts(v: string)
    requires IsValidVersion(v)
    ensures var core := VersionCore(v);
      IsTriple(core) && IsPreRelease(v[|core|..]) && v == core + v[|core|..]
  {
  }

  /** The triple at the head of a version. */
  function VersionCore(v: string): (core: string)
    ensures |core| <= |v| && core == v[..|core|]
  {
    match IndexOf(v, '-')
    case None => v
    case Some(k) => v[..k]
  }

  /** A version without a pre-release part is also a valid dependency range, of the exact form. */
  lemma PlainVersionIsRange(v: string)
    requires IsValidVersion(v) && '-' !in v
    ensures IsValidVersionRange(v) && IsTriple(v)
  {
  }

  /** Every exact version also matches the caret pattern, whose `^` is optional. */
  lemma ExactIsCaret(v: string)
    requires IsTriple(v)
    ensures IsCaretRange(v)
  {
  }

  /** The range operators in front of a triple. */
  lemma RangeForms(t: string)
    requires IsTriple(t)
    ensures IsValidVersionRange("^" + t) && IsValidVersionRange("~" + t)
    ensures IsValidVersionRange(">" + t) && IsValidVersionRange(">=" + t)
    ensures IsValidVersionRange("<" + t) && IsValidVersionRange("<=" + t)
  {
    CaretForm(t);
    TildeForm(t);
    BoundForms(t, '>');
    BoundForms(t, '<');
  }

  /** `^` in front of a triple. */
  lemma CaretForm(t: string)
    requires IsTriple(t)
    ensures IsValidVersionRange("^" + t)
  {
    assert ("^" + t)[1..] == t;
    assert IsCaretRange("^" + t);
  }

  /** `~` in front of a triple. */
  lemma TildeForm(t: string)
    requires IsTriple(t)
    ensures IsValidVersionRange("~" + t)
  {
    assert ("~" + t)[1..] == t;
    assert IsTildeRange("~" + t);
  }

  /** A comparison character, alone or followed by `=`, in front of a triple. */
  lemma BoundForms(t: string, op: char)
    requires IsTriple(t)
    ensures IsBoundRange([op] + t, op) && IsBoundRange([op, '='] + t, op)
  {
    assert ([op] + t)[1..] == t && ([op, '='] + t)[2..] == t;
  }

  /** A triple has no dot-free prefix that is a path: entity and attribute names, joined, split back. */
  lemma {:induction false} PathOf(entityType: string, attribute: string)
    requires IsEntityTypeName(entityType) && IsAttributeName(attribute)
    ensures IsValidPath(entityType + "." + attribute)
    ensures EntityTypeOf(entityType + "." + attribute) == entityType
    ensures AttributeNameOf(entityType + "." + attribute) == attribute
  {
    NamePlain(entityType);
    NamePlain(attribute);
    SplitWithoutSeparator(attribute, '.');
    SplitAt(entityType, '.', attribute);
    assert entityType + "." + attribute == entityType + ['.'] + attribute;
  }

  /** A valid path is its entity type and its attribute name joined by a dot. */
  lemma PathParts(path: string)
    requires IsValidPath(path)
    ensures IsEntityTypeName(EntityTypeOf(path)) && IsAttributeName(AttributeNameOf(path))
    ensures path == EntityTypeOf(path) + "." + AttributeNameOf(path)
  {
    var p := Split(path, '.');
    assert p[1..][1..] == [];
  }

  lemma PathPartsIfValid(path: string)
    ensures IsValidPath(path) ==> path == EntityTypeOf(path) + "." + AttributeNameOf(path)
  {
    if IsValidPath(path) {
      PathParts(path);
    }
  }

  lemma NamePlain(s: string)
    requires forall i :: 0 <= i < |s| ==> IsWordChar(s[i])
    ensures '.' !in s
  {
    assert forall i :: 0 <= i < |s| ==> s[i] != '.';
  }

  /** `path.split('.')[0]`: the entity type of a path. */
  function EntityTypeOf(path: string): (r: string)
    ensures '.' !in r && StartsWith(path, r)
  {
    var parts := Split(path, '.');
    assert path == parts[0] + (if |parts| == 1 then "" else "." + Join(parts[1..], "."));
    parts[0]
  }

  /** `path.split('.').pop()`: the attribute name of a path. */
  function AttributeNameOf(path: string): (r: string)
    ensures '.' !in r
    ensures '.' !in path ==> r == path
  {
    var parts := Split(path, '.');
    parts[|parts| - 1]
  }

  // ---------------------------------------------------------------------------
  // SlotDefinition
  // ---------------------------------------------------------------------------

  /** A slot's entry in a descriptor; the text fields are `''` when absent. */
  datatype SlotConfig = SlotConfig(
    path: string,
    slotType: string,
    editable: Value,
    required: Value,
    defaultValue: Value,
    placeholder: string,
    labelText: string,
    description: string,
    validation: Value,
    options: Value,
    metadata: Value)

  /** A `SlotDefinition`, which nothing changes after construction. */
  datatype SlotDefinition = SlotDefinition(
    name: string,
    path: string,
    slotType: string,
    editable: bool,
    required: Value,
    defaultValue: Value,
    placeholder: string,
    labelText: string,
    description: string,
    validation: Value,
    options: Value,
    metadata: Value)

  /** `x || fallback` */
  function Or(x: Value, fallback: Value): Value {
    if Truthy(x) then x else fallback
  }

  /** `new SlotDefinition(name, config)`: the defaults of the constructor. */
  function NewSlot(name: string, config: SlotConfig): (s: SlotDefinition)
    ensures s.name == name && s.path == config.path
    ensures s.slotType == if config.slotType == "" then "text" else config.slotType
    ensures s.editable <==> config.editable != Bool(false)
    ensures s.labelText == if config.labelText == "" then name else config.labelText
    ensures Settled(s)
  {
    SlotDefinition(name, config.path, if config.slotType == "" then "text" else config.slotType,
                   config.editable != Bool(false), Or(config.required, Bool(false)), config.defaultValue,
                   config.placeholder, if config.labelText == "" then name else config.labelText, config.description,
                   Or(config.validation, Obj([])), Or(config.options, Arr([])), Or(config.metadata, Obj([])))
  }

  /** What the constructor's defaults guarantee of every slot. */
  ghost predicate Settled(s: SlotDefinition) {
    s.slotType != "" && (Truthy(s.required) || s.required == Bool(false)) && (s.labelText != "" || s.name == "")
    && Truthy(s.validation) && Truthy(s.options) && Truthy(s.metadata)
  }

  /** Errors and warnings of a validation; `isValid` is the absence of errors. */
  datatype Checked = Checked(errors: seq<string>, warnings: seq<string>) {
    predicate IsValid() {
      errors == []
    }
  }

  const SlotTypes: seq<string> := ["text", "number", "integer", "boolean", "email", "url", "date", "select", "textarea", "password"]

  /** `v.length` of a string or an array, `undefined` otherwise. */
  function LengthOf(v: Value): Option<nat> {
    match v
    case Str(s) => Some(|s|)
    case Arr(items) => Some(|items|)
    case _ => None
  }

  /** `validateValidationRules`: each rule that is present must have its type. */
  function RuleErrors(validation: Value): seq<string> {
    RuleError(validation, "min", "number", "Regola validazione min deve essere un numero")
    + RuleError(validation, "max", "number", "Regola validazione max deve essere un numero")
    + RuleError(validation, "minLength", "number", "Regola validazione minLength deve essere un numero")
    + RuleError(validation, "maxLength", "number", "Regola validazione maxLength deve essere un numero")
    + RuleError(validation, "pattern", "string", "Regola validazione pattern deve essere una stringa")
  }

  /** The rules pass iff every numeric rule that is present is a number and a present pattern is a string. */
  lemma RulesTyped(validation: Value)
    ensures RuleErrors(validation) == [] <==>
      Typed(validation, "min", "number") && Typed(validation, "max", "number")
      && Typed(validation, "minLength", "number") && Typed(validation, "maxLength", "number")
      && Typed(validation, "pattern", "string")
  {
  }

  /** A present rule has the kind it must have. */
  predicate Typed(validation: Value, rule: string, kind: string) {
    GetProp(validation, rule).Undefined? || TypeOf(GetProp(validation, rule)) == kind
  }

  function RuleError(validation: Value, rule: string, kind: string, message: string): seq<string> {
    var v := GetProp(validation, rule);
    if !v.Undefined? && TypeOf(v) != kind then [message] else []
  }

  /** `SlotDefinition.validate()` */
  function ValidateSlot(s: SlotDefinition): (r: Checked)
    ensures r.warnings == if s.path == "" then [MissingPathWarning] else []
  {
    var errors :=
      (if s.name == "" then ["Nome slot è obbligatorio"] else [])
      + (if s.path != "" && !IsValidPath(s.path) then [PathError(s.path)] else [])
      + (if s.slotType !in SlotTypes then [SlotTypeError(s.slotType)] else [])
      + (if s.slotType == "select" && (!Truthy(s.options) || LengthOf(s.options) == Some(0)) then [SelectError] else [])
      + (if Truthy(s.validation) then RuleErrors(s.validation) else []);
    Checked(errors, if s.path == "" then [MissingPathWarning] else [])
  }

  /**
   * A slot is valid iff it has a name, its path is absent or well formed, its
   * type is listed, a select has options and its validation rules are typed;
   * a missing path only warns.
   */
  lemma SlotValid(s: SlotDefinition)
    ensures ValidateSlot(s).IsValid() <==>
      s.name != "" && (s.path == "" || IsValidPath(s.path)) && s.slotType in SlotTypes
      && !(s.slotType == "select" && (!Truthy(s.options) || LengthOf(s.options) == Some(0)))
      && (Truthy(s.validation) ==> RuleErrors(s.validation) == [])
    ensures s.path != "" && !IsValidPath(s.path) ==> PathError(s.path) in ValidateSlot(s).errors
    ensures s.slotType !in SlotTypes ==> SlotTypeError(s.slotType) in ValidateSlot(s).errors
    ensures s.slotType == "select" && (!Truthy(s.options) || LengthOf(s.options) == Some(0)) ==> SelectError in ValidateSlot(s).errors
  {
  }

  const MissingPathWarning: string := "Path non specificato - lo slot potrebbe non essere collegato a dati"
  const SelectError: string := "Slot di tipo select deve avere opzioni definite"

  function PathError(path: string): string {
    "Path '" + path + "' non valido. Formato atteso: EntityType.attributeName"
  }

  function SlotTypeError(t: string): string {
    "Tipo '" + t + "' non valido. Tipi supportati: " + Join(SlotTypes, ", ")
  }

  /** `getEntityType()`: `null` for a slot without a path. */
  function SlotEntityType(s: SlotDefinition): (r: Option<string>)
    ensures r.None? <==> s.path == ""
    ensures IsValidPath(s.path) ==> r.Some? && s.path == r.value + "." + AttributeNameOf(s.path)
  {
    if s.path == "" then None
    else
      PathPartsIfValid(s.path);
      Some(EntityTypeOf(s.path))
  }

  /** `getAttributeName()`: `null` for a slot without a path. */
  function SlotAttributeName(s: SlotDefinition): (r: Option<string>)
    ensures r.None? <==> s.path == ""
    ensures IsValidPath(s.path) ==> r.Some? && s.path == EntityTypeOf(s.path) + "." + r.value
  {
    if s.path == "" then None
    else
      PathPartsIfValid(s.path);
      Some(AttributeNameOf(s.path))
  }

  // ---------------------------------------------------------------------------
  // Validation of a module
  // ---------------------------------------------------------------------------

  const LayoutTypes: seq<string> := ["card", "list", "table", "form", "grid", "custom"]
  const ElementTags: seq<string> := ["div", "span", "p", "h1", "h2", "h3", "h4", "h5", "h6", "input", "textarea", "select", "button", "img", "a"]
  const Themes: seq<string> := ["minimal", "modern", "classic", "dark", "light"]
  const Spacings: seq<string> := ["compact", "normal", "relaxed"]

  /** What reading a property of `null` or `undefined` throws. */
  const ReadOfNullish: string := "TypeError: Cannot read properties of null or undefined"

  /** `list.includes(v)` for a list of strings. */
  predicate Listed(v: Value, list: seq<string>) {
    v.Str? && v.s in list
  }

  /** `this.slots.has(v)` */
  predicate Bound(v: Value, slots: OMap<string, SlotDefinition>) {
    v.Str? && v.s in slots.entries
  }

  function ElementLabel(index: nat): string {
    "Elemento " + NatToString(index) + ": "
  }

  /** An element `validateLayoutElement` has nothing against. */
  predicate ElementAccepted(element: Value, slots: OMap<string, SlotDefinition>) {
    var tag := GetProp(element, "element");
    var slot := GetProp(element, "slot");
    Listed(tag, ElementTags) && (!Truthy(slot) || Bound(slot, slots))
    && (tag == Str("input") ==> Truthy(GetProp(GetProp(element, "attributes"), "type")))
  }

  /** `validateLayoutElement(element, index)`; reading a property of a `null` or `undefined` element throws. */
  function ElementErrors(host: Host, element: Value, index: nat, slots: OMap<string, SlotDefinition>): (r: Result<seq<string>>)
    ensures r.Err? <==> IsNullish(element)
    ensures r.Ok? ==> (r.value == [] <==> ElementAccepted(element, slots))
  {
    if IsNullish(element) then Err(ReadOfNullish)
    else
      var tag := GetProp(element, "element");
      var slot := GetProp(element, "slot");
      var prefix := ElementLabel(index);
      Ok((if !Truthy(tag) then [prefix + "'element' è obbligatorio"] else [])
         + (if Truthy(tag) && !Listed(tag, ElementTags) then [prefix + "tipo '" + ToText(host, tag) + "' non supportato"] else [])
         + (if Truthy(slot) && !Bound(slot, slots) then [prefix + "slot '" + ToText(host, slot) + "' non definito"] else [])
         + (if tag == Str("input") && !Truthy(GetProp(GetProp(element, "attributes"), "type"))
            then [prefix + "input deve avere un tipo specificato negli attributi"] else []))
  }

  /** The loop of `validateLayout` over the elements, stopped by the first throw. */
  function ElementsErrors(host: Host, elements: seq<Value>, slots: OMap<string, SlotDefinition>): Result<seq<string>>
    decreases |elements|
  {
    if elements == [] then Ok([])
    else
      match ElementsErrors(host, elements[..|elements| - 1], slots)
      case Err(e) => Err(e)
      case Ok(before) =>
        match ElementErrors(host, elements[|elements| - 1], |elements| - 1, slots)
        case Err(e) => Err(e)
        case Ok(more) => Ok(before + more)
  }

  /** The element loop throws iff some element is `null` or `undefined`. */
  lemma {:induction false} ElementsThrow(host: Host, elements: seq<Value>, slots: OMap<string, SlotDefinition>)
    ensures ElementsErrors(host, elements, slots).Err? <==> exists i :: 0 <= i < |elements| && IsNullish(elements[i])
    decreases |elements|
  {
    if elements != [] {
      var init := elements[..|elements| - 1];
      var last := elements[|elements| - 1];
      ElementsThrow(host, init, slots);
      var before := ElementsErrors(host, init, slots);
      var more := ElementErrors(host, last, |elements| - 1, slots);
      assert ElementsErrors(host, elements, slots).Err? <==> before.Err? || more.Err?;
      SomeSnoc(elements, init, e => IsNullish(e));
    }
  }

  /** The element loop finds nothing iff every element is there and accepted. */
  lemma {:induction false} ElementsPass(host: Host, elements: seq<Value>, slots: OMap<string, SlotDefinition>)
    ensures ElementsErrors(host, elements, slots) == Ok([]) <==> forall i :: 0 <= i < |elements| ==> !IsNullish(elements[i]) && ElementAccepted(elements[i], slots)
    decreases |elements|
  {
    if elements != [] {
      var init := elements[..|elements| - 1];
      var last := elements[|elements| - 1];
      ElementsPass(host, init, slots);
      var before := ElementsErrors(host, init, slots);
      var more := ElementErrors(host, last, |elements| - 1, slots);
      assert ElementsErrors(host, elements, slots) == Ok([]) <==> before == Ok([]) && more == Ok([]) by {
        if before.Ok? && more.Ok? {
          assert ElementsErrors(host, elements, slots) == Ok(before.value + more.value);
          assert |before.value + more.value| == |before.value| + |more.value|;
        } else {
          assert ElementsErrors(host, elements, slots).Err?;
        }
      }
      EverySnoc(elements, init, e => !IsNullish(e) && ElementAccepted(e, slots));
    }
  }

  const NoLayoutType: string := "Layout deve avere un tipo specificato"
  const NoElements: string := "Layout deve avere un array di elementi"

  /** `validateLayout()` */
  function LayoutErrors(host: Host, layout: Value, slots: OMap<string, SlotDefinition>): (r: Result<seq<string>>)
  {
    var t := GetProp(layout, "type");
    var typeErrors := (if !Truthy(t) then [NoLayoutType] else [])
      + (if Truthy(t) && !Listed(t, LayoutTypes)
         then ["Tipo di layout '" + ToText(host, t) + "' non valido. Tipi supportati: " + Join(LayoutTypes, ", ")] else []);
    var elements := GetProp(layout, "elements");
    if !elements.Arr? then Ok(typeErrors + [NoElements])
    else
      match ElementsErrors(host, elements.items, slots)
      case Err(e) => Err(e)
      case Ok(more) => Ok(typeErrors + more)
  }

  /** The layout passes iff its type is listed, its elements are an array and each element is accepted. */
  lemma LayoutAccepted(host: Host, layout: Value, slots: OMap<string, SlotDefinition>)
    ensures LayoutErrors(host, layout, slots) == Ok([]) <==>
      Listed(GetProp(layout, "type"), LayoutTypes) && GetProp(layout, "elements").Arr?
      && var items := GetProp(layout, "elements").items;
         forall i :: 0 <= i < |items| ==> !IsNullish(items[i]) && ElementAccepted(items[i], slots)
    ensures !GetProp(layout, "elements").Arr? ==> LayoutErrors(host, layout, slots).Ok? && NoElements in LayoutErrors(host, layout, slots).value
  {
    var elements := GetProp(layout, "elements");
    if elements.Arr? {
      ElementsPass(host, elements.items, slots);
    }
  }

  /** `validateStyling()` */
  function StylingErrors(host: Host, styling: Value): (r: seq<string>)
    ensures r == [] <==>
      (!Truthy(GetProp(styling, "theme")) || Listed(GetProp(styling, "theme"), Themes))
      && (!Truthy(GetProp(styling, "spacing")) || Listed(GetProp(styling, "spacing"), Spacings))
  {
    var theme := GetProp(styling, "theme");
    var spacing := GetProp(styling, "spacing");
    (if Truthy(theme) && !Listed(theme, Themes)
     then ["Tema '" + ToText(host, theme) + "' non valido. Temi supportati: " + Join(Themes, ", ")] else [])
    + (if Truthy(spacing) && !Listed(spacing, Spacings)
       then ["Spacing '" + ToText(host, spacing) + "' non valido. Valori supportati: " + Join(Spacings, ", ")] else [])
  }

  function DependencyLabel(index: nat): string {
    "Dipendenza " + NatToString(index) + ": "
  }

  /** A dependency `validateDependencies` has nothing against. */
  predicate DependencyAccepted(host: Host, dep: Value) {
    (dep.Str? && IsValidModuleId(dep.s))
    || (TypeOf(dep) == "object" && !dep.Null? && Truthy(GetProp(dep, "module_id")) && Truthy(GetProp(dep, "version"))
        && IsValidVersionRange(ToText(host, GetProp(dep, "version"))))
  }

  /** One turn of the loop of `validateDependencies`; reading a property of a `null` dependency throws. */
  function DependencyErrors(host: Host, dep: Value, index: nat): (r: Result<seq<string>>)
    ensures r.Err? <==> dep.Null?
    ensures r.Ok? ==> (r.value == [] <==> DependencyAccepted(host, dep))
  {
    var prefix := DependencyLabel(index);
    if dep.Str? then
      Ok(if IsValidModuleId(dep.s) then [] else [prefix + "'" + dep.s + "' non è un ID modulo valido"])
    else if TypeOf(dep) == "object" then
      if dep.Null? then Err(ReadOfNullish)
      else
        var id := GetProp(dep, "module_id");
        var version := GetProp(dep, "version");
        Ok((if !Truthy(id) then [prefix + "module_id è obbligatorio"] else [])
           + (if !Truthy(version) then [prefix + "version è obbligatoria"] else [])
           + (if Truthy(version) && !IsValidVersionRange(ToText(host, version))
              then [prefix + "formato versione '" + ToText(host, version) + "' non valido"] else []))
    else Ok([prefix + "formato non valido"])
  }

  /** The loop of `validateDependencies`, stopped by the first throw. */
  function DependenciesErrors(host: Host, deps: seq<Value>): Result<seq<string>>
    decreases |deps|
  {
    if deps == [] then Ok([])
    else
      match DependenciesErrors(host, deps[..|deps| - 1])
      case Err(e) => Err(e)
      case Ok(before) =>
        match DependencyErrors(host, deps[|deps| - 1], |deps| - 1)
        case Err(e) => Err(e)
        case Ok(more) => Ok(before + more)
  }

  const NotAnArray: string := "Dependencies deve essere un array"

  /** `validateDependencies()`: a non-array is one error; otherwise each dependency is checked. */
  function DependencyCheck(host: Host, deps: Value): Result<seq<string>> {
    if !deps.Arr? then Ok([NotAnArray]) else DependenciesErrors(host, deps.items)
  }

  /** The dependency loop throws iff some dependency is `null`. */
  lemma {:induction false} DependenciesThrow(host: Host, deps: seq<Value>)
    ensures DependenciesErrors(host, deps).Err? <==> exists i :: 0 <= i < |deps| && deps[i].Null?
    decreases |deps|
  {
    if deps != [] {
      var init := deps[..|deps| - 1];
      var last := deps[|deps| - 1];
      DependenciesThrow(host, init);
      var before := DependenciesErrors(host, init);
      var more := DependencyErrors(host, last, |deps| - 1);
      assert DependenciesErrors(host, deps).Err? <==> before.Err? || more.Err?;
      SomeSnoc(deps, init, (d: Value) => d.Null?);
    }
  }

  /** The dependency loop finds nothing iff every dependency is accepted. */
  lemma {:induction false} DependenciesPass(host: Host, deps: seq<Value>)
    ensures DependenciesErrors(host, deps) == Ok([]) <==> forall i :: 0 <= i < |deps| ==> DependencyAccepted(host, deps[i])
    decreases |deps|
  {
    if deps != [] {
      var init := deps[..|deps| - 1];
      var last := deps[|deps| - 1];
      DependenciesPass(host, init);
      var before := DependenciesErrors(host, init);
      var more := DependencyErrors(host, last, |deps| - 1);
      assert DependenciesErrors(host, deps) == Ok([]) <==> before == Ok([]) && more == Ok([]) by {
        if before.Ok? && more.Ok? {
          assert DependenciesErrors(host, deps) == Ok(before.value + more.value);
          assert |before.value + more.value| == |before.value| + |more.value|;
        } else {
          assert DependenciesErrors(host, deps).Err?;
        }
      }
      EverySnoc(deps, init, d => DependencyAccepted(host, d));
    }
  }

  /** Some element of a non-empty sequence satisfies `p` iff some element but the last does or the last does. */
  lemma SomeSnoc<T>(s: seq<T>, init: seq<T>, p: T -> bool)
    requires s != [] && init == s[..|s| - 1]
    ensures (exists i :: 0 <= i < |s| && p(s[i])) <==> (exists i :: 0 <= i < |init| && p(init[i])) || p(s[|s| - 1])
  {
    assert forall i :: 0 <= i < |init| ==> init[i] == s[i];
  }

  /** Every element of a non-empty sequence satisfies `p` iff every element but the last does and the last does. */
  lemma EverySnoc<T>(s: seq<T>, init: seq<T>, p: T -> bool)
    requires s != [] && init == s[..|s| - 1]
    ensures (forall i :: 0 <= i < |s| ==> p(s[i])) <==> (forall i :: 0 <= i < |init| ==> p(init[i])) && p(s[|s| - 1])
  {
    assert forall i :: 0 <= i < |init| ==> init[i] == s[i];
  }

  /** `Slot '<name>': ` in front of each message. */
  function UnderSlot(name: string, messages: seq<string>): (r: seq<string>)
  {
    seq(|messages|, i requires 0 <= i < |messages| => "Slot '" + name + "': " + messages[i])
  }

  /** `SlotReports` one slot further; a slot without warnings adds none. */
  lemma SlotReportsStep(keys: seq<string>, entries: map<string, SlotDefinition>, i: nat, c: Checked)
    requires forall k :: k in keys ==> k in entries
    requires i < |keys| && c == ValidateSlot(entries[keys[i]])
    ensures var before := SlotReports(keys[..i], entries);
      SlotReports(keys[..i + 1], entries)
      == Checked(before.errors + (if c.IsValid() then [] else UnderSlot(keys[i], c.errors)),
                 before.warnings + (if |c.warnings| > 0 then UnderSlot(keys[i], c.warnings) else []))
  {
    assert keys[..i + 1][..i] == keys[..i];
    assert UnderSlot(keys[i], []) == [];
  }

  /** Every message under a slot starts with the slot prefix. */
  lemma UnderSlotPrefixed(name: string, messages: seq<string>)
    ensures forall i :: 0 <= i < |messages| ==> StartsWith(UnderSlot(name, messages)[i], "Slot '")
  {
    forall i | 0 <= i < |messages| ensures StartsWith(UnderSlot(name, messages)[i], "Slot '") {
      var rest := name + "': " + messages[i];
      assert UnderSlot(name, messages)[i] == "Slot '" + rest;
      assert ("Slot '" + rest)[..6] == "Slot '";
    }
  }

  /** The loop of `validate` over the slots, in map order. */
  function SlotReports(keys: seq<string>, entries: map<string, SlotDefinition>): Checked
    requires forall k :: k in keys ==> k in entries
    decreases |keys|
  {
    if keys == [] then Checked([], [])
    else
      var before := SlotReports(keys[..|keys| - 1], entries);
      var name := keys[|keys| - 1];
      var c := ValidateSlot(entries[name]);
      Checked(before.errors + (if c.IsValid() then [] else UnderSlot(name, c.errors)),
              before.warnings + UnderSlot(name, c.warnings))
  }

  /** Every slot error carries its slot's prefix. */
  lemma {:induction false} SlotErrorsPrefixed(keys: seq<string>, entries: map<string, SlotDefinition>)
    requires forall k :: k in keys ==> k in entries
    ensures forall i :: 0 <= i < |SlotReports(keys, entries).errors| ==> StartsWith(SlotReports(keys, entries).errors[i], "Slot '")
    decreases |keys|
  {
    if keys != [] {
      var init := keys[..|keys| - 1];
      var name := keys[|keys| - 1];
      SlotErrorsPrefixed(init, entries);
      var before := SlotReports(init, entries).errors;
      var c := ValidateSlot(entries[name]);
      var more := if c.IsValid() then [] else UnderSlot(name, c.errors);
      assert SlotReports(keys, entries).errors == before + more;
      UnderSlotPrefixed(name, c.errors);
    }
  }

  /** The slots add no error iff every slot is valid. */
  lemma {:induction false} SlotErrorsNone(keys: seq<string>, entries: map<string, SlotDefinition>)
    requires forall k :: k in keys ==> k in entries
    ensures SlotReports(keys, entries).errors == [] <==> forall k :: k in keys ==> ValidateSlot(entries[k]).IsValid()
    decreases |keys|
  {
    if keys != [] {
      var init := keys[..|keys| - 1];
      var name := keys[|keys| - 1];
      SlotErrorsNone(init, entries);
      var c := ValidateSlot(entries[name]);
      var more := if c.IsValid() then [] else UnderSlot(name, c.errors);
      assert SlotReports(keys, entries).errors == SlotReports(init, entries).errors + more;
      UnderSlotEmpty(name, c);
      AllValidSplit(keys, entries);
    }
  }

  /** A slot adds errors exactly when it is invalid. */
  lemma UnderSlotEmpty(name: string, c: Checked)
    ensures (if c.IsValid() then [] else UnderSlot(name, c.errors)) == [] <==> c.IsValid()
  {
    assert |UnderSlot(name, c.errors)| == |c.errors|;
  }

  /** All slots are valid iff all but the last are and the last is. */
  lemma AllValidSplit(keys: seq<string>, entries: map<string, SlotDefinition>)
    requires keys != [] && forall k :: k in keys ==> k in entries
    ensures (forall k :: k in keys ==> ValidateSlot(entries[k]).IsValid())
        <==> (forall k :: k in keys[..|keys| - 1] ==> ValidateSlot(entries[k]).IsValid())
             && ValidateSlot(entries[keys[|keys| - 1]]).IsValid()
  {
    assert keys == keys[..|keys| - 1] + [keys[|keys| - 1]];
  }

  const NoIdError: string := "module_id è obbligatorio"
  const NoVersionError: string := "version è obbligatoria"
  const VersionFormatError: string := "version deve seguire il formato semantic versioning (x.y.z)"
  const IdFormatError: string := "module_id deve contenere solo lettere, numeri e trattini"
  const NoSlotsWarning: string := "Il modulo non ha slot definiti"

  /** The checks of `validate` on the id and the version. */
  function HeadErrors(moduleId: string, version: string): seq<string> {
    (if moduleId == "" then [NoIdError] else [])
    + (if version == "" then [NoVersionError] else [])
    + (if version != "" && !IsValidVersion(version) then [VersionFormatError] else [])
    + (if moduleId != "" && !IsValidModuleId(moduleId) then [IdFormatError] else [])
  }

  /** The id and version checks pass iff the id and the version are well formed. */
  lemma HeadAccepted(moduleId: string, version: string)
    ensures HeadErrors(moduleId, version) == [] <==> IsValidModuleId(moduleId) && IsValidVersion(version)
  {
  }

  /** What `validate()` leaves in the error and warning lists, and the error it throws if one escapes. */
  datatype Report = Report(errors: seq<string>, warnings: seq<string>, thrown: Option<string>)

  /** `validate()`: id and version, each slot, the layout, the styling, then the dependencies. */
  function Validation(host: Host, moduleId: string, version: string, slots: OMap<string, SlotDefinition>,
                      layout: Value, styling: Value, deps: Value): Report
    requires slots.Valid()
  {
    var slotReports := SlotReports(slots.keys, slots.entries);
    var warnings := (if |slots.keys| == 0 then [NoSlotsWarning] else []) + slotReports.warnings;
    var (errors, thrown) := LaterChecks(host, HeadErrors(moduleId, version) + slotReports.errors, slots, layout, styling, deps);
    Report(errors, warnings, thrown)
  }

  /** The checks of `validate()` after the slots, appending to `before`: the errors and the error thrown, if any. */
  function LaterChecks(host: Host, before: seq<string>, slots: OMap<string, SlotDefinition>,
                       layout: Value, styling: Value, deps: Value): (seq<string>, Option<string>)
  {
    match LayoutErrors(host, layout, slots)
    case Err(e) => (before, Some(e))
    case Ok(layoutErrors) =>
      var middle := before + layoutErrors + StylingErrors(host, styling);
      match DependencyCheck(host, deps)
      case Err(e) => (middle, Some(e))
      case Ok(depErrors) => (middle + depErrors, None)
  }

  /**
   * A module is valid iff its id and version are, every slot is, its layout
   * passes, its styling passes and its dependencies pass.
   */
  lemma ValidationAccepts(host: Host, moduleId: string, version: string, slots: OMap<string, SlotDefinition>,
                          layout: Value, styling: Value, deps: Value)
    requires slots.Valid()
    ensures var r := Validation(host, moduleId, version, slots, layout, styling, deps);
      r.thrown.None? && r.errors == [] <==>
        IsValidModuleId(moduleId) && IsValidVersion(version)
        && (forall k :: k in slots.keys ==> ValidateSlot(slots.entries[k]).IsValid())
        && LayoutErrors(host, layout, slots) == Ok([]) && StylingErrors(host, styling) == []
        && DependencyCheck(host, deps) == Ok([])
  {
    SlotErrorsNone(slots.keys, slots.entries);
    HeadAccepted(moduleId, version);
  }

  /** A module without slots only gets a warning for it: no slot error, and the warning comes first. */
  lemma NoSlotsOnlyWarns(host: Host, moduleId: string, version: string, slots: OMap<string, SlotDefinition>,
                         layout: Value, styling: Value, deps: Value)
    requires slots.Valid() && slots.keys == []
    ensures var r := Validation(host, moduleId, version, slots, layout, styling, deps);
      r.warnings == [NoSlotsWarning]
      && (r.thrown.None? && LayoutErrors(host, layout, slots).Ok? ==>
            r.errors == HeadErrors(moduleId, version) + LayoutErrors(host, layout, slots).value
                        + StylingErrors(host, styling) + DependencyCheck(host, deps).value)
  {
    assert SlotReports(slots.keys, slots.entries) == Checked([], []);
    assert HeadErrors(moduleId, version) + [] == HeadErrors(moduleId, version);
  }

  // ---------------------------------------------------------------------------
  // Path-segment queries
  // ---------------------------------------------------------------------------

  /** The segment a query takes from a path: the entity type or the attribute name. */
  function Segment(path: string, entityType: bool): string {
    if entityType then EntityTypeOf(path) else AttributeNameOf(path)
  }

  /** The loop of `getSupportedEntityTypes`/`getRequiredAttributes`: distinct segments of the slots with a path, in order. */
  function Segments(slots: seq<SlotDefinition>, entityType: bool): seq<string>
    decreases |slots|
  {
    if slots == [] then []
    else
      var before := Segments(slots[..|slots| - 1], entityType);
      var s := slots[|slots| - 1];
      if s.path == "" || Segment(s.path, entityType) in before then before else before + [Segment(s.path, entityType)]
  }

  /** The segments are distinct. */
  lemma {:induction false} SegmentsDistinct(slots: seq<SlotDefinition>, entityType: bool)
    ensures Distinct(Segments(slots, entityType))
    decreases |slots|
  {
    if slots != [] {
      SegmentsDistinct(slots[..|slots| - 1], entityType);
    }
  }

  /** The segments are exactly those of the slots that have a path. */
  lemma SegmentsMembers(slots: seq<SlotDefinition>, entityType: bool)
    ensures forall i :: 0 <= i < |slots| && slots[i].path != "" ==> Segment(slots[i].path, entityType) in Segments(slots, entityType)
    ensures forall x :: x in Segments(slots, entityType) ==>
      exists i :: 0 <= i < |slots| && slots[i].path != "" && Segment(slots[i].path, entityType) == x
  {
    SegmentsCover(slots, entityType);
    SegmentsFrom(slots, entityType);
  }

  /** The segment of every slot with a path is among the segments. */
  lemma {:induction false} SegmentsCover(slots: seq<SlotDefinition>, entityType: bool)
    ensures forall i :: 0 <= i < |slots| && slots[i].path != "" ==> Segment(slots[i].path, entityType) in Segments(slots, entityType)
    decreases |slots|
  {
    if slots != [] {
      var init := slots[..|slots| - 1];
      SegmentsCover(init, entityType);
      forall i | 0 <= i < |slots| && slots[i].path != "" ensures Segment(slots[i].path, entityType) in Segments(slots, entityType) {
        if i < |init| {
          assert init[i] == slots[i];
        }
      }
    }
  }

  /** Every segment is that of some slot with a path. */
  lemma {:induction false} SegmentsFrom(slots: seq<SlotDefinition>, entityType: bool)
    ensures forall x :: x in Segments(slots, entityType) ==>
      exists i :: 0 <= i < |slots| && slots[i].path != "" && Segment(slots[i].path, entityType) == x
    decreases |slots|
  {
    if slots != [] {
      var init := slots[..|slots| - 1];
      var last := slots[|slots| - 1];
      SegmentsFrom(init, entityType);
      var before := Segments(init, entityType);
      forall x | x in Segments(slots, entityType)
        ensures exists i :: 0 <= i < |slots| && slots[i].path != "" && Segment(slots[i].path, entityType) == x
      {
        if x in before {
          var i :| 0 <= i < |init| && init[i].path != "" && Segment(init[i].path, entityType) == x;
          assert slots[i] == init[i];
        } else {
          assert slots[|slots| - 1] == last;
        }
      }
    }
  }

  /** The result of `isCompatibleWith(entity)`. */
  datatype Compatibility = Compatibility(
    isCompatible: bool, typeCompatible: bool, missingAttributes: seq<string>,
    supportedTypes: seq<string>, requiredAttributes: seq<string>)

  /** `requiredAttributes.filter(attr => !entity.hasAttribute(attr))` */
  function Missing(required: seq<string>, has: set<string>): seq<string> {
    if required == [] then []
    else (if required[0] in has then [] else [required[0]]) + Missing(required[1..], has)
  }

  /** The missing names are exactly the required ones the entity lacks. */
  lemma {:induction false} MissingMembers(required: seq<string>, has: set<string>)
    ensures forall x :: x in Missing(required, has) <==> x in required && x !in has
  {
    if required != [] {
      MissingMembers(required[1..], has);
      assert required == [required[0]] + required[1..];
    }
  }

  /** `isCompatibleWith` for an entity of type `entityType` whose attributes are `has`. */
  function CompatibilityOf(slots: seq<SlotDefinition>, entityType: string, has: set<string>): Compatibility {
    var supported := Segments(slots, true);
    var required := Segments(slots, false);
    var typeOk := |supported| == 0 || entityType in supported;
    var missing := Missing(required, has);
    Compatibility(typeOk && |missing| == 0, typeOk, missing, supported, required)
  }

  /**
   * An entity is compatible iff no slot has a path or some slot's path names
   * its type, and it has the attribute named by every slot's path.
   */
  lemma CompatibleIff(slots: seq<SlotDefinition>, entityType: string, has: set<string>)
    ensures CompatibilityOf(slots, entityType, has).isCompatible <==>
      ((forall i :: 0 <= i < |slots| ==> slots[i].path == "")
       || (exists i :: 0 <= i < |slots| && slots[i].path != "" && EntityTypeOf(slots[i].path) == entityType))
      && (forall i :: 0 <= i < |slots| && slots[i].path != "" ==> AttributeNameOf(slots[i].path) in has)
  {
    SupportedIff(slots, entityType);
    RequiredIff(slots, has);
  }

  /** The type check passes iff no slot has a path or some slot's path names the type. */
  lemma SupportedIff(slots: seq<SlotDefinition>, entityType: string)
    ensures var supported := Segments(slots, true);
      (|supported| == 0 || entityType in supported) <==>
      (forall i :: 0 <= i < |slots| ==> slots[i].path == "")
      || (exists i :: 0 <= i < |slots| && slots[i].path != "" && EntityTypeOf(slots[i].path) == entityType)
  {
    SegmentsMembers(slots, true);
    var supported := Segments(slots, true);
    if |supported| != 0 {
      assert supported[0] in supported;
    }
    assert forall i :: 0 <= i < |slots| ==> Segment(slots[i].path, true) == EntityTypeOf(slots[i].path);
  }

  /** Nothing is missing iff the entity has the attribute named by every slot's path. */
  lemma RequiredIff(slots: seq<SlotDefinition>, has: set<string>)
    ensures |Missing(Segments(slots, false), has)| == 0 <==>
      forall i :: 0 <= i < |slots| && slots[i].path != "" ==> AttributeNameOf(slots[i].path) in has
  {
    SegmentsMembers(slots, false);
    var missing := Missing(Segments(slots, false), has);
    MissingMembers(Segments(slots, false), has);
    if |missing| != 0 {
      assert missing[0] in missing;
    }
    assert forall i :: 0 <= i < |slots| ==> Segment(slots[i].path, false) == AttributeNameOf(slots[i].path);
  }
}
