/**
 * A typed value cell (`Attribute`): writes go through kind-specific coercion,
 * then the registered transformers, then validation, and only then commit.
 */
module Attributes {
  import opened Wrappers
  import opened JsStrings
  import opened JsValues

  /** The closed set of attribute kinds (`attribute.type`), plus any other tag. */
  datatype Kind =
    | TextKind | StringKind | NumberKind | IntegerKind | BooleanKind
    | EmailKind | UrlKind | DateKind | ArrayKind | ObjectKind
    | CustomKind(tag: string)

  function KindName(k: Kind): string {
    match k
    case TextKind => "text"
    case StringKind => "string"
    case NumberKind => "number"
    case IntegerKind => "integer"
    case BooleanKind => "boolean"
    case EmailKind => "email"
    case UrlKind => "url"
    case DateKind => "date"
    case ArrayKind => "array"
    case ObjectKind => "object"
    case CustomKind(t) => t
  }

  predicate IsBuiltInName(s: string) {
    s in {"text", "string", "number", "integer", "boolean", "email", "url", "date", "array", "object"}
  }

  function ParseKind(s: string): Kind {
    match s
    case "text" => TextKind
    case "string" => StringKind
    case "number" => NumberKind
    case "integer" => IntegerKind
    case "boolean" => BooleanKind
    case "email" => EmailKind
    case "url" => UrlKind
    case "date" => DateKind
    case "array" => ArrayKind
    case "object" => ObjectKind
    case _ => CustomKind(s)
  }

  /** A custom tag never spells a built-in kind. */
  predicate WellFormedKind(k: Kind) {
    k.CustomKind? ==> !IsBuiltInName(k.tag)
  }

  /** Every type string names exactly one kind, and reads back unchanged. */
  lemma KindNameRoundTrip(s: string, k: Kind)
    ensures KindName(ParseKind(s)) == s
    ensures WellFormedKind(ParseKind(s))
    ensures WellFormedKind(k) ==> ParseKind(KindName(k)) == k
  {
  }

  /** The metadata record of an attribute once the constructor has filled in its defaults. */
  datatype Metadata = Metadata(
    createdAt: int,
    updatedAt: int,
    source: string,
    required: bool,
    editable: bool,
    minLength: Option<int>,
    maxLength: Option<int>,
    min: Option<real>,
    max: Option<real>,
    /** The source text of a `RegExp` object. */
    pattern: Option<string>,
    /** `Undefined` when no default value is given. */
    defaultValue: Value,
    createdBy: Option<string>)

  /** The metadata object handed to the constructor: each field may be missing. */
  datatype MetadataInput = MetadataInput(
    createdAt: Option<int>,
    updatedAt: Option<int>,
    source: Option<string>,
    required: Option<bool>,
    editable: Option<bool>,
    minLength: Option<int>,
    maxLength: Option<int>,
    min: Option<real>,
    max: Option<real>,
    pattern: Option<string>,
    defaultValue: Value,
    createdBy: Option<string>)

  const NoMetadata := MetadataInput(None, None, None, None, None, None, None, None, None, None, Undefined, None)

  /** `{ createdAt: now, updatedAt: now, source: 'user', required: false, editable: true, ...input }` */
  function MergeMetadata(input: MetadataInput, now: int): (md: Metadata)
    ensures input.createdAt.None? ==> md.createdAt == now
    ensures input.source.None? ==> md.source == "user"
    ensures input.required.None? ==> !md.required
    ensures input.editable.None? ==> md.editable
  {
    Metadata(input.createdAt.GetOr(now), input.updatedAt.GetOr(now), input.source.GetOr("user"),
      input.required.GetOr(false), input.editable.GetOr(true),
      input.minLength, input.maxLength, input.min, input.max, input.pattern,
      input.defaultValue, input.createdBy)
  }

  /** `{ ...metadata }`: a copy with every field present. */
  function AsInput(md: Metadata): MetadataInput {
    MetadataInput(Some(md.createdAt), Some(md.updatedAt), Some(md.source), Some(md.required), Some(md.editable),
      md.minLength, md.maxLength, md.min, md.max, md.pattern, md.defaultValue, md.createdBy)
  }

  /** A copied metadata record survives the constructor's defaults unchanged, whatever the clock says. */
  lemma MergeOfCopy(md: Metadata, now: int)
    ensures MergeMetadata(AsInput(md), now) == md
  {
  }

  /** What a validator function returns: `true`, a message, another value, or it throws. */
  datatype Verdict = Accepts | RejectsWith(message: string) | RejectsSilently | Raises(message: string)

  /**
   * A validator: one of the five installed from metadata (they read the
   * attribute's metadata when they run) or a custom function of the value.
   */
  datatype Validator =
    | MaxLengthRule
    | MinLengthRule
    | MinRule
    | MaxRule
    | PatternRule
    | CustomValidator(check: Value -> Verdict)

  /** A transformer returns a new value, or throws (`None`). */
  datatype Transformer = Transformer(apply: Value -> Option<Value>)

  /** The validators `setupDefaultValidators` installs, in its order. */
  function DefaultValidators(md: Metadata): (vs: seq<Validator>)
    ensures |vs| <= 5
    ensures forall i :: 0 <= i < |vs| ==> !vs[i].CustomValidator?
  {
    LengthRules(md) + RangeRules(md) + (if md.pattern.Some? then [PatternRule] else [])
  }

  /** The length rules: a limit of 0 installs none, being falsy. */
  function LengthRules(md: Metadata): seq<Validator> {
    (if md.maxLength.Some? && md.maxLength.value != 0 then [MaxLengthRule] else [])
    + (if md.minLength.Some? && md.minLength.value != 0 then [MinLengthRule] else [])
  }

  /** The range rules: any bound present installs one, 0 included. */
  function RangeRules(md: Metadata): seq<Validator> {
    (if md.min.Some? then [MinRule] else []) + (if md.max.Some? then [MaxRule] else [])
  }

  function RunValidator(host: Host, name: string, md: Metadata, validator: Validator, v: Value): Verdict {
    match validator
    case MaxLengthRule =>
      if v.Str? && md.maxLength.Some? && |v.s| > md.maxLength.value
      then RejectsWith(name + " non può superare " + IntToString(md.maxLength.value) + " caratteri")
      else Accepts
    case MinLengthRule =>
      if v.Str? && md.minLength.Some? && |v.s| < md.minLength.value
      then RejectsWith(name + " deve avere almeno " + IntToString(md.minLength.value) + " caratteri")
      else Accepts
    case MinRule =>
      if v.Num? && md.min.Some? && v.r < md.min.value
      then RejectsWith(name + " deve essere almeno " + NumberText(host, md.min.value))
      else Accepts
    case MaxRule =>
      if v.Num? && md.max.Some? && v.r > md.max.value
      then RejectsWith(name + " non può superare " + NumberText(host, md.max.value))
      else Accepts
    case PatternRule =>
      if v.Str? && md.pattern.Some? && !host.regexTest(md.pattern.value, v.s)
      then RejectsWith(name + " non rispetta il formato richiesto")
      else Accepts
    case CustomValidator(check) => check(v)
  }

  /** The message `validate` records for one validator, if any. */
  function ValidatorError(host: Host, name: string, md: Metadata, validator: Validator, v: Value): seq<string> {
    match RunValidator(host, name, md, validator, v)
    case Accepts => []
    case RejectsWith(m) => [m]
    case RejectsSilently => ["Validazione fallita per " + name]
    case Raises(m) => ["Errore di validazione: " + m]
  }

  /** The messages of all validators, in registration order. */
  function ValidatorErrors(host: Host, name: string, md: Metadata, validators: seq<Validator>, v: Value): seq<string>
    decreases |validators|
  {
    if validators == [] then []
    else
      ValidatorErrors(host, name, md, validators[..|validators| - 1], v)
      + ValidatorError(host, name, md, validators[|validators| - 1], v)
  }

  lemma ValidatorErrorsStep(host: Host, name: string, md: Metadata, validators: seq<Validator>, v: Value, i: nat)
    requires i < |validators|
    ensures ValidatorErrors(host, name, md, validators[..i + 1], v)
         == ValidatorErrors(host, name, md, validators[..i], v) + ValidatorError(host, name, md, validators[i], v)
  {
    assert validators[..i + 1][..i] == validators[..i];
  }

  /** Only rejecting validators produce messages: with every validator accepting, there are none. */
  lemma {:induction false} AcceptingValidatorsAddNothing(host: Host, name: string, md: Metadata, validators: seq<Validator>, v: Value)
    requires forall i :: 0 <= i < |validators| ==> RunValidator(host, name, md, validators[i], v).Accepts?
    ensures ValidatorErrors(host, name, md, validators, v) == []
    decreases |validators|
  {
    if validators != [] {
      AcceptingValidatorsAddNothing(host, name, md, validators[..|validators| - 1], v);
    }
  }

  /** A rejecting or throwing validator always leaves a message, wherever it sits in the list. */
  lemma {:induction false} RejectingValidatorLeavesMessage(host: Host, name: string, md: Metadata, validators: seq<Validator>, v: Value, i: nat)
    requires i < |validators| && !RunValidator(host, name, md, validators[i], v).Accepts?
    ensures ValidatorErrors(host, name, md, validators, v) != []
    decreases |validators|
  {
    if i < |validators| - 1 {
      RejectingValidatorLeavesMessage(host, name, md, validators[..|validators| - 1], v, i);
    }
  }

  /** `/^[^\s@]+@[^\s@]+\.[^\s@]+$/.test(s)`: one `@` with text before it, and a dot strictly inside the text after it. */
  predicate IsValidEmail(s: string) {
    (forall i :: 0 <= i < |s| ==> !IsWhite(s[i]))
    && match IndexOf(s, '@')
       case None => false
       case Some(at) =>
         var domain := s[at + 1..];
         0 < at && '@' !in domain && exists i :: 1 <= i < |domain| - 1 && domain[i] == '.'
  }

  /** `validateType`: at most one message, saying the value does not have the attribute's kind. */
  function TypeErrors(host: Host, name: string, kind: Kind, v: Value): (r: seq<string>)
    ensures |r| <= 1
  {
    if IsNullish(v) then []
    else
      match kind
      case TextKind => if v.Str? then [] else [name + " deve essere una stringa"]
      case StringKind => if v.Str? then [] else [name + " deve essere una stringa"]
      case NumberKind => if v.Num? then [] else [name + " deve essere un numero valido"]
      case IntegerKind => if v.Num? && IsWhole(v.r) then [] else [name + " deve essere un numero intero"]
      case BooleanKind => if v.Bool? then [] else [name + " deve essere true o false"]
      case EmailKind => if v.Str? && IsValidEmail(v.s) then [] else [name + " deve essere un'email valida"]
      case UrlKind => if v.Str? && host.parseUrl(v.s).Some? then [] else [name + " deve essere un URL valido"]
      case DateKind => if v.DateObj? || host.parseDate(v).Some? then [] else [name + " deve essere una data valida"]
      case ArrayKind => if v.Arr? then [] else [name + " deve essere un array"]
      case ObjectKind => if v.DateObj? || v.Obj? then [] else [name + " deve essere un oggetto"]
      case CustomKind(_) => []
  }

  /**
   * What `validateType` accepts: null and undefined under every kind, anything
   * under a custom kind, only whole numbers under the integer kind (so no
   * string), and no array under the object kind.
   */
  lemma TypeCheckAcceptance(host: Host, name: string, kind: Kind, v: Value)
    ensures IsNullish(v) ==> TypeErrors(host, name, kind, v) == []
    ensures kind.CustomKind? ==> TypeErrors(host, name, kind, v) == []
    ensures kind == IntegerKind && !IsNullish(v) ==> (TypeErrors(host, name, kind, v) == [] <==> v.Num? && IsWhole(v.r))
    ensures kind == IntegerKind && v.Str? ==> TypeErrors(host, name, kind, v) != []
    ensures kind == ObjectKind && v.Arr? ==> TypeErrors(host, name, kind, v) != []
  {
  }

  /** `value === null || value === undefined || value === ''`: the emptiness rule of `required` and `isEmpty`. */
  predicate IsBlank(v: Value) {
    IsNullish(v) || v == Str("")
  }

  /** The full message list of `validate(v)`: required, then type, then validators. */
  function ValidationErrors(host: Host, name: string, md: Metadata, kind: Kind, validators: seq<Validator>, v: Value): seq<string> {
    (if md.required && IsBlank(v) then [name + " è obbligatorio"] else [])
    + TypeErrors(host, name, kind, v)
    + ValidatorErrors(host, name, md, validators, v)
  }

  /** Validation does not look at the metadata's `updatedAt`, so stamping it changes no verdict. */
  lemma ValidationIgnoresStamp(host: Host, name: string, md: Metadata, kind: Kind, validators: seq<Validator>, v: Value, now: int)
    ensures ValidationErrors(host, name, md.(updatedAt := now), kind, validators, v) == ValidationErrors(host, name, md, kind, validators, v)
  {
    ValidatorsIgnoreStamp(host, name, md, validators, v, now);
  }

  lemma {:induction false} ValidatorsIgnoreStamp(host: Host, name: string, md: Metadata, validators: seq<Validator>, v: Value, now: int)
    ensures ValidatorErrors(host, name, md.(updatedAt := now), validators, v) == ValidatorErrors(host, name, md, validators, v)
    decreases |validators|
  {
    if validators != [] {
      ValidatorsIgnoreStamp(host, name, md, validators[..|validators| - 1], v, now);
      ValidatorIgnoresStamp(host, name, md, validators[|validators| - 1], v, now);
    }
  }

  lemma ValidatorIgnoresStamp(host: Host, name: string, md: Metadata, validator: Validator, v: Value, now: int)
    ensures ValidatorError(host, name, md.(updatedAt := now), validator, v) == ValidatorError(host, name, md, validator, v)
  {
    assert RunValidator(host, name, md.(updatedAt := now), validator, v) == RunValidator(host, name, md, validator, v);
  }

  /** `0` and `false` are not blank, so they satisfy `required`. */
  lemma ZeroAndFalseAreNotBlank()
    ensures !IsBlank(Num(0.0)) && !IsBlank(Bool(false))
  {
  }

  /** A required attribute rejects exactly the blank values at the `required` step. */
  lemma RequiredRejectsBlank(host: Host, name: string, md: Metadata, kind: Kind, validators: seq<Validator>, v: Value)
    requires md.required && IsBlank(v)
    ensures ValidationErrors(host, name, md, kind, validators, v) != []
    ensures ValidationErrors(host, name, md, kind, validators, v)[0] == name + " è obbligatorio"
  {
  }

  /** `parseInt(s, 10)` for the integer kind, `parseFloat(s)` for the number kind. */
  function ParseNumber(host: Host, integer: bool, s: string): Option<real> {
    if integer then
      var p := ParseInt(s);
      if p.Some? then Some(p.value as real) else None
    else host.parseFloat(s)
  }

  /** Number and integer kinds: a non-blank string that parses becomes the number; anything else is kept. */
  function CoerceNumber(host: Host, integer: bool, v: Value): Value {
    if v.Str? && Trim(v.s) != "" then
      var parsed := ParseNumber(host, integer, v.s);
      if parsed.Some? then Num(parsed.value) else v
    else v
  }

  /** Boolean kind: a string becomes `s.toLowerCase() === 'true' || s === '1'`. */
  function CoerceBoolean(v: Value): Value {
    if v.Str? then Bool(LowerCaseEquals(v.s, "true") || v.s == "1") else v
  }

  /** Date kind: a string that makes a valid `Date` becomes that date. */
  function CoerceDate(host: Host, v: Value): Value {
    if v.Str? then
      var t := host.parseDate(v);
      if t.Some? then DateObj(t) else v
    else v
  }

  /** Textual kinds: anything but null and undefined becomes `String(v).trim()`. */
  function CoerceText(host: Host, v: Value): Value {
    if IsNullish(v) then v else Str(Trim(ToText(host, v)))
  }

  /** The kind-specific coercion that `transform` applies before the transformers. */
  function Coerce(host: Host, kind: Kind, v: Value): Value {
    match kind
    case NumberKind => CoerceNumber(host, false, v)
    case IntegerKind => CoerceNumber(host, true, v)
    case BooleanKind => CoerceBoolean(v)
    case DateKind => CoerceDate(host, v)
    case TextKind => CoerceText(host, v)
    case StringKind => CoerceText(host, v)
    case EmailKind => CoerceText(host, v)
    case UrlKind => CoerceText(host, v)
    case _ => v
  }

  /** Null and undefined pass through coercion, and array, object and custom kinds coerce nothing. */
  lemma CoercionKeepsNullishAndStructured(host: Host, kind: Kind, v: Value)
    ensures IsNullish(v) ==> Coerce(host, kind, v) == v
    ensures kind.CustomKind? || kind == ArrayKind || kind == ObjectKind ==> Coerce(host, kind, v) == v
  {
  }

  predicate IsTextual(kind: Kind) {
    kind == TextKind || kind == StringKind || kind == EmailKind || kind == UrlKind
  }

  /** The numeral of a natural number coerces to that number under the integer kind. */
  lemma IntegerKindReadsNumerals(host: Host, n: nat)
    ensures Coerce(host, IntegerKind, Str(NatToString(n))) == Num(n as real)
  {
    NumeralParses(host, n);
    DigitStartNotBlank(NatToString(n));
    ParsedNumberCoerces(host, NatToString(n), n as real);
  }

  lemma NumeralParses(host: Host, n: nat)
    ensures ParseNumber(host, true, NatToString(n)) == Some(n as real)
  {
    ParseIntOfNumeral(n);
  }

  lemma ParsedNumberCoerces(host: Host, s: string, r: real)
    requires Trim(s) != "" && ParseNumber(host, true, s) == Some(r)
    ensures Coerce(host, IntegerKind, Str(s)) == Num(r)
  {
    var v := Str(s);
    assert Coerce(host, IntegerKind, v) == CoerceNumber(host, true, v);
  }

  /** `parseInt` truncates: "12.7" becomes 12, and "12abc" becomes 12. */
  lemma IntegerKindTruncates(host: Host)
    ensures Coerce(host, IntegerKind, Str("12.7")) == Num(12.0)
    ensures Coerce(host, IntegerKind, Str("12abc")) == Num(12.0)
  {
    IntegerKindReadsPrefix(host, "12.7");
    IntegerKindReadsPrefix(host, "12abc");
  }

  lemma IntegerKindReadsPrefix(host: Host, s: string)
    requires |s| >= 3 && s[..2] == "12" && !IsDigit(s[2])
    ensures Coerce(host, IntegerKind, Str(s)) == Num(12.0)
  {
    ParseIntPrefix(s);
    DigitStartNotBlank(s);
    ParsedNumberCoerces(host, s, 12.0);
  }

  lemma ParseIntPrefix(s: string)
    requires |s| >= 3 && s[..2] == "12" && !IsDigit(s[2])
    ensures ParseInt(s) == Some(12)
  {
    assert TrimStart(s) == s;
    assert LeadingDigits(s[2..]) == [];
    assert LeadingDigits(s[1..]) == "2";
    assert LeadingDigits(s) == "12";
    assert DecimalValue("12") == 12 by {
      assert "12"[..1] == "1";
    }
  }

  /** An unparsable numeric string is left as it is, to be rejected by the type check. */
  lemma UnparsableNumberStringUnchanged(host: Host, s: string)
    requires ParseInt(s).None?
    ensures Coerce(host, IntegerKind, Str(s)) == Str(s)
    ensures TypeErrors(host, "n", IntegerKind, Coerce(host, IntegerKind, Str(s))) != []
  {
  }

  /** Under the boolean kind every string becomes a boolean: "true" in any case, or "1". */
  lemma BooleanKindReadsStrings(host: Host, s: string)
    ensures Coerce(host, BooleanKind, Str(s)).Bool?
    ensures Coerce(host, BooleanKind, Str("TRUE")) == Bool(true)
    ensures Coerce(host, BooleanKind, Str("True")) == Bool(true)
    ensures Coerce(host, BooleanKind, Str("1")) == Bool(true)
    ensures Coerce(host, BooleanKind, Str("yes")) == Bool(false)
    ensures Coerce(host, BooleanKind, Str("")) == Bool(false)
  {
  }

  /** Textual kinds trim, and coercing twice is the same as coercing once. */
  lemma {:induction false} TextualCoercionIdempotent(host: Host, kind: Kind, v: Value)
    requires IsTextual(kind)
    ensures Coerce(host, kind, Coerce(host, kind, v)) == Coerce(host, kind, v)
  {
    if !IsNullish(v) {
      TrimIdempotent(ToText(host, v));
    }
  }

  /** After coercion, a textual value is a string (or still null/undefined), so the string check of text kinds passes. */
  lemma TextCoercionPassesTypeCheck(host: Host, name: string, v: Value)
    ensures TypeErrors(host, name, TextKind, Coerce(host, TextKind, v)) == []
    ensures TypeErrors(host, name, StringKind, Coerce(host, StringKind, v)) == []
  {
  }

  /** Running the transformers in registration order; a throwing one passes its input through. */
  function ApplyTransformers(transformers: seq<Transformer>, v: Value): Value
    decreases |transformers|
  {
    if transformers == [] then v
    else
      var u := ApplyTransformers(transformers[..|transformers| - 1], v);
      var out := transformers[|transformers| - 1].apply(u);
      if out.Some? then out.value else u
  }

  /** Throwing transformers change nothing: with all of them throwing, the value passes through. */
  lemma {:induction false} ThrowingTransformersSkipped(transformers: seq<Transformer>, v: Value)
    requires forall i, u :: 0 <= i < |transformers| ==> transformers[i].apply(u).None?
    ensures ApplyTransformers(transformers, v) == v
    decreases |transformers|
  {
    if transformers != [] {
      ThrowingTransformersSkipped(transformers[..|transformers| - 1], v);
    }
  }

  /** Transformers compose in registration order: adding one applies it to the previous result. */
  lemma ApplyTransformersSnoc(transformers: seq<Transformer>, t: Transformer, v: Value)
    ensures ApplyTransformers(transformers + [t], v)
         == var u := ApplyTransformers(transformers, v); if t.apply(u).Some? then t.apply(u).value else u
  {
    assert (transformers + [t])[..|transformers|] == transformers;
  }

  /** `transform(v)`. */
  function Transformed(host: Host, kind: Kind, transformers: seq<Transformer>, v: Value): Value {
    ApplyTransformers(transformers, Coerce(host, kind, v))
  }

  /** `transformForDisplay(v)`. */
  function Display(host: Host, kind: Kind, v: Value): (r: Value)
    ensures IsNullish(v) ==> r == Str("")
    ensures !IsNullish(v) && kind == BooleanKind ==> r == Str(if Truthy(v) then "Sì" else "No")
    ensures !IsNullish(v) && kind == ArrayKind && v.Arr? ==> r == Str(JoinValues(host, v.items, ", "))
    ensures !r.Null?
  {
    if IsNullish(v) then Str("")
    else
      match kind
      case DateKind =>
        if v.DateObj? then Str(if v.time.Some? then host.localeDateText(v.time.value) else "Invalid Date")
        else Undefined
      case BooleanKind => Str(if Truthy(v) then "Sì" else "No")
      case ArrayKind => if v.Arr? then Str(JoinValues(host, v.items, ", ")) else Str(ToText(host, v))
      case _ => v
  }

  /** `getTypeDefaultValue()`: the kind's zero value; a new date is the current time. */
  function TypeDefault(kind: Kind, now: int): Value {
    match kind
    case TextKind => Str("")
    case StringKind => Str("")
    case EmailKind => Str("")
    case UrlKind => Str("")
    case NumberKind => Num(0.0)
    case IntegerKind => Num(0.0)
    case BooleanKind => Bool(false)
    case ArrayKind => Arr([])
    case ObjectKind => Obj([])
    case DateKind => DateObj(Some(now))
    case CustomKind(_) => Null
  }

  /** Every kind default passes its kind's type check, except the empty string of the email kind. */
  lemma TypeDefaultHasItsKind(host: Host, name: string, kind: Kind, now: int)
    requires kind != EmailKind && kind != UrlKind
    ensures TypeErrors(host, name, kind, TypeDefault(kind, now)) == []
  {
  }

  /** The email kind's default `''` is not an email, so resetting an email attribute without a default value fails. */
  lemma EmailDefaultIsRejected(host: Host, name: string, now: int)
    ensures TypeErrors(host, name, EmailKind, TypeDefault(EmailKind, now)) == [name + " deve essere un'email valida"]
  {
  }

  /** The value `reset` writes. */
  function ResetTarget(md: Metadata, kind: Kind, now: int): Value {
    if md.defaultValue != Undefined then md.defaultValue else TypeDefault(kind, now)
  }

  /** A notification handed to the host sink as `attribute:change`. */
  datatype ValueChange = ValueChange(attribute: string, oldValue: Value, newValue: Value, timestamp: int)

  /** The plain-data form of an attribute. */
  datatype AttributeData = AttributeData(name: string, value: Value, kind: Kind, metadata: MetadataInput)

  /** The outcome of `setValue`: true, false with the errors logged, or a thrown `Error`. */
  datatype SetOutcome = Stored | Refused(errors: seq<string>) | Thrown(message: string)

  /** `{ isValid, errors }` */
  datatype Validation = Validation(isValid: bool, errors: seq<string>)

  class Attribute {
    const name: string
    var value: Value
    var kind: Kind
    var metadata: Metadata
    var validators: seq<Validator>
    var transformers: seq<Transformer>
    /** The `attribute:change` notifications handed to the host sink, oldest first. */
    var changes: seq<ValueChange>

    /** `new Attribute(name, value, type, metadata)`: an undefined value takes the default `null`. */
    constructor (name: string, value: Value, kind: Kind, metadata: MetadataInput, now: int)
      ensures this.name == name && this.kind == kind
      ensures this.value == if value.Undefined? then Null else value
      ensures this.metadata == MergeMetadata(metadata, now)
      ensures validators == DefaultValidators(this.metadata)
      ensures transformers == [] && changes == []
    {
      this.name := name;
      this.value := if value.Undefined? then Null else value;
      this.kind := kind;
      this.metadata := MergeMetadata(metadata, now);
      validators := [];
      transformers := [];
      changes := [];
      new;
      SetupDefaultValidators();
    }

    /** Installs the metadata-driven validators after any already present. */
    method SetupDefaultValidators()
      modifies this
      ensures validators == old(validators) + DefaultValidators(metadata)
      ensures value == old(value) && kind == old(kind) && metadata == old(metadata)
      ensures transformers == old(transformers) && changes == old(changes)
    {
      var rules: seq<Validator> := [];
      if metadata.maxLength.Some? && metadata.maxLength.value != 0 {
        rules := rules + [MaxLengthRule];
      }
      if metadata.minLength.Some? && metadata.minLength.value != 0 {
        rules := rules + [MinLengthRule];
      }
      assert rules == LengthRules(metadata);
      if metadata.min.Some? {
        rules := rules + [MinRule];
      }
      if metadata.max.Some? {
        rules := rules + [MaxRule];
      }
      assert rules == LengthRules(metadata) + RangeRules(metadata);
      if metadata.pattern.Some? {
        rules := rules + [PatternRule];
      }
      validators := validators + rules;
    }

    method AddValidator(validator: Validator)
      modifies this
      ensures validators == old(validators) + [validator]
      ensures value == old(value) && kind == old(kind) && metadata == old(metadata)
      ensures transformers == old(transformers) && changes == old(changes)
    {
      validators := validators + [validator];
    }

    method AddTransformer(transformer: Transformer)
      modifies this
      ensures transformers == old(transformers) + [transformer]
      ensures value == old(value) && kind == old(kind) && metadata == old(metadata)
      ensures validators == old(validators) && changes == old(changes)
    {
      transformers := transformers + [transformer];
    }

    /** `transform(v)`: coercion, then each transformer in turn. */
    method Transform(host: Host, v: Value) returns (r: Value)
      ensures r == Transformed(host, kind, transformers, v)
    {
      r := Coerce(host, kind, v);
      var i := 0;
      while i < |transformers|
        invariant 0 <= i <= |transformers|
        invariant r == ApplyTransformers(transformers[..i], Coerce(host, kind, v))
      {
        var out := transformers[i].apply(r);
        if out.Some? {
          r := out.value;
        }
        assert transformers[..i + 1][..i] == transformers[..i];
        i := i + 1;
      }
      assert transformers[..i] == transformers;
    }

    /** `validate(v)`: valid iff no message was collected. */
    method Validate(host: Host, v: Value) returns (r: Validation)
      ensures r.errors == ValidationErrors(host, name, metadata, kind, validators, v)
      ensures r.isValid <==> r.errors == []
    {
      var errors: seq<string> := [];
      if metadata.required && (v.Null? || v.Undefined? || v == Str("")) {
        errors := errors + [name + " è obbligatorio"];
      }
      errors := errors + TypeErrors(host, name, kind, v);
      var messages := RunValidators(host, v);
      errors := errors + messages;
      r := Validation(|errors| == 0, errors);
    }

    /** The validator loop of `validate`: every validator runs, in registration order. */
    method RunValidators(host: Host, v: Value) returns (errors: seq<string>)
      ensures errors == ValidatorErrors(host, name, metadata, validators, v)
    {
      errors := [];
      var i := 0;
      while i < |validators|
        invariant 0 <= i <= |validators|
        invariant errors == ValidatorErrors(host, name, metadata, validators[..i], v)
      {
        var messages := RunOneValidator(host, validators[i], v);
        errors := errors + messages;
        ValidatorErrorsStep(host, name, metadata, validators, v, i);
        i := i + 1;
      }
      assert validators[..i] == validators;
    }

    /** One step of `validate`: a validator's result, or the error it throws, as messages. */
    method RunOneValidator(host: Host, validator: Validator, v: Value) returns (messages: seq<string>)
      ensures messages == ValidatorError(host, name, metadata, validator, v)
    {
      var verdict := RunValidator(host, name, metadata, validator, v);
      match verdict {
        case Accepts => messages := [];
        case RejectsWith(m) => messages := [m];
        case RejectsSilently => messages := ["Validazione fallita per " + name];
        case Raises(m) => messages := ["Errore di validazione: " + m];
      }
    }

    /**
     * `setValue(newValue, { throwOnError, notify })`. The transformed value is
     * stored only if it validates; then `updatedAt` is refreshed and, unless
     * `notify` is false, the change is handed to the sink. A rejected value
     * leaves the attribute as it was.
     */
    method SetValue(host: Host, newValue: Value, throwOnError: bool, notify: bool, now: int) returns (outcome: SetOutcome)
      modifies this
      ensures kind == old(kind) && validators == old(validators) && transformers == old(transformers)
      ensures var t := Transformed(host, kind, transformers, newValue);
              var errs := ValidationErrors(host, name, old(metadata), kind, validators, t);
              if errs == [] then
                outcome == Stored && value == t && metadata == old(metadata).(updatedAt := now)
                && changes == old(changes) + (if notify then [ValueChange(name, old(value), t, now)] else [])
              else
                value == old(value) && metadata == old(metadata) && changes == old(changes)
                && outcome == (if throwOnError then Thrown("Validazione fallita: " + Join(errs, ", ")) else Refused(errs))
    {
      var oldValue := value;
      var transformed := Transform(host, newValue);
      var validation := Validate(host, transformed);
      if !validation.isValid {
        if throwOnError {
          return Thrown("Validazione fallita: " + Join(validation.errors, ", "));
        }
        return Refused(validation.errors);
      }
      value := transformed;
      metadata := metadata.(updatedAt := now);
      if notify {
        changes := changes + [ValueChange(name, oldValue, transformed, now)];
      }
      outcome := Stored;
    }

    /** `getValue({ raw })`: the stored value, or its display form. */
    function GetValue(host: Host, raw: bool): (r: Value)
      reads this
      ensures raw ==> r == value
      ensures !raw ==> r == Display(host, kind, value)
    {
      if raw then value else Display(host, kind, value)
    }

    /** `isEmpty()`: the same emptiness rule that `required` applies. */
    predicate IsEmpty()
      reads this
    {
      IsBlank(value)
    }

    /** `reset()`: writes the default value (or the kind default) with notification; a rejected default changes nothing. */
    method Reset(host: Host, now: int)
      modifies this
      ensures kind == old(kind) && validators == old(validators) && transformers == old(transformers)
      ensures var t := Transformed(host, kind, transformers, ResetTarget(old(metadata), kind, now));
              var errs := ValidationErrors(host, name, old(metadata), kind, validators, t);
              if errs == [] then
                value == t && metadata == old(metadata).(updatedAt := now)
                && changes == old(changes) + [ValueChange(name, old(value), t, now)]
              else
                value == old(value) && metadata == old(metadata) && changes == old(changes)
    {
      var target := if metadata.defaultValue != Undefined then metadata.defaultValue else TypeDefault(kind, now);
      var _ := SetValue(host, target, false, true, now);
    }

    /** `serialize()`: name, value, type and a copy of the metadata. */
    function Serialize(): (d: AttributeData)
      reads this
      ensures d.name == name && d.value == value && d.kind == kind
      ensures MergeMetadata(d.metadata, 0) == metadata
    {
      AttributeData(name, value, kind, AsInput(metadata))
    }

    /** `Attribute.deserialize(data)`. */
    static method Deserialize(data: AttributeData, now: int) returns (a: Attribute)
      ensures fresh(a)
      ensures a.name == data.name && a.kind == data.kind
      ensures a.value == if data.value.Undefined? then Null else data.value
      ensures a.metadata == MergeMetadata(data.metadata, now)
      ensures a.validators == DefaultValidators(a.metadata) && a.transformers == [] && a.changes == []
    {
      a := new Attribute(data.name, data.value, data.kind, data.metadata, now);
    }

    /**
     * `clone()`: same name, type and metadata, and the same value unless it was
     * `undefined`; custom validators and transformers are not carried over.
     */
    method Clone(now: int) returns (a: Attribute)
      ensures fresh(a)
      ensures a.name == name && a.kind == kind && a.metadata == metadata
      ensures a.value == if value.Undefined? then Null else value
      ensures a.validators == DefaultValidators(metadata) && a.transformers == []
      ensures value != Undefined ==> a.Serialize() == Serialize()
    {
      MergeOfCopy(metadata, now);
      a := Deserialize(Serialize(), now);
    }
  }
}
