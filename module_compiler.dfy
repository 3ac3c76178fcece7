/**
 * `ModuleCompiler`: validates a module definition, renders its markup and its
 * style sheet, keeps the result in a cache keyed by module id and subscribes
 * to the definition's updates. The rendering methods follow the source's
 * loops and are proved equal to the functions of `CompilerMarkup` and
 * `HtmlFormat`.
 */
module ModuleCompilers {
  import opened Wrappers
  import opened JsStrings
  import opened JsValues
  import opened OrderedMaps
  import opened ModuleDefinitions
  import opened ModuleDefinitionClass
  import opened HtmlFormat
  import opened CompilerMarkup
  import Entities
  import EventBuses

  /** A compiled module: its id, markup, style sheet and compilation time (the script is not part of this model). */
  datatype CompiledModule = CompiledModule(moduleId: string, html: string, css: string, compiledAt: string)

  /** What `compile` rejects with when the definition does not validate. */
  const ValidationFailure: string := "Errore validazione modulo: "

  /** The error `this.eventBus.on(...)` throws when the compiler found no event bus. */
  const BusMissing: string := "TypeError: Cannot read properties of null (reading 'on')"

  /** What `compile` rejects with when generating the module throws. */
  function CompileFailure(moduleId: string, message: string): string {
    "Compilazione fallita per " + moduleId + ": " + message
  }

  /** The event announcing a new version of a module's definition. */
  function UpdatedEvent(moduleId: string): string {
    "module." + moduleId + ".updated"
  }

  /** What the markup can read of an entity: its type and each attribute's `getAttributeValue`. */
  function SubjectOf(host: Host, entity: Entities.Entity?): Option<Subject>
    reads entity, if entity != null then entity.attributes.entries.Values else {}
  {
    if entity == null then None
    else Some(Subject(entity.entityType,
      map k | k in entity.attributes.entries :: entity.attributes.entries[k].GetValue(host, false)))
  }

  /** `generateHTML` then `generateCSS` for a definition that validated. */
  function Generated(host: Host, moduleId: string, layout: Value, styling: Value, slots: OMap<string, SlotDefinition>,
                     subject: Option<Subject>, compiledAt: string): Result<CompiledModule>
  {
    match GeneratedHtml(host, moduleId, layout, slots, subject)
    case Err(e) => Err(e)
    case Ok(html) =>
      match GeneratedCss(host, moduleId, styling, layout)
      case Err(e) => Err(e)
      case Ok(css) => Ok(CompiledModule(moduleId, html, css, compiledAt))
  }

  /**
   * Where `compile` stands before it subscribes to updates: the validation
   * error, the list of validation errors, the generation error, or the module.
   */
  function Staged(report: Report, moduleId: string, generated: Result<CompiledModule>): Result<CompiledModule> {
    if report.thrown.Some? then Err(report.thrown.value)
    else if report.errors != [] then Err(ValidationFailure + Join(report.errors, ", "))
    else
      match generated
      case Err(e) => Err(CompileFailure(moduleId, ErrorMessage(e)))
      case Ok(m) => Ok(m)
  }

  /** The validation report of a definition's fields. */
  ghost function ReportOf(host: Host, definition: ModuleDefinition): Report
    requires definition.slots.Valid()
  {
    Validation(host, definition.moduleId, definition.version, definition.slots, definition.layout,
               definition.styling, definition.dependencies)
  }

  /** Where `compile` stands for a definition, before it subscribes to updates. */
  ghost function StagedOf(host: Host, definition: ModuleDefinition, subject: Option<Subject>, clock: int): Result<CompiledModule>
    requires definition.slots.Valid()
  {
    Staged(ReportOf(host, definition), definition.moduleId,
           Generated(host, definition.moduleId, definition.layout, definition.styling, definition.slots, subject, host.isoText(clock)))
  }

  /**
   * What `compile` resolves to: the staged outcome, except that subscribing to
   * updates without an event bus throws after the module was cached.
   */
  function Subscribed(moduleId: string, staged: Result<CompiledModule>, autoRecompile: bool, hasBus: bool): Result<CompiledModule> {
    if staged.Ok? && autoRecompile && !hasBus then Err(CompileFailure(moduleId, ErrorMessage(BusMissing))) else staged
  }

  /**
   * A module is staged iff its definition validates without errors and both
   * its markup and its style sheet generate; it then carries the definition's
   * id and the markup and style sheet generated.
   */
  lemma StagedOutcome(host: Host, report: Report, moduleId: string, layout: Value, styling: Value,
                      slots: OMap<string, SlotDefinition>, subject: Option<Subject>, compiledAt: string)
    ensures var r := Staged(report, moduleId, Generated(host, moduleId, layout, styling, slots, subject, compiledAt));
      (r.Ok? <==> report.thrown.None? && report.errors == []
                  && GeneratedHtml(host, moduleId, layout, slots, subject).Ok? && !IsNullish(styling))
      && (r.Ok? ==> r.value == CompiledModule(moduleId, GeneratedHtml(host, moduleId, layout, slots, subject).value,
                                               GeneratedCss(host, moduleId, styling, layout).value, compiledAt))
      && (report.thrown.None? && report.errors != [] ==> r == Err(ValidationFailure + Join(report.errors, ", ")))
  {
    GeneratedOutcome(host, moduleId, layout, styling, slots, subject, compiledAt);
  }

  /** Generation succeeds iff the markup generates and the styling is set; the module then carries both. */
  lemma GeneratedOutcome(host: Host, moduleId: string, layout: Value, styling: Value,
                         slots: OMap<string, SlotDefinition>, subject: Option<Subject>, compiledAt: string)
    ensures var g := Generated(host, moduleId, layout, styling, slots, subject, compiledAt);
      (g.Ok? <==> GeneratedHtml(host, moduleId, layout, slots, subject).Ok? && !IsNullish(styling))
      && (g.Ok? ==> g.value == CompiledModule(moduleId, GeneratedHtml(host, moduleId, layout, slots, subject).value,
                                               GeneratedCss(host, moduleId, styling, layout).value, compiledAt))
  {
    var html := GeneratedHtml(host, moduleId, layout, slots, subject);
    if html.Ok? {
      assert GeneratedCss(host, moduleId, styling, layout).Ok? <==> !IsNullish(styling);
    }
  }

  /** A module staged from a well-formed id renders its container as its first line. */
  lemma StagedContainer(host: Host, report: Report, moduleId: string, layout: Value, styling: Value,
                        slots: OMap<string, SlotDefinition>, subject: Option<Subject>, compiledAt: string)
    requires IsValidModuleId(moduleId)
    requires Staged(report, moduleId, Generated(host, moduleId, layout, styling, slots, subject, compiledAt)).Ok?
    ensures var m := Staged(report, moduleId, Generated(host, moduleId, layout, styling, slots, subject, compiledAt)).value;
      m.moduleId == moduleId && StartsWith(m.html, ContainerOpen(moduleId) + "\n")
      && StartsWith(m.css, "/* Stili per modulo " + moduleId + " */\n")
  {
    StagedOutcome(host, report, moduleId, layout, styling, slots, subject, compiledAt);
    ContainerFirst(host, moduleId, layout, slots, subject);
  }

  /** `getStats()` */
  datatype Stats = Stats(compiledModules: nat, templateCacheSize: nat, styleCacheSize: nat, modules: seq<string>)

  class ModuleCompiler {
    var compiledModules: OMap<string, CompiledModule>
    var templateCache: OMap<string, string>
    var styleCache: OMap<string, string>
    /** `window.eventBus || null` */
    const eventBus: EventBuses.EventBus?

    ghost predicate Valid()
      reads this
    {
      compiledModules.Valid() && templateCache.Valid() && styleCache.Valid()
    }

    /** `new ModuleCompiler()`: empty caches, and the event bus the page provides, if any. */
    constructor (eventBus: EventBuses.EventBus?)
      ensures Valid()
      ensures compiledModules == EmptyMap() && templateCache == EmptyMap() && styleCache == EmptyMap()
      ensures this.eventBus == eventBus
    {
      compiledModules := EmptyMap();
      templateCache := EmptyMap();
      styleCache := EmptyMap();
      this.eventBus := eventBus;
    }

    /**
     * `compile(moduleDefinition, { entity, autoRecompile })`. The module is
     * cached before the compiler subscribes to its updates, so a compiler
     * without an event bus rejects with the module already cached.
     * `callback` and `subscriptionId` identify the update listener and the
     * id the bus gives its subscription; `clock` is the current time.
     */
    method Compile(host: Host, definition: ModuleDefinition, entity: Entities.Entity?, autoRecompile: bool,
                   clock: int, callback: EventBuses.CallbackId, subscriptionId: string) returns (r: Result<CompiledModule>)
      requires Valid() && definition.slots.Valid()
      requires entity != null ==> entity.Valid()
      requires eventBus != null ==> eventBus.Valid()
      modifies this`compiledModules, definition`validationErrors, definition`validationWarnings, entity
      modifies eventBus, if eventBus != null then eventBus.namespaces.Values else {}
      ensures Valid() && (entity != null ==> entity.Valid()) && (eventBus != null ==> eventBus.Valid())
      ensures var report := ReportOf(host, definition);
        var staged := StagedOf(host, definition, old(SubjectOf(host, entity)), clock);
        && definition.validationErrors == report.errors && definition.validationWarnings == report.warnings
        && r == Subscribed(definition.moduleId, staged, autoRecompile, eventBus != null)
        && compiledModules == (if staged.Ok? then old(compiledModules).Put(definition.moduleId, staged.value) else old(compiledModules))
        && (eventBus != null ==>
              eventBus.listeners == if staged.Ok? && autoRecompile then
                                      EventBuses.Added(old(eventBus.listeners), UpdatedEvent(definition.moduleId),
                                                       EventBuses.Subscription(callback, 0, None, subscriptionId))
                                    else old(eventBus.listeners))
    {
      var staged := Stage(host, definition, entity, clock);
      r := Finish(definition.moduleId, staged, autoRecompile, callback, subscriptionId);
    }

    /** The rest of `compile` once the module is staged: a staged error is rejected as it is, a staged module registered. */
    method Finish(moduleId: string, staged: Result<CompiledModule>, autoRecompile: bool, callback: EventBuses.CallbackId,
                  subscriptionId: string) returns (r: Result<CompiledModule>)
      requires Valid() && (eventBus != null ==> eventBus.Valid())
      modifies this`compiledModules, eventBus, if eventBus != null then eventBus.namespaces.Values else {}
      ensures Valid() && (eventBus != null ==> eventBus.Valid())
      ensures r == Subscribed(moduleId, staged, autoRecompile, eventBus != null)
      ensures compiledModules == if staged.Ok? then old(compiledModules).Put(moduleId, staged.value) else old(compiledModules)
      ensures eventBus != null ==>
        eventBus.listeners == if staged.Ok? && autoRecompile then
                                EventBuses.Added(old(eventBus.listeners), UpdatedEvent(moduleId),
                                                 EventBuses.Subscription(callback, 0, None, subscriptionId))
                              else old(eventBus.listeners)
    {
      if staged.Err? {
        return staged;
      }
      r := Register(moduleId, staged.value, autoRecompile, callback, subscriptionId);
    }

    /** The part of `compile` after the module generated: it is cached, then, when asked, subscribed to its updates. */
    method Register(moduleId: string, compiled: CompiledModule, autoRecompile: bool, callback: EventBuses.CallbackId,
                    subscriptionId: string) returns (r: Result<CompiledModule>)
      requires Valid() && (eventBus != null ==> eventBus.Valid())
      modifies this`compiledModules, eventBus, if eventBus != null then eventBus.namespaces.Values else {}
      ensures Valid() && (eventBus != null ==> eventBus.Valid())
      ensures r == Subscribed(moduleId, Ok(compiled), autoRecompile, eventBus != null)
      ensures compiledModules == old(compiledModules).Put(moduleId, compiled)
      ensures eventBus != null ==>
        eventBus.listeners == if autoRecompile then
                                EventBuses.Added(old(eventBus.listeners), UpdatedEvent(moduleId),
                                                 EventBuses.Subscription(callback, 0, None, subscriptionId))
                              else old(eventBus.listeners)
    {
      compiledModules := compiledModules.Put(moduleId, compiled);
      r := Ok(compiled);
      if autoRecompile {
        var setup := SetupAutoRecompile(moduleId, callback, subscriptionId);
        if setup.Err? {
          r := Err(CompileFailure(moduleId, ErrorMessage(setup.message)));
        }
      }
    }

    /** The part of `compile` before the module is cached: the definition is validated, then its markup and its style sheet are generated. */
    method Stage(host: Host, definition: ModuleDefinition, entity: Entities.Entity?, clock: int) returns (staged: Result<CompiledModule>)
      requires definition.slots.Valid()
      requires entity != null ==> entity.Valid()
      modifies definition`validationErrors, definition`validationWarnings, entity
      ensures entity != null ==> entity.Valid()
      ensures definition.validationErrors == ReportOf(host, definition).errors
      ensures definition.validationWarnings == ReportOf(host, definition).warnings
      ensures staged == StagedOf(host, definition, old(SubjectOf(host, entity)), clock)
    {
      var validation := definition.Validate(host);
      assert SubjectOf(host, entity) == old(SubjectOf(host, entity));
      if validation.Err? {
        return Err(validation.message);
      }
      if !validation.value.IsValid() {
        return Err(ValidationFailure + Join(validation.value.errors, ", "));
      }
      var generated := Generate(host, definition, entity, clock);
      if generated.Err? {
        return Err(CompileFailure(definition.moduleId, ErrorMessage(generated.message)));
      }
      staged := generated;
    }

    /** The markup, then the style sheet, of a definition that validated. */
    method Generate(host: Host, definition: ModuleDefinition, entity: Entities.Entity?, clock: int) returns (r: Result<CompiledModule>)
      requires entity != null ==> entity.Valid()
      modifies entity
      ensures entity != null ==> entity.Valid()
      ensures r == Generated(host, definition.moduleId, definition.layout, definition.styling, definition.slots,
                             old(SubjectOf(host, entity)), host.isoText(clock))
    {
      var moduleId := definition.moduleId;
      var html := GenerateHtml(host, definition, entity, clock);
      if html.Err? {
        return Err(html.message);
      }
      var css := GeneratedCss(host, moduleId, definition.styling, definition.layout);
      if css.Err? {
        return Err(css.message);
      }
      r := Ok(CompiledModule(moduleId, html.value, css.value, host.isoText(clock)));
    }

    /** `setupAutoRecompile(moduleDefinition, options)`: subscribe to the definition's updates. */
    method SetupAutoRecompile(moduleId: string, callback: EventBuses.CallbackId, subscriptionId: string) returns (r: Result<()>)
      requires eventBus != null ==> eventBus.Valid()
      modifies eventBus, if eventBus != null then eventBus.namespaces.Values else {}
      ensures eventBus == null ==> r == Err(BusMissing)
      ensures eventBus != null ==>
        r.Ok? && eventBus.Valid()
        && eventBus.listeners == EventBuses.Added(old(eventBus.listeners), UpdatedEvent(moduleId),
                                                  EventBuses.Subscription(callback, 0, None, subscriptionId))
        && eventBus.onceListeners == old(eventBus.onceListeners) && eventBus.namespaces == old(eventBus.namespaces)
    {
      if eventBus == null {
        return Err(BusMissing);
      }
      r := eventBus.On(UpdatedEvent(moduleId), EventBuses.Function(callback), EventBuses.SubscribeOptions(false, 0, "", None), subscriptionId);
    }

    /** `generateHTML(moduleDefinition, entity)` */
    method GenerateHtml(host: Host, definition: ModuleDefinition, entity: Entities.Entity?, clock: int) returns (r: Result<string>)
      requires entity != null ==> entity.Valid()
      modifies entity
      ensures entity != null ==> entity.Valid()
      ensures SubjectOf(host, entity) == old(SubjectOf(host, entity))
      ensures r == GeneratedHtml(host, definition.moduleId, definition.layout, definition.slots, old(SubjectOf(host, entity)))
    {
      var moduleId, layout, slots := definition.moduleId, definition.layout, definition.slots;
      if IsNullish(layout) {
        return Err(ReadOfNullish);
      }
      var contents := GenerateContents(host, layout, slots, entity, clock);
      if contents.Err? {
        return Err(contents.message);
      }
      var formatted := FormatHtml(ContainerOpen(moduleId) + contents.value);
      r := Ok(formatted);
    }

    /** What `generateHTML` writes inside the container: the header, the body, the footer, then the closing `</div>`. */
    method GenerateContents(host: Host, layout: Value, slots: OMap<string, SlotDefinition>, entity: Entities.Entity?, clock: int)
      returns (r: Result<string>)
      requires entity != null ==> entity.Valid()
      modifies entity
      ensures entity != null ==> entity.Valid()
      ensures SubjectOf(host, entity) == old(SubjectOf(host, entity))
      ensures r == Contents(host, layout, slots, old(SubjectOf(host, entity)))
    {
      var header := GetProp(layout, "header");
      var headerHtml := Ok("");
      if Truthy(header) {
        headerHtml := GenerateLayoutSection(host, "header", header, slots, entity, clock);
        if headerHtml.Err? {
          return Err(headerHtml.message);
        }
      }
      var body := GenerateBody(host, layout, slots, entity, clock);
      if body.Err? {
        return Err(body.message);
      }
      var footer := GetProp(layout, "footer");
      var footerHtml := Ok("");
      if Truthy(footer) {
        footerHtml := GenerateLayoutSection(host, "footer", footer, slots, entity, clock);
        if footerHtml.Err? {
          return Err(footerHtml.message);
        }
      }
      r := Ok(headerHtml.value + body.value + footerHtml.value + "</div>");
    }

    /** The body of `generateHTML`: when `layout.elements` is a non-empty list, every element inside `<div class="module-body">`. */
    method GenerateBody(host: Host, layout: Value, slots: OMap<string, SlotDefinition>, entity: Entities.Entity?, clock: int)
      returns (r: Result<string>)
      requires entity != null ==> entity.Valid()
      modifies entity
      ensures entity != null ==> entity.Valid()
      ensures SubjectOf(host, entity) == old(SubjectOf(host, entity))
      ensures r == BodyHtml(host, layout, slots, old(SubjectOf(host, entity)))
    {
      if !HasBody(layout) {
        return Ok("");
      }
      var spread := ArraySpread(GetProp(layout, "elements"));
      if spread.Err? {
        return Err(spread.message);
      }
      var inner := GenerateElements(host, spread.value, slots, entity, clock);
      if inner.Err? {
        return Err(inner.message);
      }
      r := Ok("<div class=\"module-body\">" + inner.value + "</div>");
    }

    /** `generateLayoutSection(sectionType, sectionConfig, slots, entity)` */
    method GenerateLayoutSection(host: Host, sectionType: string, config: Value, slots: OMap<string, SlotDefinition>,
                                 entity: Entities.Entity?, clock: int) returns (r: Result<string>)
      requires entity != null ==> entity.Valid()
      modifies entity
      ensures entity != null ==> entity.Valid()
      ensures SubjectOf(host, entity) == old(SubjectOf(host, entity))
      ensures r == SectionHtml(host, sectionType, config, slots, old(SubjectOf(host, entity)))
    {
      var html := "<div class=\"module-" + sectionType + "\">";
      var elements := GetProp(config, "elements");
      if Truthy(elements) {
        var spread := ArraySpread(elements);
        if spread.Err? {
          return Err(spread.message);
        }
        var inner := GenerateElements(host, spread.value, slots, entity, clock);
        if inner.Err? {
          return Err(inner.message);
        }
        html := html + inner.value;
      }
      r := Ok(html + "</div>");
    }

    /** The `for (const element of elements)` loop shared by sections, the body and children. */
    method GenerateElements(host: Host, items: seq<Value>, slots: OMap<string, SlotDefinition>, entity: Entities.Entity?,
                            clock: int) returns (r: Result<string>)
      requires entity != null ==> entity.Valid()
      modifies entity
      ensures entity != null ==> entity.Valid()
      ensures SubjectOf(host, entity) == old(SubjectOf(host, entity))
      ensures r == ChildrenHtml(host, items, slots, old(SubjectOf(host, entity)))
      decreases Height(Arr(items)), 0
    {
      ghost var subject := SubjectOf(host, entity);
      var html := "";
      var i := 0;
      while i < |items|
        invariant 0 <= i <= |items|
        invariant entity != null ==> entity.Valid()
        invariant SubjectOf(host, entity) == subject
        invariant ChildrenHtml(host, items[..i], slots, subject) == Ok(html)
      {
        var next := GenerateNext(host, items, i, slots, entity, clock, subject, html);
        if next.Err? {
          return next;
        }
        html := next.value;
        i := i + 1;
      }
      assert items[..|items|] == items;
      r := Ok(html);
    }

    /** One turn of the loop of elements: the markup so far extended by the next element's, or the error the whole list then fails with. */
    method GenerateNext(host: Host, items: seq<Value>, i: nat, slots: OMap<string, SlotDefinition>, entity: Entities.Entity?,
                        clock: int, ghost subject: Option<Subject>, html: string) returns (next: Result<string>)
      requires i < |items| && (entity != null ==> entity.Valid()) && SubjectOf(host, entity) == subject
      requires ChildrenHtml(host, items[..i], slots, subject) == Ok(html)
      modifies entity
      ensures entity != null ==> entity.Valid()
      ensures SubjectOf(host, entity) == subject
      ensures next.Ok? ==> ChildrenHtml(host, items[..i + 1], slots, subject) == next
      ensures next.Err? ==> ChildrenHtml(host, items, slots, subject) == next
      decreases Height(Arr(items)), 0, 0
    {
      ItemLower(items, i);
      var element := GenerateLayoutElement(host, items[i], slots, entity, clock);
      ChildrenSnoc(host, items, i, slots, subject);
      if element.Err? {
        ChildrenStick(host, items, i + 1, slots, subject);
        return Err(element.message);
      }
      next := Ok(html + element.value);
    }

    /** `generateLayoutElement(element, slots, entity)` */
    method GenerateLayoutElement(host: Host, element: Value, slots: OMap<string, SlotDefinition>, entity: Entities.Entity?,
                                 clock: int) returns (r: Result<string>)
      requires entity != null ==> entity.Valid()
      modifies entity
      ensures entity != null ==> entity.Valid()
      ensures SubjectOf(host, entity) == old(SubjectOf(host, entity))
      ensures r == ElementHtml(host, element, slots, old(SubjectOf(host, entity)))
      decreases Height(element) + 1, 1
    {
      if IsNullish(element) {
        return Err(CannotDestructure);
      }
      var tag := GetProp(element, "element");
      var slot := GetProp(element, "slot");
      var attributes := Defaulted(GetProp(element, "attributes"), Obj([]));
      var children := Defaulted(GetProp(element, "children"), Arr([]));
      if IsNullish(attributes) {
        return Err(NotAnObject);
      }
      var open := OpenTagMarkup(host, tag, attributes, slot, slots);
      var content := "";
      if Truthy(slot) && slot.Str? && slot.s in slots.entries {
        var written := GenerateSlotContent(host, slots.entries[slot.s], tag, entity, clock);
        if written.Err? {
          return Err(written.message);
        }
        content := written.value;
      }
      var spread := ArraySpread(children);
      if spread.Err? {
        return Err(spread.message);
      }
      ChildrenNoHigher(element);
      var inner := GenerateElements(host, spread.value, slots, entity, clock);
      if inner.Err? {
        return Err(inner.message);
      }
      r := Ok(open + content + inner.value + CloseTag(host, tag));
    }

    /** `generateSlotContent(slotDef, tagName, entity)` */
    method GenerateSlotContent(host: Host, slot: SlotDefinition, tag: Value, entity: Entities.Entity?, clock: int)
      returns (r: Result<string>)
      requires entity != null ==> entity.Valid()
      modifies entity
      ensures entity != null ==> entity.Valid()
      ensures SubjectOf(host, entity) == old(SubjectOf(host, entity))
      ensures r == SlotContent(host, slot, tag, old(SubjectOf(host, entity)))
    {
      if tag == Str("input") {
        return Ok("");
      }
      if tag == Str("select") {
        if IsNullish(slot.options) {
          return Err(ReadOfNullish);
        }
        if IsPositive(LengthValue(slot.options)) {
          var spread := ArraySpread(slot.options);
          if spread.Err? {
            return Err(spread.message);
          }
          r := OptionsMarkup(host, spread.value);
          return;
        }
      }
      var content := EntityContent(host, slot.path, entity, clock);
      if content == "" {
        content := ToText(host, Or(Str(slot.placeholder), Or(slot.defaultValue, Str("{{" + (if slot.path == "" then "slot" else slot.path) + "}}"))));
      }
      r := Ok(content);
    }

    /** The `for (const option of options)` loop of `generateSlotContent`. */
    method OptionsMarkup(host: Host, options: seq<Value>) returns (r: Result<string>)
      ensures r == OptionsHtml(host, options)
    {
      var html := "";
      var i := 0;
      while i < |options|
        invariant 0 <= i <= |options|
        invariant OptionsHtml(host, options[..i]) == Ok(html)
      {
        var option := options[i];
        assert options[..i + 1][..i] == options[..i];
        if option.Null? {
          OptionsOutcome(host, options);
          return Err(ReadOfNullish);
        }
        var isObject := TypeOf(option) == "object";
        var value := if isObject then GetProp(option, "value") else option;
        var caption := if isObject then GetProp(option, "label") else option;
        var tagText := "<option value=\"" + ToText(host, value) + "\">" + ToText(host, caption) + "</option>";
        assert tagText == OptionTag(host, option);
        html := html + tagText;
        i := i + 1;
      }
      assert options[..|options|] == options;
      r := Ok(html);
    }

    /** The entity's part of `generateSlotContent`: the value at `Type.attribute` when the entity matches, `''` otherwise. */
    method EntityContent(host: Host, path: string, entity: Entities.Entity?, clock: int) returns (content: string)
      requires entity != null ==> entity.Valid()
      modifies entity
      ensures entity != null ==> entity.Valid()
      ensures SubjectOf(host, entity) == old(SubjectOf(host, entity))
      ensures content == EntityText(host, path, old(SubjectOf(host, entity)))
    {
      content := "";
      if entity != null && path != "" {
        var parts := Split(path, '.');
        if entity.entityType == parts[0] && |parts| > 1 && entity.HasAttribute(parts[1]) {
          ghost var attributes := entity.attributes;
          var v := entity.GetAttributeValue(host, parts[1], Undefined, clock);
          content := if v.Null? then "" else ToText(host, v);
          assert entity.attributes == attributes && entity.entityType == old(entity.entityType);
          var now, before := SubjectOf(host, entity).value.values, old(SubjectOf(host, entity)).value.values;
          assert now.Keys == before.Keys;
          forall k | k in now ensures now[k] == before[k] {
            assert now[k] == attributes.entries[k].GetValue(host, false);
          }
          assert now == before;
          assert SubjectOf(host, entity) == old(SubjectOf(host, entity));
        }
        assert SubjectOf(host, entity) == old(SubjectOf(host, entity));
      }
    }

    /** `formatHTML(html)`, with the depth of each line from `getHTMLDepth`. */
    method FormatHtml(html: string) returns (r: string)
      ensures r == HtmlFormat.FormatHtml(html)
    {
      var indented := IndentLines(Lines(html));
      r := Join(indented, "\n");
    }

    /** The `.map((line, index, array) => ...)` step of `formatHTML`: each line indented by its depth. */
    method IndentLines(lines: seq<string>) returns (indented: seq<string>)
      ensures indented == Indented(lines)
    {
      indented := [];
      var i := 0;
      while i < |lines|
        invariant 0 <= i <= |lines| && |indented| == i
        invariant forall j :: 0 <= j < i ==> indented[j] == Indented(lines)[j]
      {
        var depth := GetHtmlDepth(lines[i], lines[..i]);
        indented := indented + [Repeat("  ", depth) + lines[i]];
        i := i + 1;
      }
    }

    /** `getHTMLDepth(line, previousLines)`: the line itself plays no part. */
    method GetHtmlDepth(line: string, previousLines: seq<string>) returns (depth: nat)
      ensures depth == Depth(previousLines)
    {
      var openTags: seq<string> := [];
      var k := 0;
      while k < |previousLines|
        invariant 0 <= k <= |previousLines|
        invariant openTags == OpenTags(previousLines[..k])
      {
        var prevLine := previousLines[k];
        var pushed := PushOpened(openTags, OpenMatches(prevLine));
        openTags := PopClosed(pushed, CloseMatches(prevLine));
        assert previousLines[..k + 1][..k] == previousLines[..k];
        k := k + 1;
      }
      assert previousLines[..|previousLines|] == previousLines;
      depth := |openTags|;
    }

    /** The `openMatches.forEach` step of `getHTMLDepth`: each opening tag that does not close itself is pushed. */
    static method PushOpened(stack: seq<string>, opens: seq<OpenMatch>) returns (openTags: seq<string>)
      ensures openTags == Pushed(stack, opens)
    {
      openTags := stack;
      var a := 0;
      while a < |opens|
        invariant 0 <= a <= |opens|
        invariant openTags == Pushed(stack, opens[..a])
      {
        assert opens[..a + 1][..a] == opens[..a];
        if !opens[a].selfClosing {
          openTags := openTags + [opens[a].name];
        }
        a := a + 1;
      }
      assert opens[..|opens|] == opens;
    }

    /** The `closeMatches.forEach` step of `getHTMLDepth`: each closing tag removes the last open tag of its name. */
    static method PopClosed(stack: seq<string>, closes: seq<string>) returns (openTags: seq<string>)
      ensures openTags == Popped(stack, closes)
    {
      openTags := stack;
      var b := 0;
      while b < |closes|
        invariant 0 <= b <= |closes|
        invariant openTags == Popped(stack, closes[..b])
      {
        assert closes[..b + 1][..b] == closes[..b];
        openTags := RemoveLast(openTags, closes[b]);
        b := b + 1;
      }
      assert closes[..|closes|] == closes;
    }

    /** `getCompiledModule(moduleId)`: the cached module, or `null`. */
    function GetCompiledModule(moduleId: string): (r: Option<CompiledModule>)
      reads this
      ensures r.Some? <==> moduleId in compiledModules.entries
      ensures r.Some? ==> r.value == compiledModules.entries[moduleId]
    {
      if moduleId in compiledModules.entries then Some(compiledModules.entries[moduleId]) else None
    }

    /** `removeCompiledModule(moduleId)`: the id leaves all three caches. */
    method RemoveCompiledModule(moduleId: string)
      requires Valid()
      modifies this`compiledModules, this`templateCache, this`styleCache
      ensures Valid()
      ensures compiledModules == old(compiledModules).Remove(moduleId)
      ensures templateCache == old(templateCache).Remove(moduleId)
      ensures styleCache == old(styleCache).Remove(moduleId)
    {
      compiledModules := compiledModules.Remove(moduleId);
      templateCache := templateCache.Remove(moduleId);
      styleCache := styleCache.Remove(moduleId);
    }

    /** `clearCache()` */
    method ClearCache()
      modifies this`compiledModules, this`templateCache, this`styleCache
      ensures Valid()
      ensures compiledModules == EmptyMap() && templateCache == EmptyMap() && styleCache == EmptyMap()
    {
      compiledModules := EmptyMap();
      templateCache := EmptyMap();
      styleCache := EmptyMap();
    }

    /** `getStats()`: the size of each cache and the compiled ids in insertion order. */
    function GetStats(): (s: Stats)
      reads this
      requires Valid()
      ensures s.compiledModules == |s.modules| && s.modules == compiledModules.keys
      ensures forall id :: id in s.modules <==> GetCompiledModule(id).Some?
    {
      Stats(compiledModules.Size(), templateCache.Size(), styleCache.Size(), compiledModules.keys)
    }
  }

  /** Once a prefix of the list throws, the whole list throws the same error. */
  lemma {:induction false} ChildrenStick(host: Host, items: seq<Value>, n: nat, slots: OMap<string, SlotDefinition>, subject: Option<Subject>)
    requires n <= |items| && ChildrenHtml(host, items[..n], slots, subject).Err?
    ensures ChildrenHtml(host, items, slots, subject) == ChildrenHtml(host, items[..n], slots, subject)
    decreases |items| - n
  {
    if n < |items| {
      ChildrenSnoc(host, items, n, slots, subject);
      ChildrenStick(host, items, n + 1, slots, subject);
    } else {
      assert items[..n] == items;
    }
  }

  /** Writing one more attribute appends it. */
  lemma AttrTextSnoc(pairs: seq<(string, string)>, pair: (string, string))
    ensures AttrText(pairs + [pair]) == AttrText(pairs) + AttrOf(pair)
  {
    assert (pairs + [pair])[..|pairs|] == pairs;
  }

  /** The binding attributes as the source writes them, one after the other. */
  function BindingAttrs(slot: Value, slots: OMap<string, SlotDefinition>): string {
    if Binds(slot, slots) then
      var d := slots.entries[slot.s];
      AttrOf(("data-slot", slot.s)) + AttrOf(("data-path", d.path)) + AttrOf(("data-type", d.slotType))
      + (if d.editable then AttrOf(("data-editable", "true")) else "")
      + (if Truthy(d.required) then AttrOf(("data-required", "true")) else "")
    else ""
  }

  /** Writing the binding attributes of a slot gives `data-slot`, `data-path`, `data-type`, then the optional flags. */
  lemma BindingPairsText(slot: Value, slots: OMap<string, SlotDefinition>)
    ensures AttrText(BindingPairs(slot, slots)) == BindingAttrs(slot, slots)
  {
    if Binds(slot, slots) {
      var d := slots.entries[slot.s];
      var s1 := [("data-slot", slot.s)];
      assert AttrText(s1) == AttrOf(("data-slot", slot.s)) by {
        AttrTextSnoc([], ("data-slot", slot.s));
      }
      AttrTextSnoc(s1, ("data-path", d.path));
      var s2 := s1 + [("data-path", d.path)];
      AttrTextSnoc(s2, ("data-type", d.slotType));
      var s3 := s2 + [("data-type", d.slotType)];
      var s4 := s3 + (if d.editable then [("data-editable", "true")] else []);
      if d.editable {
        AttrTextSnoc(s3, ("data-editable", "true"));
      } else {
        assert s4 == s3;
      }
      assert AttrText(s4) == AttrText(s3) + (if d.editable then AttrOf(("data-editable", "true")) else "");
      var s5 := s4 + (if Truthy(d.required) then [("data-required", "true")] else []);
      if Truthy(d.required) {
        AttrTextSnoc(s4, ("data-required", "true"));
      } else {
        assert s5 == s4;
      }
      assert AttrText(s5) == AttrText(s4) + (if Truthy(d.required) then AttrOf(("data-required", "true")) else "");
      assert BindingPairs(slot, slots) == s5;
    }
  }

  /** The attributes of an opening tag: the element's own, then the slot's binding attributes, written in turn. */
  lemma BindingText(host: Host, entries: seq<(string, Value)>, slot: Value, slots: OMap<string, SlotDefinition>)
    ensures AttrText(EntryPairs(host, entries) + BindingPairs(slot, slots))
      == AttrText(EntryPairs(host, entries)) + BindingAttrs(slot, slots)
  {
    AttrTextAppend(EntryPairs(host, entries), BindingPairs(slot, slots));
    BindingPairsText(slot, slots);
  }

  /** The opening tag `generateLayoutElement` writes: the tag name, each attribute in turn, then the slot's binding attributes. */
  method OpenTagMarkup(host: Host, tag: Value, attributes: Value, slot: Value, slots: OMap<string, SlotDefinition>)
    returns (html: string)
    requires !IsNullish(attributes)
    ensures html == OpenTag(host, tag, attributes, slot, slots)
  {
    var entries := OwnEntries(attributes);
    var own := AttributesMarkup(host, entries);
    var binding := BindingMarkup(slot, slots);
    BindingText(host, entries, slot, slots);
    html := "<" + ToText(host, tag) + own + binding + ">";
  }

  /** The loop over `Object.entries(attributes)`: each one written as ` key="value"`. */
  method AttributesMarkup(host: Host, entries: seq<(string, Value)>) returns (text: string)
    ensures text == AttrText(EntryPairs(host, entries))
  {
    ghost var pairs := EntryPairs(host, entries);
    text := "";
    for i := 0 to |entries|
      invariant text == AttrText(pairs[..i])
    {
      assert pairs[..i + 1] == pairs[..i] + [pairs[i]];
      text := text + AttrOf((entries[i].0, ToText(host, entries[i].1)));
    }
    assert pairs[..|entries|] == pairs;
  }

  /** The binding attributes written when the element's slot names a slot of the module. */
  method BindingMarkup(slot: Value, slots: OMap<string, SlotDefinition>) returns (text: string)
    ensures text == BindingAttrs(slot, slots)
  {
    text := "";
    if Truthy(slot) && slot.Str? && slot.s in slots.entries {
      var d := slots.entries[slot.s];
      text := AttrOf(("data-slot", slot.s)) + AttrOf(("data-path", d.path)) + AttrOf(("data-type", d.slotType));
      var editable := if d.editable then AttrOf(("data-editable", "true")) else "";
      var required := if Truthy(d.required) then AttrOf(("data-required", "true")) else "";
      text := text + editable + required;
    }
  }
}
