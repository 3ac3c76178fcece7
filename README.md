# mvp-dynamic-docs core, modelled in Dafny

This project models the core of mvp-dynamic-docs, a browser application that builds documents from reusable modules bound to typed entity data. The model covers the following parts of the core:

- **Attributes.** An `Attribute` is a typed value with metadata, validators and transformers (`core/entity/Attribute.js`).
- **Entities.** An `Entity` is a named set of attributes with its own listeners and metadata (`core/entity/Entity.js`).
- **Attribute space.** The `AttributeSpace` is the global registry of entities and attributes. It has a four-tier subscription system, a bounded change history, and batches (`core/entity/AttributeSpace.js`).
- **Event bus.** The `EventBus` has priorities, one-shot listeners, wildcards, namespaces and a bounded history (`core/reactive/EventBus.js`).
- **Module definitions.** `ModuleDefinition` and `SlotDefinition` hold a module descriptor. The model covers their validation, binding and serialisation (`core/module/ModuleDefinition.js`).
- **Compiler.** The pure code generators of `ModuleCompiler`: markup, styles and formatting (`core/module/ModuleCompiler.js`).
- **Migrations.** `MigrationInterface` holds versioned export and import with chained migrations (`core/storage/MigrationInterface.js`).
- **Entity manager.** The core `EntityManager` creates, deletes, serialises and deserialises entities and schedules their saves (`core/entity/EntityManager.js`).

## How JavaScript behaviour is modelled

- **Values.** JavaScript values are the datatype `JsValues.Value`, with undefined, null, booleans, numbers as exact reals, NaN, strings, dates, arrays and objects. Objects keep their property order.
- **Host functions.** The host facilities the core calls but does not define are opaque functions of a `Host` parameter. These are `parseFloat`, `new Date`, `new URL`, regular-expression tests and number-to-text conversion.
- **Time and identifiers.** Clocks and random suffixes are parameters.
- **Callbacks.** A callback is an identity. Whether it throws is a parameter, given per identity.
- **Classes.** Classes whose methods update their fields are Dafny classes. Each method's contract states the new state in terms of the old one. Each class keeps ghost logs of what it notified: `changes`, `emitted`, `delivered` and `dispatched`.
- **Pure code.** Pure code becomes functions. Lemmas state its properties.
- **Quirks kept on purpose:**
  - `new Entity(type)` generates its id before it assigns the type, so the id starts with `entity_`. A clone's generated id starts with the lower-cased type.
  - `unregisterEntity` leaves the attribute keys in place.
  - The batch's `batchMode` flag is never read.
  - `Entity.validate` reports a required and empty attribute twice.

## Model

| member | source | states |
|---|---|---|
| Attributes.KindNameRoundTrip | mvp-dynamic-docs/core/entity/Attribute.js:122-194 | every type name maps to a kind and back to the same name, and every well-formed kind survives the reverse trip |
| Attributes.MergeMetadata | mvp-dynamic-docs/core/entity/Attribute.js:10-17 | the constructor's metadata defaults: `createdAt` now, source `user`, not required, editable, unless the input gives them |
| Attributes.MergeOfCopy | mvp-dynamic-docs/core/entity/Attribute.js:10-17 | spreading a complete metadata record over the defaults gives that record back |
| Attributes.DefaultValidators | mvp-dynamic-docs/core/entity/Attribute.js:304-354 | the default validators are at most five length and range rules, none of them custom |
| Attributes.AcceptingValidatorsAddNothing | mvp-dynamic-docs/core/entity/Attribute.js:99-108 | when every validator returns true, the validator loop adds no error |
| Attributes.RejectingValidatorLeavesMessage | mvp-dynamic-docs/core/entity/Attribute.js:99-108 | a validator that returns anything other than true, or throws, leaves at least one error |
| Attributes.TypeErrors | mvp-dynamic-docs/core/entity/Attribute.js:122-194 | the type check reports at most one error |
| Attributes.TypeCheckAcceptance | mvp-dynamic-docs/core/entity/Attribute.js:122-194 | null and undefined pass every kind; custom kinds accept anything; an integer is a whole number; a string is never an integer; an array is not an object |
| Attributes.ValidationIgnoresStamp | mvp-dynamic-docs/core/entity/Attribute.js:85-115 | validation does not depend on the `updatedAt` stamp, so restamping cannot change a verdict |
| Attributes.ZeroAndFalseAreNotBlank | mvp-dynamic-docs/core/entity/Attribute.js:88-90 | `0` and `false` count as present for `required` |
| Attributes.RequiredRejectsBlank | mvp-dynamic-docs/core/entity/Attribute.js:88-90 | a required attribute rejects null, undefined and `''`, and the first error is "`<name>` è obbligatorio" |
| Attributes.CoercionKeepsNullishAndStructured | mvp-dynamic-docs/core/entity/Attribute.js:201-251 | coercion leaves null and undefined alone, and leaves array, object and custom kinds alone |
| Attributes.IntegerKindReadsNumerals | mvp-dynamic-docs/core/entity/Attribute.js:201-251 | an integer attribute turns the decimal text of n into the number n |
| Attributes.IntegerKindTruncates | mvp-dynamic-docs/core/entity/Attribute.js:201-251 | `parseInt` keeps the leading digits: "12.7" and "12abc" both become 12 |
| Attributes.IntegerKindReadsPrefix | mvp-dynamic-docs/core/entity/Attribute.js:201-251 | any string that starts with "12" followed by a non-digit becomes 12 |
| Attributes.UnparsableNumberStringUnchanged | mvp-dynamic-docs/core/entity/Attribute.js:201-251 | a string `parseInt` cannot read stays a string, and the integer type check then rejects it |
| Attributes.BooleanKindReadsStrings | mvp-dynamic-docs/core/entity/Attribute.js:201-251 | a boolean attribute turns every string into a boolean: "TRUE", "True" and "1" become true, while "yes" and "" become false |
| Attributes.TextualCoercionIdempotent | mvp-dynamic-docs/core/entity/Attribute.js:201-251 | coercing a text, string, email or url value twice gives what coercing once gives |
| Attributes.TextCoercionPassesTypeCheck | mvp-dynamic-docs/core/entity/Attribute.js:122-251 | whatever a text or string attribute coerces passes its type check |
| Attributes.ThrowingTransformersSkipped | mvp-dynamic-docs/core/entity/Attribute.js:241-248 | when every custom transformer throws, the value passes through unchanged |
| Attributes.ApplyTransformersSnoc | mvp-dynamic-docs/core/entity/Attribute.js:241-248 | transformers run in insertion order, each on the previous one's output, and one that throws is skipped |
| Attributes.Display | mvp-dynamic-docs/core/entity/Attribute.js:258-279 | nullish values display as `''`; booleans as "Sì" or "No"; arrays joined with ", "; never null |
| Attributes.TypeDefaultHasItsKind | mvp-dynamic-docs/core/entity/Attribute.js:469-490 | each kind's default passes that kind's type check, except email and url |
| Attributes.EmailDefaultIsRejected | mvp-dynamic-docs/core/entity/Attribute.js:469-490 | the email kind's default `''` fails its own type check |
| Attributes.Attribute.constructor | mvp-dynamic-docs/core/entity/Attribute.js:6-22 | the name and kind are given; undefined becomes null; the metadata is merged over the defaults; the default validators are installed |
| Attributes.Attribute.SetupDefaultValidators | mvp-dynamic-docs/core/entity/Attribute.js:304-354 | appends the metadata's default validators and changes nothing else |
| Attributes.Attribute.AddValidator | mvp-dynamic-docs/core/entity/Attribute.js:285-289 | appends one validator and changes nothing else |
| Attributes.Attribute.AddTransformer | mvp-dynamic-docs/core/entity/Attribute.js:295-299 | appends one transformer and changes nothing else |
| Attributes.Attribute.Transform | mvp-dynamic-docs/core/entity/Attribute.js:201-251 | the loop yields the kind's coercion followed by every transformer in order |
| Attributes.Attribute.Validate | mvp-dynamic-docs/core/entity/Attribute.js:85-115 | the errors are the required error, the type error and the validators' messages, in that order; valid exactly when there is none |
| Attributes.Attribute.RunValidators | mvp-dynamic-docs/core/entity/Attribute.js:99-108 | the loop collects each validator's message in validator order |
| Attributes.Attribute.SetValue | mvp-dynamic-docs/core/entity/Attribute.js:30-64 | stores the coerced and transformed value, stamps `updatedAt` and logs the change exactly when validation passes; otherwise nothing changes, and the outcome is a throw or a refusal carrying the errors |
| Attributes.Attribute.Reset | mvp-dynamic-docs/core/entity/Attribute.js:458-463 | writes the metadata default, or else the kind's default, with notification; a rejected default changes nothing |
| Attributes.Attribute.Serialize | mvp-dynamic-docs/core/entity/Attribute.js:412-419 | the record holds the name, value and kind, and metadata that merges back to the attribute's own |
| Attributes.Attribute.Deserialize | mvp-dynamic-docs/core/entity/Attribute.js:426-429 | a fresh attribute with the record's name, kind, value and metadata, and the default validators |
| Attributes.Attribute.Clone | mvp-dynamic-docs/core/entity/Attribute.js:435-437 | a fresh attribute with the same name, kind, value and metadata (so, for a defined value, the same serialisation), holding only the default validators and no transformers |
| Entities.Patched | mvp-dynamic-docs/core/entity/Entity.js:329-333 | `{...metadata, ...newMetadata}`: each field the patch gives replaces the old one, and the others stay |
| Entities.GenerateId | mvp-dynamic-docs/core/entity/Entity.js:29-33 | a generated id starts with the lower-cased type and `_`, or with `entity_` when the type is unset or empty |
| JsStrings.LowerCase | mvp-dynamic-docs/core/entity/Entity.js:32-32 | `toLowerCase` keeps the length, maps each of `A`-`Z` to its lower-case letter, keeps every other code unit, and leaves no upper-case ASCII letter |
| Entities.TypedIdPrefix | mvp-dynamic-docs/core/entity/Entity.js:29-33 | a `Person` entity's generated id starts `person_`, an untyped one `entity_` |
| Entities.InferTypeOrder | mvp-dynamic-docs/core/entity/Entity.js:132-205 | type inference checks in source order. Nullish values become text. Numbers become integer when whole and number otherwise. Email is tested before url, and url before date. No string of at most 8 characters is a date. Exactly date objects and date-like strings become date |
| Entities.InferredKindAcceptsValue | mvp-dynamic-docs/core/entity/Entity.js:132-172 | the inferred kind's type check accepts the value it was inferred from, except NaN, which `typeof` calls a number but the number check rejects |
| Entities.Missing | mvp-dynamic-docs/core/entity/Entity.js:450-462 | the names of one list that the other side lacks, in list order |
| Entities.Changed | mvp-dynamic-docs/core/entity/Entity.js:464-477 | the names both sides have whose display values differ as JSON, each with the old and new display value |
| Entities.OfKind | mvp-dynamic-docs/core/entity/Entity.js:275-277 | exactly the attributes of the given kind |
| Entities.RequiredOf | mvp-dynamic-docs/core/entity/Entity.js:283-285 | exactly the required attributes |
| Entities.EmptyOf | mvp-dynamic-docs/core/entity/Entity.js:291-293 | exactly the attributes whose value is null, undefined or `''` |
| Entities.RemoveFirst | mvp-dynamic-docs/core/entity/Entity.js:351-358 | removing a tag drops one occurrence, its first, and leaves a list without the tag as it was |
| Entities.AddMissing | mvp-dynamic-docs/core/entity/Entity.js:494-501 | the `addNew` pass keeps the old names first and adds each new name once |
| Entities.KeptIn | mvp-dynamic-docs/core/entity/Entity.js:512-520 | the `removeDeleted` pass keeps exactly the names the other entity has |
| Entities.MergedNames | mvp-dynamic-docs/core/entity/Entity.js:487-524 | after `applyChanges`, a name is present iff it was present before or added from the other entity, and, with `removeDeleted`, the other entity has it |
| Entities.ChangeEvents | mvp-dynamic-docs/core/entity/Entity.js:82-97 | `attribute:changed` is announced at most once, exactly when the value was stored and the display value before is not strictly equal to the one after (NaN never equals itself) |
| Entities.Written | mvp-dynamic-docs/core/entity/Attribute.js:30-64 | a write with notification off keeps the name, kind, validators and transformers, and a write that is not stored changes nothing |
| Entities.RewriteKeepsValue | mvp-dynamic-docs/core/entity/Entity.js:82-97 | writing the same input twice stores the second time exactly when the first was stored, and leaves the same value |
| Entities.RewriteIsSilent | mvp-dynamic-docs/core/entity/Entity.js:82-97 | two writes of the same primitive announce `attribute:changed` at most once, and never on the second write |
| Entities.Added | mvp-dynamic-docs/core/entity/Entity.js:494-501 | the `addNew` pass yields every old attribute plus every attribute of the other entity's name list |
| Entities.AddedAt | mvp-dynamic-docs/core/entity/Entity.js:494-501 | the `addNew` pass leaves existing attributes alone and adopts each missing one from the other entity |
| Entities.Overwritten | mvp-dynamic-docs/core/entity/Entity.js:503-510 | the `overwriteExisting` pass keeps the set of names |
| Entities.OverwrittenAt | mvp-dynamic-docs/core/entity/Entity.js:503-510 | the `overwriteExisting` pass writes the other entity's value into each shared attribute once, and leaves the others alone |
| Entities.Kept | mvp-dynamic-docs/core/entity/Entity.js:512-520 | the `removeDeleted` pass keeps exactly the attributes whose names the other entity has |
| Entities.MergedStates | mvp-dynamic-docs/core/entity/Entity.js:487-524 | the merged attribute states have the names `MergedNames` describes |
| Entities.MergedByPasses | mvp-dynamic-docs/core/entity/Entity.js:487-524 | the add, overwrite and remove passes, each switched by its option, compose to `MergedStates` |
| Entities.MergedExisting | mvp-dynamic-docs/core/entity/Entity.js:487-524 | an attribute the entity had is kept as it was if the other lacks it (and `removeDeleted` is off), and is overwritten once with the other's value if both have it and `overwriteExisting` is on |
| Entities.MergedAdopted | mvp-dynamic-docs/core/entity/Entity.js:494-510 | an attribute only the other entity has ends up as the adopted copy, whether or not the overwrite pass writes it again |
| Entities.Entity.constructor | mvp-dynamic-docs/core/entity/Entity.js:8-23 | the given id or one generated while the type is still unset (so prefixed `entity_`), the type, no attributes or listeners, both stamps at the clock, schema version 1 and empty metadata |
| Entities.Joined | mvp-dynamic-docs/core/entity/Entity.js:529-534 | the listener table after `on`: the listener is in the event's set, which keeps its old listeners in front; every other event keeps its set; a listener already there changes nothing |
| Entities.Entity.On | mvp-dynamic-docs/core/entity/Entity.js:529-534 | the listener table becomes `Joined` of the old one: the listener joins the event's set once, at its end if it was new |
| Entities.Entity.Off | mvp-dynamic-docs/core/entity/Entity.js:536-540 | the listener leaves the event's set and nothing else changes |
| Entities.Entity.Emit | mvp-dynamic-docs/core/entity/Entity.js:542-564 | one announcement is logged with the event's listeners at that moment, and nothing else changes |
| Entities.Entity.CreateAttribute | mvp-dynamic-docs/core/entity/Entity.js:108-125 | a fresh attribute is stored under the name with the given or inferred kind and the merged metadata; `updatedAt` is stamped and nothing is announced |
| Entities.Entity.GetAttribute | mvp-dynamic-docs/core/entity/Entity.js:41-54 | an existing attribute is returned untouched; a missing one is created with source `auto-discovery` and announced when `autoCreate` is set, and otherwise the result is none |
| Entities.Entity.SetAttribute | mvp-dynamic-docs/core/entity/Entity.js:64-100 | creates a missing attribute (announcing `attribute:created`), then writes the value as `setValue` would, stamps `updatedAt` only on success, and announces exactly the `ChangeEvents` of the display values |
| Entities.Entity.AttributeToSet | mvp-dynamic-docs/core/entity/Entity.js:65-79 | the attribute `setAttribute` writes into, and the display value before; a missing one is created with value null and the entity's metadata defaults |
| Entities.Entity.StoreValue | mvp-dynamic-docs/core/entity/Entity.js:81-99 | the write is `Written`, and the announcements are `ChangeEvents` of the display values before and after |
| Entities.Entity.SetQuietly | mvp-dynamic-docs/core/entity/Entity.js:82-82 | the attribute's new state and whether the value was stored are `Written` of its old state |
| Entities.Entity.SetAttributeValue | mvp-dynamic-docs/core/entity/Entity.js:224-227 | `setAttribute` with the inferred kind for a new name; an existing attribute keeps its kind |
| Entities.Entity.GetAttributeValue | mvp-dynamic-docs/core/entity/Entity.js:213-216 | returns the display value; a missing name is auto-created, so the result is `''` and the name is appended |
| Entities.Entity.RemoveAttribute | mvp-dynamic-docs/core/entity/Entity.js:234-243 | reports whether the name existed; if so, removes it, stamps `updatedAt` and announces `attribute:removed`; otherwise nothing changes |
| Entities.Entity.Validate | mvp-dynamic-docs/core/entity/Entity.js:299-323 | the errors are every attribute's validation errors, then one message per required attribute that is empty; valid iff there are none |
| Entities.Entity.UpdateMetadata | mvp-dynamic-docs/core/entity/Entity.js:329-333 | the metadata is patched, `updatedAt` stamped and `metadata:updated` announced |
| Entities.Entity.AddTag | mvp-dynamic-docs/core/entity/Entity.js:339-345 | afterwards the tag is present; a new tag is appended, stamped and announced, and a known tag changes nothing |
| Entities.Entity.RemoveTag | mvp-dynamic-docs/core/entity/Entity.js:351-358 | the first occurrence of the tag is removed, with a stamp and `tag:removed`; an absent tag changes nothing |
| Entities.Entity.Records | mvp-dynamic-docs/core/entity/Entity.js:373-388 | one serialised record per attribute name, in the order given |
| Entities.Entity.Serialize | mvp-dynamic-docs/core/entity/Entity.js:373-388 | the record keeps the id, type and metadata, and its attribute keys follow JavaScript's property order (array-index names first) |
| Entities.Entity.Deserialize | mvp-dynamic-docs/core/entity/Entity.js:395-411 | a fresh entity with the record's id (or a generated one), stamps, schema version (or 1) and metadata, and one restored attribute per record, in record order |
| Entities.Entity.Clone | mvp-dynamic-docs/core/entity/Entity.js:418-429 | a fresh entity with the given id or one generated from its type, stamps at the clock, the same type, metadata and schema version, and a fresh copy of every attribute in property order |
| Entities.Entity.Compare | mvp-dynamic-docs/core/entity/Entity.js:436-480 | `added` holds exactly the names only the other entity has and `removed` the names only this one has; `changed` holds exactly the shared names whose display values differ as JSON, with both values |
| Entities.Entity.RemoveAbsent | mvp-dynamic-docs/core/entity/Entity.js:512-520 | the `removeDeleted` loop keeps exactly the names the other entity has, each with its own attribute |
| Entities.Entity.ApplyChanges | mvp-dynamic-docs/core/entity/Entity.js:487-524 | the names become `MergedNames`; when the two entities share no attribute objects, the states become `MergedStates`; the metadata becomes the other's, stamped, with `metadata:updated` last |
| Entities.BuildAttributes | mvp-dynamic-docs/core/entity/Entity.js:400-408 | every record is restored as a fresh attribute under its name, in record order |
| Entities.CompareWithItself | mvp-dynamic-docs/core/entity/Entity.js:436-480 | an entity compared with itself shows no difference |
| Entities.IndexOfTag | mvp-dynamic-docs/core/entity/Entity.js:351-358 | `indexOf` finds the first occurrence of the tag, or none when the tag is absent |
| Entities.SpliceIsRemoveFirst | mvp-dynamic-docs/core/entity/Entity.js:351-358 | splicing at the index `indexOf` finds removes the first occurrence |
| Entities.ValidateAll | mvp-dynamic-docs/core/entity/Entity.js:299-323 | the two validation loops collect what `EntityErrors` describes |
| Entities.AttributeErrorsContain | mvp-dynamic-docs/core/entity/Entity.js:303-308 | every error of every attribute appears among the entity's errors |
| Entities.BlankMessagesContain | mvp-dynamic-docs/core/entity/Entity.js:311-316 | every required attribute that is empty contributes its "è obbligatorio" message |
| Entities.RequiredEmptyReportedTwice | mvp-dynamic-docs/core/entity/Entity.js:299-323 | a required attribute that is empty is reported at least twice, once by its own validation and once by the required pass |
| AttributeSpaces.AttributeKey | mvp-dynamic-docs/core/entity/AttributeSpace.js:364-366 | the registry key is the entity id, then `::`, then the attribute name |
| AttributeSpaces.SplitAttributeKey | mvp-dynamic-docs/core/entity/AttributeSpace.js:364-366 | splitting a key at `::` gives back the entity id and the name, when neither contains the separator |
| AttributeSpaces.Subscribed | mvp-dynamic-docs/core/entity/AttributeSpace.js:205-223 | subscribing adds the callback to the key's set once, at its end if it was new, and leaves every other key alone |
| AttributeSpaces.Unsubscribed | mvp-dynamic-docs/core/entity/AttributeSpace.js:205-223 | unsubscribing removes the callback from the key's set, keeps the others in order, and drops the key when its set empties |
| AttributeSpaces.UnsubscribeTwice | mvp-dynamic-docs/core/entity/AttributeSpace.js:205-223 | unsubscribing twice is the same as unsubscribing once |
| AttributeSpaces.SubscribeThenUnsubscribe | mvp-dynamic-docs/core/entity/AttributeSpace.js:205-223 | the returned unsubscribe function undoes a subscription that was new |
| AttributeSpaces.Fanout | mvp-dynamic-docs/core/entity/AttributeSpace.js:302-304 | each callback of a set is called once, in set order, with the change data |
| AttributeSpaces.Recipients | mvp-dynamic-docs/core/entity/AttributeSpace.js:292-330 | one notification reaches every subscriber of the attribute, entity, type and global tiers that applies, with the change data |
| AttributeSpaces.RecipientsInTierOrder | mvp-dynamic-docs/core/entity/AttributeSpace.js:298-327 | the callbacks run attribute tier first, then entity tier, then type tier, then the global subscribers |
| AttributeSpaces.UnsubscribedNotCalled | mvp-dynamic-docs/core/entity/AttributeSpace.js:205-223 | after unsubscribing from an attribute, a callback subscribed nowhere else is not called for that attribute's changes |
| AttributeSpaces.Recorded | mvp-dynamic-docs/core/entity/AttributeSpace.js:455-466 | a change is appended to the history, and the oldest entry goes once 1000 are kept, so the bound holds |
| AttributeSpaces.Matching | mvp-dynamic-docs/core/entity/AttributeSpace.js:473-495 | exactly the entries that pass every filter given, in history order; empty filters and a zero `since` are ignored |
| AttributeSpaces.History | mvp-dynamic-docs/core/entity/AttributeSpace.js:473-498 | the filtered entries, cut to the newest `limit` when a positive limit is given |
| AttributeSpaces.Cleared | mvp-dynamic-docs/core/entity/AttributeSpace.js:504-513 | with a non-zero `before`, exactly the entries stamped at or after it stay; without one, the history empties |
| AttributeSpaces.Dispatches | mvp-dynamic-docs/core/entity/AttributeSpace.js:350-356 | one DOM event per notification, in notification order |
| AttributeSpaces.RegistrationsInOrder | mvp-dynamic-docs/core/entity/AttributeSpace.js:24-39 | `registerEntity` registers the entity's attributes one by one, in insertion order |
| AttributeSpaces.RegisterAllContains | mvp-dynamic-docs/core/entity/AttributeSpace.js:24-39 | after `registerEntity`, the registry holds the old keys plus one key per attribute of the entity, and nothing else |
| AttributeSpaces.EntityAttributesExact | mvp-dynamic-docs/core/entity/AttributeSpace.js:373-384 | `getEntityAttributes` maps exactly the entity's registered names to their attributes |
| AttributeSpaces.DistributionExact | mvp-dynamic-docs/core/entity/AttributeSpace.js:425-448 | each distribution lists every label once, with the number of attributes that carry it |
| AttributeSpaces.Tally | mvp-dynamic-docs/core/entity/AttributeSpace.js:425-448 | a count per label that occurs, equal to how often it occurs |
| AttributeSpaces.AttributeSpace.constructor | mvp-dynamic-docs/core/entity/AttributeSpace.js:6-18 | an empty registry, no subscribers and an empty history |
| AttributeSpaces.AttributeSpace.AddToHistory | mvp-dynamic-docs/core/entity/AttributeSpace.js:455-466 | the history becomes `Recorded` and nothing else changes |
| AttributeSpaces.AttributeSpace.CallEach | mvp-dynamic-docs/core/entity/AttributeSpace.js:302-304 | the loop calls each callback once, in order |
| AttributeSpaces.AttributeSpace.NotifyChange | mvp-dynamic-docs/core/entity/AttributeSpace.js:292-330 | records the change, delivers it to `Recipients` of the current subscribers, dispatches one DOM event, and leaves the registry unchanged |
| AttributeSpaces.AttributeSpace.RegisterAttribute | mvp-dynamic-docs/core/entity/AttributeSpace.js:139-150 | stores the attribute under its key and announces `attribute:registered` to every subscriber that applies |
| AttributeSpaces.AttributeSpace.UnregisterAttribute | mvp-dynamic-docs/core/entity/AttributeSpace.js:157-174 | a registered key is removed with its subscriptions, and the removal is announced; an unknown key changes nothing |
| AttributeSpaces.AttributeSpace.RegisterEach | mvp-dynamic-docs/core/entity/AttributeSpace.js:30-39 | the registration loop registers every attribute of the entity, in insertion order |
| AttributeSpaces.AttributeSpace.RegisterEntity | mvp-dynamic-docs/core/entity/AttributeSpace.js:24-69 | stores the entity, registers each of its attributes, adds the two entity listeners, and announces `entity:registered` last; the entity's listener table is the old one with the `attribute:changed` and then the `attribute:created` listener joined, every other event's set unchanged |
| AttributeSpaces.AttributeSpace.Forward | mvp-dynamic-docs/core/entity/AttributeSpace.js:46-60 | the two `entity.on` calls: the listener table is the old one with the two listeners joined, every other event's set unchanged, and nothing else of the entity changes |
| AttributeSpaces.AttributeSpace.UnregisterEntity | mvp-dynamic-docs/core/entity/AttributeSpace.js:75-100 | a known entity is removed with its entity-tier subscriptions, and the removal is announced; its attribute keys stay, and an unknown id changes nothing |
| AttributeSpaces.AttributeSpace.GetEntity | mvp-dynamic-docs/core/entity/AttributeSpace.js:107-109 | the registered entity under the id, or none |
| AttributeSpaces.AttributeSpace.GetAttribute | mvp-dynamic-docs/core/entity/AttributeSpace.js:182-185 | the registered attribute under the entity id and name, or none |
| AttributeSpaces.AttributeSpace.Subscribe | mvp-dynamic-docs/core/entity/AttributeSpace.js:205-223 | the attribute tier becomes `Subscribed` and nothing else changes |
| AttributeSpaces.AttributeSpace.Unsubscribe | mvp-dynamic-docs/core/entity/AttributeSpace.js:205-223 | the attribute tier becomes `Unsubscribed` and nothing else changes |
| AttributeSpaces.AttributeSpace.SubscribeToEntity | mvp-dynamic-docs/core/entity/AttributeSpace.js:231-246 | the entity tier gains the callback and nothing else changes |
| AttributeSpaces.AttributeSpace.UnsubscribeFromEntity | mvp-dynamic-docs/core/entity/AttributeSpace.js:231-246 | the entity tier loses the callback and nothing else changes |
| AttributeSpaces.AttributeSpace.SubscribeToType | mvp-dynamic-docs/core/entity/AttributeSpace.js:254-269 | the type tier gains the callback and nothing else changes |
| AttributeSpaces.AttributeSpace.UnsubscribeFromType | mvp-dynamic-docs/core/entity/AttributeSpace.js:254-269 | the type tier loses the callback and nothing else changes |
| AttributeSpaces.AttributeSpace.SubscribeGlobal | mvp-dynamic-docs/core/entity/AttributeSpace.js:276-282 | the global set gains the callback once and nothing else changes |
| AttributeSpaces.AttributeSpace.UnsubscribeGlobal | mvp-dynamic-docs/core/entity/AttributeSpace.js:276-282 | the global set loses the callback and nothing else changes |
| AttributeSpaces.AttributeSpace.GetEntitiesByType | mvp-dynamic-docs/core/entity/AttributeSpace.js:124-132 | exactly the registered entities of that type, in registration order |
| AttributeSpaces.AttributeSpace.GetEntityAttributes | mvp-dynamic-docs/core/entity/AttributeSpace.js:373-384 | exactly the entity's registered attributes, under their own names |
| AttributeSpaces.AttributeSpace.GetAttributesByType | mvp-dynamic-docs/core/entity/AttributeSpace.js:391-401 | exactly the registered attributes of that kind, under their keys, in registry order |
| AttributeSpaces.AttributeSpace.SearchAttributes | mvp-dynamic-docs/core/entity/AttributeSpace.js:408-419 | exactly the registered attributes whose name matches the pattern, in registry order |
| AttributeSpaces.AttributeSpace.CountLabels | mvp-dynamic-docs/core/entity/AttributeSpace.js:429-436 | the two counting loops give the tally of kind names and of entity ids |
| AttributeSpaces.AttributeSpace.GetStats | mvp-dynamic-docs/core/entity/AttributeSpace.js:425-448 | the totals are the registry and history sizes, and each distribution pairs every label with its count |
| AttributeSpaces.AttributeSpace.Export | mvp-dynamic-docs/core/entity/AttributeSpace.js:578-590 | one serialised record per registered attribute in property order, the stats, the history and the time |
| AttributeSpaces.AttributeSpace.SerializeEach | mvp-dynamic-docs/core/entity/AttributeSpace.js:580-582 | one serialised record per key, in key order |
| AttributeSpaces.AttributeSpace.Import | mvp-dynamic-docs/core/entity/AttributeSpace.js:596-609 | the space is cleared, then holds a fresh attribute restored from each record and the imported history |
| AttributeSpaces.AttributeSpace.ClearHistory | mvp-dynamic-docs/core/entity/AttributeSpace.js:504-513 | the history becomes `Cleared` and nothing else changes |
| AttributeSpaces.AttributeSpace.Clear | mvp-dynamic-docs/core/entity/AttributeSpace.js:565-572 | the registry, every subscription tier and the history empty; the entities stay |
| AttributeSpaceBatches.Resolve | mvp-dynamic-docs/core/entity/AttributeSpace.js:659 | a queued operation throws exactly when it is neither `registerAttribute` nor `unregisterAttribute` (see Left out) |
| AttributeSpaceBatches.ResolveAll | mvp-dynamic-docs/core/entity/AttributeSpace.js:658-660 | each queued operation is resolved in queue order |
| AttributeSpaceBatches.Completed | mvp-dynamic-docs/core/entity/AttributeSpace.js:657-661 | the operations before the first that throws all run, and none after it |
| AttributeSpaceBatches.CompletedAt | mvp-dynamic-docs/core/entity/AttributeSpace.js:657-661 | the number of operations that run is exactly the position of the first failure |
| AttributeSpaceBatches.StepEffect | mvp-dynamic-docs/core/entity/AttributeSpace.js:139-174 | one registration or removal makes at most one announcement |
| AttributeSpaceBatches.Applied | mvp-dynamic-docs/core/entity/AttributeSpace.js:657-661 | running the operations in order makes at most one announcement per operation |
| AttributeSpaceBatches.AttributeSpaceBatch.constructor | mvp-dynamic-docs/core/entity/AttributeSpace.js:616-620 | an empty queue, notifications suppressed by default |
| AttributeSpaceBatches.AttributeSpaceBatch.AddOperation | mvp-dynamic-docs/core/entity/AttributeSpace.js:627-630 | appends one operation to the queue |
| AttributeSpaceBatches.AttributeSpaceBatch.RegisterAttribute | mvp-dynamic-docs/core/entity/AttributeSpace.js:637-639 | queues one registration |
| AttributeSpaceBatches.AttributeSpaceBatch.UnregisterAttribute | mvp-dynamic-docs/core/entity/AttributeSpace.js:646-648 | queues one removal |
| AttributeSpaceBatches.AttributeSpaceBatch.Execute | mvp-dynamic-docs/core/entity/AttributeSpace.js:653-674 | the operations run until one throws. The registry, history, DOM events and callback deliveries are those of the operations that ran, followed by `batch:completed` unless the batch is quiet. The space's flag is restored. The queue empties only when every operation succeeded |
| AttributeSpaceBatches.AttributeSpaceBatch.RunBatch | mvp-dynamic-docs/core/entity/AttributeSpace.js:654-671 | the body of `execute` and its `finally`, with the same effects on the space |
| AttributeSpaceBatches.AttributeSpaceBatch.ApplyOperation | mvp-dynamic-docs/core/entity/AttributeSpace.js:659 | one operation has the effect of `registerAttribute` or `unregisterAttribute` on the space |
| EventBuses.Wildcards | mvp-dynamic-docs/core/reactive/EventBus.js:180-185 | each wildcard callback is wrapped at priority 0 with no condition, in set order |
| EventBuses.Added | mvp-dynamic-docs/core/reactive/EventBus.js:53-63 | the wrapper is appended to the event's set, which is created when missing; other events keep their sets, and no set is left empty |
| EventBuses.FirstIndex | mvp-dynamic-docs/core/reactive/EventBus.js:101-115 | the position found is that of the first wrapper whose original is the callback, and no earlier wrapper has it |
| EventBuses.FirstIndexUnique | mvp-dynamic-docs/core/reactive/EventBus.js:101-115 | any position that satisfies that description is the one the loop of `off` finds |
| EventBuses.Dropped | mvp-dynamic-docs/core/reactive/EventBus.js:92-130 | the first wrapper of the callback leaves the event's set, a set that empties is deleted, and every other event keeps its set |
| EventBuses.RemoveFirstCount | mvp-dynamic-docs/core/reactive/EventBus.js:92-130 | `off` removes exactly one registration of the callback when there is one and none otherwise, and leaves every other callback's count |
| EventBuses.OffUndoesOn | mvp-dynamic-docs/core/reactive/EventBus.js:53-130 | `off` right after `on` of a callback not yet registered for the event gives back the same table |
| EventBuses.Unseen | mvp-dynamic-docs/core/reactive/EventBus.js:287-296 | the events with once-only subscribers that have no durable set, without repeats |
| EventBuses.Matching | mvp-dynamic-docs/core/reactive/EventBus.js:397-414 | the records that pass the event and since filters (an empty event or a zero since is no filter), in history order |
| EventBuses.History | mvp-dynamic-docs/core/reactive/EventBus.js:397-414 | `getHistory` returns only matching records, and with a limit exactly the newest `limit` of them in order |
| EventBuses.Cleared | mvp-dynamic-docs/core/reactive/EventBus.js:420-429 | with a `before` time, the records at or after it remain; without one (or with 0, which is falsy) the history is emptied |
| EventBuses.PriorityOrder | mvp-dynamic-docs/core/reactive/EventBus.js:188 | the invocation order is a permutation of the gathered subscribers, by non-increasing priority, with each priority's subscribers in gathering order |
| EventBuses.GatheredOrder | mvp-dynamic-docs/core/reactive/EventBus.js:164-185 | among priority-0 subscribers, durable ones precede once-only ones, which precede the wildcards |
| EventBuses.InvokedFacts | mvp-dynamic-docs/core/reactive/EventBus.js:190-219 | every subscriber called passes its condition and comes from the invocation order, in that order; only the last one called may have returned `false` |
| EventBuses.DeliverQuiet | mvp-dynamic-docs/core/reactive/EventBus.js:191-230 | when nothing throws, the loop calls exactly the subscribers `Invoked` picks and resolves to their results in invocation order |
| EventBuses.EmitQuiet | mvp-dynamic-docs/core/reactive/EventBus.js:139-231 | an emission in which nothing throws records the event in the history, drops the event's once-only subscribers, calls the picked subscribers and returns their results |
| EventBuses.DeliverResolves | mvp-dynamic-docs/core/reactive/EventBus.js:221-227 | without `stopOnError` an emission never rejects |
| EventBuses.ThrownIsReported | mvp-dynamic-docs/core/reactive/EventBus.js:221-227 | a throwing subscriber is reported by an `eventbus:error` emission before anything else is emitted; with `stopOnError` the emission rejects with the error, otherwise the next subscriber runs |
| EventBuses.ReportedEmits | mvp-dynamic-docs/core/reactive/EventBus.js:354-370 | the report is an emission of the `eventbus:error` record carrying the error, the event name, the callback id and the timestamp |
| EventBuses.EmitEventKeeps | mvp-dynamic-docs/core/reactive/EventBus.js:152-160 | after an emission the history is the newest 500 of all records emitted since the last clear, and the event has no once-only subscriber left |
| EventBuses.EmitEventGrows | mvp-dynamic-docs/core/reactive/EventBus.js:152-157 | an emission only appends to the call and emission logs, and the first record it emits is its own |
| EventBuses.DeliverVisits | mvp-dynamic-docs/core/reactive/EventBus.js:191-228 | the loop is its turns one after another, ending at the first turn that stops it |
| EventBuses.EventBus.constructor | mvp-dynamic-docs/core/reactive/EventBus.js:6-18 | a bus with no subscribers, no namespaces and an empty history |
| EventBuses.EventBus.ListenerCount | mvp-dynamic-docs/core/reactive/EventBus.js:272-281 | durable plus once-only subscribers of the event |
| EventBuses.EventBus.EventNames | mvp-dynamic-docs/core/reactive/EventBus.js:287-296 | every event with a durable or once-only subscriber, each once |
| EventBuses.EventBus.GetNamespace | mvp-dynamic-docs/core/reactive/EventBus.js:303-310 | the namespace's bus, created empty and fresh on first use and the same bus afterwards; this bus's own tables are untouched |
| EventBuses.EventBus.Subscribe | mvp-dynamic-docs/core/reactive/EventBus.js:53-63 | the wrapper goes into the once-only or the durable table, nothing else changes |
| EventBuses.EventBus.On | mvp-dynamic-docs/core/reactive/EventBus.js:27-73 | a non-function is refused with an error and no change; with a namespace only the namespace's bus gains the subscriber; otherwise the wrapper is added to the once-only or durable set |
| EventBuses.EventBus.Once | mvp-dynamic-docs/core/reactive/EventBus.js:82-84 | `on` with `once` set: the wrapper lands in the once-only set |
| EventBuses.EventBus.FindCallback | mvp-dynamic-docs/core/reactive/EventBus.js:101-115 | the loop with `break` finds `FirstIndex` |
| EventBuses.EventBus.DropFrom | mvp-dynamic-docs/core/reactive/EventBus.js:101-129 | one table's part of `off` is `Dropped` |
| EventBuses.EventBus.OffHere | mvp-dynamic-docs/core/reactive/EventBus.js:92-130 | both tables lose the first wrapper of the callback for the event; the wildcards, history and namespaces stay |
| EventBuses.EventBus.Off | mvp-dynamic-docs/core/reactive/EventBus.js:92-130 | the same, on the namespace's bus when a namespace is given |
| EventBuses.EventBus.OnAny | mvp-dynamic-docs/core/reactive/EventBus.js:238-244 | a non-function is refused; a function joins the wildcard set once |
| EventBuses.EventBus.OffAny | mvp-dynamic-docs/core/reactive/EventBus.js:245-247 | the returned function takes exactly that callback out of the wildcard set |
| EventBuses.EventBus.RemoveAllListeners | mvp-dynamic-docs/core/reactive/EventBus.js:254-265 | with an event, only that event's two sets go and every other count is kept; with none, both tables and the wildcards are emptied |
| EventBuses.EventBus.RemoveNamespace | mvp-dynamic-docs/core/reactive/EventBus.js:316-321 | the namespace's bus loses every subscriber and the name leaves the table |
| EventBuses.EventBus.ClearHistory | mvp-dynamic-docs/core/reactive/EventBus.js:420-429 | the history becomes `Cleared` of the old one; subscribers stay |
| EventBuses.EventBus.Emit | mvp-dynamic-docs/core/reactive/EventBus.js:139-231 | with a namespace, only the namespace's bus emits; otherwise the bus's new history, once-only table, logs and result are those of `EmitEvent` on the record `emit` builds (source `unknown` when missing), the history stays within 500, and no once-only subscriber of the event remains |
| EventBuses.EventBus.Publish | mvp-dynamic-docs/core/reactive/EventBus.js:152-231 | recording, gathering, sorting and the loop change the bus as `EmitEvent` says and leave the durable table and wildcards alone |
| EventBuses.EventBus.Visit | mvp-dynamic-docs/core/reactive/EventBus.js:191-228 | one turn of the loop changes the bus and the results as `Visited` says |
| EventBuses.EventBus.HandleCallbackError | mvp-dynamic-docs/core/reactive/EventBus.js:354-370 | the bus changes as the `eventbus:error` emission `Reported` describes |
| EventBuses.EventBus.ProxyOn | mvp-dynamic-docs/core/reactive/EventBus.js:520-527 | the proxy subscribes under `prefix:event` |
| EventBuses.EventBus.ProxyOnce | mvp-dynamic-docs/core/reactive/EventBus.js:520-527 | the proxy's once-only subscription under `prefix:event` |
| EventBuses.EventBus.ProxyOff | mvp-dynamic-docs/core/reactive/EventBus.js:520-527 | the proxy removes the first wrapper under `prefix:event` |
| EventBuses.EventBus.ProxyEmit | mvp-dynamic-docs/core/reactive/EventBus.js:520-527 | the proxy emits `prefix:event` exactly as `emit` would |
| ModuleDefinitions.VersionOf | mvp-dynamic-docs/core/module/ModuleDefinition.js:261-263 | every `major.minor.patch` of digit runs, with an optional `-tag` suffix, is a valid version, leading zeros included (which section 2 of Semantic Versioning 2.0.0 forbids) |
| ModuleDefinitions.VersionParts | mvp-dynamic-docs/core/module/ModuleDefinition.js:261-263 | conversely, a valid version is exactly a dotted triple of numerals followed by nothing or a pre-release tag |
| ModuleDefinitions.TripleOf | mvp-dynamic-docs/core/module/ModuleDefinition.js:261-263 | three numerals joined by dots form a triple and split back into themselves |
| ModuleDefinitions.PlainVersionIsRange | mvp-dynamic-docs/core/module/ModuleDefinition.js:261-282 | a valid version without a dash is also a valid dependency range |
| ModuleDefinitions.ExactIsCaret | mvp-dynamic-docs/core/module/ModuleDefinition.js:273-274 | the caret pattern, whose `^` is optional, already accepts every exact version |
| ModuleDefinitions.RangeForms | mvp-dynamic-docs/core/module/ModuleDefinition.js:270-282 | `^`, `~`, `>`, `>=`, `<` and `<=` in front of a triple are valid ranges |
| ModuleDefinitions.PathOf | mvp-dynamic-docs/core/module/ModuleDefinition.js:492-542 | an entity type name and an attribute name joined by a dot form a valid path, from which the two segment queries give them back |
| ModuleDefinitions.PathParts | mvp-dynamic-docs/core/module/ModuleDefinition.js:492-542 | conversely, a valid path is its entity type and its attribute name, each of the right shape, joined by a dot |
| ModuleDefinitions.EntityTypeOf | mvp-dynamic-docs/core/module/ModuleDefinition.js:530-533 | the first segment: a dot-free prefix of the path |
| ModuleDefinitions.AttributeNameOf | mvp-dynamic-docs/core/module/ModuleDefinition.js:539-542 | the last segment: dot-free, and the whole path when it has no dot |
| ModuleDefinitions.NewSlot | mvp-dynamic-docs/core/module/ModuleDefinition.js:427-440 | the constructor's defaults: type `text`, `editable` unless explicitly `false`, the label falling back on the name |
| ModuleDefinitions.RulesTyped | mvp-dynamic-docs/core/module/ModuleDefinition.js:500-524 | the validation rules pass iff each of min, max, minLength and maxLength that is present is a number and a present pattern is a string |
| ModuleDefinitions.ValidateSlot | mvp-dynamic-docs/core/module/ModuleDefinition.js:446-486 | the only warning is the one for a missing path |
| ModuleDefinitions.SlotValid | mvp-dynamic-docs/core/module/ModuleDefinition.js:446-486 | a slot is valid iff it has a name, its path is absent or well formed, its type is listed, a select has options and its rules are typed; each failed check leaves its own message |
| ModuleDefinitions.SlotEntityType | mvp-dynamic-docs/core/module/ModuleDefinition.js:530-533 | `null` exactly for a slot without a path; for a valid path, the part before the dot |
| ModuleDefinitions.SlotAttributeName | mvp-dynamic-docs/core/module/ModuleDefinition.js:539-542 | `null` exactly for a slot without a path; for a valid path, the part after the dot |
| ModuleDefinitions.ElementErrors | mvp-dynamic-docs/core/module/ModuleDefinition.js:153-176 | a `null` or `undefined` element throws; any other element gets no error iff its tag is listed, its slot (if any) exists and an input has `attributes.type` |
| ModuleDefinitions.ElementsThrow | mvp-dynamic-docs/core/module/ModuleDefinition.js:130-139 | the element loop throws iff some element is `null` or `undefined` |
| ModuleDefinitions.ElementsPass | mvp-dynamic-docs/core/module/ModuleDefinition.js:130-139 | the element loop finds nothing iff every element is present and accepted |
| ModuleDefinitions.LayoutAccepted | mvp-dynamic-docs/core/module/ModuleDefinition.js:118-145 | the layout passes iff its type is listed, its elements are an array and every element is accepted; a non-array `elements` is an error |
| ModuleDefinitions.StylingErrors | mvp-dynamic-docs/core/module/ModuleDefinition.js:182-203 | no error iff a present theme is one of the five and a present spacing one of the three |
| ModuleDefinitions.DependencyErrors | mvp-dynamic-docs/core/module/ModuleDefinition.js:217-239 | a `null` dependency throws; otherwise no error iff a string is a valid id, or an object has a `module_id` and a version of one of the six range forms |
| ModuleDefinitions.DependenciesThrow | mvp-dynamic-docs/core/module/ModuleDefinition.js:217-239 | the dependency loop throws iff some dependency is `null` |
| ModuleDefinitions.DependenciesPass | mvp-dynamic-docs/core/module/ModuleDefinition.js:209-245 | the dependency loop finds nothing iff every dependency is accepted |
| ModuleDefinitions.SlotErrorsPrefixed | mvp-dynamic-docs/core/module/ModuleDefinition.js:75-87 | every error the slot loop adds starts with `Slot '` |
| ModuleDefinitions.SlotErrorsNone | mvp-dynamic-docs/core/module/ModuleDefinition.js:75-87 | the slot loop adds no error iff every slot is valid |
| ModuleDefinitions.SlotReportsStep | mvp-dynamic-docs/core/module/ModuleDefinition.js:79-86 | one turn of the slot loop adds the slot's errors only when it is invalid, and its warnings, both under the slot's prefix |
| ModuleDefinitions.HeadAccepted | mvp-dynamic-docs/core/module/ModuleDefinition.js:56-72 | the id and version checks pass iff the id is a non-empty run of `[a-z0-9-]` and the version is valid |
| ModuleDefinitions.ValidationAccepts | mvp-dynamic-docs/core/module/ModuleDefinition.js:51-112 | `validate()` neither throws nor reports an error iff the id, the version, every slot, the layout, the styling and the dependencies pass |
| ModuleDefinitions.NoSlotsOnlyWarns | mvp-dynamic-docs/core/module/ModuleDefinition.js:75-77 | a module without slots gets exactly one warning, and its errors are only those of the other checks |
| ModuleDefinitions.SegmentsDistinct | mvp-dynamic-docs/core/module/ModuleDefinition.js:288-318 | the path queries return no name twice |
| ModuleDefinitions.SegmentsMembers | mvp-dynamic-docs/core/module/ModuleDefinition.js:288-318 | the path queries return exactly the segments of the slots that have a path |
| ModuleDefinitions.MissingMembers | mvp-dynamic-docs/core/module/ModuleDefinition.js:330 | the missing names are exactly the required names the entity lacks |
| ModuleDefinitions.CompatibleIff | mvp-dynamic-docs/core/module/ModuleDefinition.js:325-339 | an entity is compatible iff no slot has a path or some slot's path names its type, and it has the attribute named by every slot's path |
| ModuleDefinitions.SupportedIff | mvp-dynamic-docs/core/module/ModuleDefinition.js:329 | the type check passes iff no slot has a path or some path names the type |
| ModuleDefinitions.RequiredIff | mvp-dynamic-docs/core/module/ModuleDefinition.js:330-333 | nothing is missing iff the entity has the attribute of every slot's path |
| ModuleDefinitionClass.SetPropAppends | mvp-dynamic-docs/core/module/ModuleDefinition.js:345-365 | setting a property an object lacks appends it |
| ModuleDefinitionClass.SpreadCopies | mvp-dynamic-docs/core/module/ModuleDefinition.js:359-361 | `{...o}` of an ordinary object copies its properties in order |
| ModuleDefinitionClass.ArraySpread | mvp-dynamic-docs/core/module/ModuleDefinition.js:357-362 | `[...v]` succeeds exactly on arrays and strings: an array's items, or a string's characters |
| ModuleDefinitionClass.SerializeSlot | mvp-dynamic-docs/core/module/ModuleDefinition.js:548-562 | a slot serialises iff its options are iterable; otherwise the spread throws |
| ModuleDefinitionClass.SlotRoundTrip | mvp-dynamic-docs/core/module/ModuleDefinition.js:548-562 | a slot built from the serialisation of a constructed slot with array options and plain rules and metadata is the same slot |
| ModuleDefinitionClass.SlotOptionsSpread | mvp-dynamic-docs/core/module/ModuleDefinition.js:559 | string options serialise to the array of their characters, and any other non-array throws |
| ModuleDefinitionClass.ParsedSlotsContents | mvp-dynamic-docs/core/module/ModuleDefinition.js:40-45 | after `parseSlots`, the names are the old ones plus every entry's, and each name holds the old slot or a slot built from an entry of that name |
| ModuleDefinitionClass.ParsedSlotsKeys | mvp-dynamic-docs/core/module/ModuleDefinition.js:40-45 | entries with distinct names become slots in entry order |
| ModuleDefinitionClass.ParsedSlotsStep | mvp-dynamic-docs/core/module/ModuleDefinition.js:41-44 | one turn of the loop sets one slot under its name |
| ModuleDefinitionClass.ListSlots | mvp-dynamic-docs/core/module/ModuleDefinition.js:346-349 | the loop of `serialize` lists every slot's serialisation under its name in map order, or fails exactly when some slot's options are not iterable |
| ModuleDefinitionClass.SortedListing | mvp-dynamic-docs/core/module/ModuleDefinition.js:346-349 | the listing has one entry per slot name, still distinct after reordering into property order |
| ModuleDefinitionClass.SlotsRoundTrip | mvp-dynamic-docs/core/module/ModuleDefinition.js:345-374 | reading back the serialised slots gives the same slots under the same names, in the same order when no name is an array index |
| ModuleDefinitionClass.Outcome | mvp-dynamic-docs/core/module/ModuleDefinition.js:107-111 | `validate()` returns the two lists exactly when nothing was thrown, and otherwise throws the escaped error |
| ModuleDefinitionClass.ModuleDefinition.Parse | mvp-dynamic-docs/core/module/ModuleDefinition.js:6-31 | the constructor up to its `validate()`: the defaults, the stamped metadata, the parsed slots, empty lists |
| ModuleDefinitionClass.ModuleDefinition.ParseEntries | mvp-dynamic-docs/core/module/ModuleDefinition.js:40-45 | the slot map becomes `ParsedSlots` of the entries |
| ModuleDefinitionClass.ModuleDefinition.Create | mvp-dynamic-docs/core/module/ModuleDefinition.js:6-34 | `new ModuleDefinition(data)` throws iff its validation throws; otherwise the module has the descriptor's fields with their defaults, the stamped metadata, and the validation's errors and warnings |
| ModuleDefinitionClass.ModuleDefinition.NewParsed | mvp-dynamic-docs/core/module/ModuleDefinition.js:6-31 | the constructor before its `validate()`: the descriptor's fields with their defaults and the stamped metadata |
| ModuleDefinitionClass.StampedHasShape | mvp-dynamic-docs/core/module/ModuleDefinition.js:20-24 | the constructor's metadata is an ordinary object whose first keys after its array indices are `createdAt` and then `updatedAt` |
| ModuleDefinitionClass.RestampedMetadata | mvp-dynamic-docs/core/module/ModuleDefinition.js:20-24 | building the metadata again from the spread of metadata of that shape gives the same metadata, whatever the new stamps and clock |
| ModuleDefinitionClass.StampsAssigned | mvp-dynamic-docs/core/module/ModuleDefinition.js:20-24 | spreading properties that hold both stamps over the two fresh stamps puts the stamps, with the spread's values, in front of the other properties |
| ModuleDefinitionClass.WithoutStamps | mvp-dynamic-docs/core/module/ModuleDefinition.js:20-24 | taking the two stamps out of properties with distinct keys leaves the others in order, still distinct |
| ModuleDefinitionClass.OrderedStampsShape | mvp-dynamic-docs/core/module/ModuleDefinition.js:20-24 | listing in property order an object whose first keys are the stamps gives that shape |
| ModuleDefinitionClass.AssignPastHead | mvp-dynamic-docs/core/module/ModuleDefinition.js:20-24 | spreading over a head and a tail with different keys keeps the head's keys in place and spreads the rest over the tail |
| ModuleDefinitionClass.AssignLookup | mvp-dynamic-docs/core/module/ModuleDefinition.js:20-24 | after a spread, a key the spread has holds the spread's value, and any other key its old value |
| ModuleDefinitionClass.AssignDistinct | mvp-dynamic-docs/core/module/ModuleDefinition.js:20-24 | a spread keeps the keys distinct |
| ModuleDefinitionClass.SetPropSplit | mvp-dynamic-docs/core/module/ModuleDefinition.js:20-24 | setting a property sets it where its key first occurs |
| StableSort.SortedBackInPlace | mvp-dynamic-docs/core/module/ModuleDefinition.js:20-24 | two neighbours of an ascending sequence that share a key above every key before them, moved to the front, are sorted back to where they were |
| ModuleDefinitionClass.ModuleDefinition.ValidateParsed | mvp-dynamic-docs/core/module/ModuleDefinition.js:33 | the constructor's validation, stated against the descriptor |
| ModuleDefinitionClass.ModuleDefinition.Validate | mvp-dynamic-docs/core/module/ModuleDefinition.js:51-112 | the lists are rebuilt as `Validation` says, and the result is `Outcome` of that report |
| ModuleDefinitionClass.ModuleDefinition.LaterValidation | mvp-dynamic-docs/core/module/ModuleDefinition.js:89-105 | the layout, styling and dependency checks append their errors in that order until one throws |
| ModuleDefinitionClass.ModuleDefinition.CheckSlots | mvp-dynamic-docs/core/module/ModuleDefinition.js:79-87 | the slot loop computes `SlotReports` |
| ModuleDefinitionClass.ModuleDefinition.ValidateLayout | mvp-dynamic-docs/core/module/ModuleDefinition.js:118-145 | the method computes `LayoutErrors` |
| ModuleDefinitionClass.ModuleDefinition.ValidateElements | mvp-dynamic-docs/core/module/ModuleDefinition.js:130-139 | the element loop computes `ElementsErrors` |
| ModuleDefinitionClass.ModuleDefinition.ValidateDependencies | mvp-dynamic-docs/core/module/ModuleDefinition.js:209-245 | the dependency loop computes `DependencyCheck` |
| ModuleDefinitionClass.ModuleDefinition.GetRequiredAttributes | mvp-dynamic-docs/core/module/ModuleDefinition.js:288-300 | the distinct attribute names of the slot paths, in slot order |
| ModuleDefinitionClass.ModuleDefinition.GetSupportedEntityTypes | mvp-dynamic-docs/core/module/ModuleDefinition.js:306-318 | the distinct entity types of the slot paths, in slot order |
| ModuleDefinitionClass.ModuleDefinition.CollectSegments | mvp-dynamic-docs/core/module/ModuleDefinition.js:291-297 | the loop adds each segment once |
| ModuleDefinitionClass.ModuleDefinition.IsCompatibleWith | mvp-dynamic-docs/core/module/ModuleDefinition.js:325-339 | the result is `CompatibilityOf` the slots, the entity's type and its attribute names |
| ModuleDefinitionClass.ModuleDefinition.MissingAttributes | mvp-dynamic-docs/core/module/ModuleDefinition.js:330 | the required names the entity lacks |
| ModuleDefinitionClass.ModuleDefinition.Serialize | mvp-dynamic-docs/core/module/ModuleDefinition.js:345-365 | the descriptor keeps id, version, name, description and author; it fails iff some slot's options, the tags or the dependencies are not iterable |
| ModuleDefinitionClass.ModuleDefinition.Clone | mvp-dynamic-docs/core/module/ModuleDefinition.js:372-404 | the copy has the same header fields, the same metadata, copies of the arrays and objects, and, when every slot is copied exactly, the same slots under the same names |
| ModuleDefinitionClass.ModuleDefinition.CopiedFields | mvp-dynamic-docs/core/module/ModuleDefinition.js:345-374 | a module built from this module's serialisation has its header fields and copies of the rest |
| ModuleDefinitionClass.ModuleDefinition.CopiedSlots | mvp-dynamic-docs/core/module/ModuleDefinition.js:345-374 | a module built from this module's serialisation has its slots when every slot is copied exactly |
| ModuleDefinitionClass.ElementsErrorsStick | mvp-dynamic-docs/core/module/ModuleDefinition.js:134-138 | once an element throws, the loop throws that error whatever follows |
| ModuleDefinitionClass.DependenciesErrorsStick | mvp-dynamic-docs/core/module/ModuleDefinition.js:217-239 | once a dependency throws, the loop throws that error whatever follows |
| CompilerMarkup.AttrTextAppend | mvp-dynamic-docs/core/module/ModuleCompiler.js:152-153 | writing two attribute lists writes one after the other |
| CompilerMarkup.EntryPairs | mvp-dynamic-docs/core/module/ModuleCompiler.js:151-153 | one ` name="value"` pair per own property of `attributes`, in order |
| CompilerMarkup.BindingAttributes | mvp-dynamic-docs/core/module/ModuleCompiler.js:156-169 | an element bound to a slot of the module carries `data-slot`, `data-path` and `data-type` first, and `data-editable`/`data-required` exactly when the slot is editable/required; an unbound element carries none of them |
| CompilerMarkup.ChainOutcome | mvp-dynamic-docs/core/module/ModuleCompiler.js:180-182 | a run of renderings succeeds iff each does, and otherwise fails with the error of the first that fails |
| CompilerMarkup.ElementResults | mvp-dynamic-docs/core/module/ModuleCompiler.js:180-182 | each child rendered on its own |
| CompilerMarkup.ChildrenChain | mvp-dynamic-docs/core/module/ModuleCompiler.js:180-182 | the child loop renders the children one by one and concatenates them until one throws |
| CompilerMarkup.ChildrenOutcome | mvp-dynamic-docs/core/module/ModuleCompiler.js:180-182 | a list of elements renders iff every element does; otherwise it throws the error of the first element that throws |
| CompilerMarkup.ChildrenSnoc | mvp-dynamic-docs/core/module/ModuleCompiler.js:180-182 | rendering one more element appends its markup |
| CompilerMarkup.ElementShape | mvp-dynamic-docs/core/module/ModuleCompiler.js:145-191 | an element's markup opens with its opening tag and, unless the tag is input, img, br, hr, meta or link, ends with its closing tag |
| CompilerMarkup.ChildrenNoHigher | mvp-dynamic-docs/core/module/ModuleCompiler.js:146 | the children an element iterates are never deeper than the element (the recursion terminates) |
| CompilerMarkup.OptionsOutcome | mvp-dynamic-docs/core/module/ModuleCompiler.js:209-217 | the options of a select render iff none is `null`, and then as one `<option>` per option in order |
| CompilerMarkup.OptionsFail | mvp-dynamic-docs/core/module/ModuleCompiler.js:212-213 | reading the value of a `null` option throws, and only then |
| CompilerMarkup.EntityTextSource | mvp-dynamic-docs/core/module/ModuleCompiler.js:220-227 | only an entity whose type is the path's first segment and that has the attribute supplies a slot's text, which is that attribute's value as text |
| CompilerMarkup.TextContentFallback | mvp-dynamic-docs/core/module/ModuleCompiler.js:219-235 | the entity's value when it matches and is not `null` or empty, then the placeholder, then the default value, then `{{path}}` |
| CompilerMarkup.PathParts | mvp-dynamic-docs/core/module/ModuleCompiler.js:222 | `Type.attribute` destructures into the type and the attribute |
| CompilerMarkup.BodyPresence | mvp-dynamic-docs/core/module/ModuleCompiler.js:99-105 | the body `div` is written iff `layout.elements` is non-empty |
| CompilerMarkup.SectionShape | mvp-dynamic-docs/core/module/ModuleCompiler.js:94-136 | a header or footer, when set, is a `div` of class `module-<type>` |
| CompilerMarkup.IdCharacters | mvp-dynamic-docs/core/module/ModuleCompiler.js:91 | a valid module id puts no `<`, `>` or line break into the container tag |
| CompilerMarkup.ContainerClean | mvp-dynamic-docs/core/module/ModuleCompiler.js:91 | the container tag of a valid id is a single clean line |
| CompilerMarkup.ContentsStartWithTag | mvp-dynamic-docs/core/module/ModuleCompiler.js:93-112 | what follows the container tag starts with a tag |
| CompilerMarkup.GeneratedHtml | mvp-dynamic-docs/core/module/ModuleCompiler.js:88-115 | rendering fails when the layout is `null` or `undefined` |
| CompilerMarkup.ContainerFirst | mvp-dynamic-docs/core/module/ModuleCompiler.js:88-115 | the formatted markup of a valid id starts with the container `div` carrying `data-module-id`, alone and unindented on the first line |
| CompilerMarkup.TableEntry | mvp-dynamic-docs/core/module/ModuleCompiler.js:285-349 | a table's entry for a key is absent iff no row has the key, and otherwise comes from a row with it |
| CompilerMarkup.StylesLookup | mvp-dynamic-docs/core/module/ModuleCompiler.js:285-349 | a known theme, spacing or layout key gets its own declarations; any other key gets those of the fallback (minimal, normal, card) |
| CompilerMarkup.ThemeTableMatchesValidator | mvp-dynamic-docs/core/module/ModuleCompiler.js:285-316 | the themes with declarations are exactly the five the validator accepts, in the same order |
| CompilerMarkup.SpacingTableMatchesValidator | mvp-dynamic-docs/core/module/ModuleCompiler.js:323-331 | the spacings with declarations are exactly the three the validator accepts |
| CompilerMarkup.LayoutTableMatchesValidator | mvp-dynamic-docs/core/module/ModuleCompiler.js:338-349 | the layout types with declarations are exactly the six the validator accepts |
| CompilerMarkup.GeneratedCss | mvp-dynamic-docs/core/module/ModuleCompiler.js:242-278 | the style sheet generates iff styling and layout are set, and opens with the module's comment line |
| CompilerMarkup.CssEnding | mvp-dynamic-docs/core/module/ModuleCompiler.js:267-275 | the style sheet ends with the custom rules when they are set, and with the element rules otherwise |
| HtmlFormat.Breaks | mvp-dynamic-docs/core/module/ModuleCompiler.js:576 | the replacement only inserts line breaks and keeps the first character |
| HtmlFormat.BreaksLeaveNoTagPair | mvp-dynamic-docs/core/module/ModuleCompiler.js:576 | after the replacement no `>` is directly followed by `<` |
| HtmlFormat.BreaksKeepUnbroken | mvp-dynamic-docs/core/module/ModuleCompiler.js:576 | markup without `><` is left as it is |
| HtmlFormat.BreaksAppend | mvp-dynamic-docs/core/module/ModuleCompiler.js:576 | breaking a concatenation breaks each part, plus one break where a `>` meets a `<` |
| HtmlFormat.NonBlank | mvp-dynamic-docs/core/module/ModuleCompiler.js:579 | only non-empty lines are kept |
| HtmlFormat.TrimAll | mvp-dynamic-docs/core/module/ModuleCompiler.js:578 | one trimmed line per piece |
| HtmlFormat.LinesShape | mvp-dynamic-docs/core/module/ModuleCompiler.js:575-579 | every line is non-empty, trimmed, holds no line break and no `><` |
| HtmlFormat.WordRun | mvp-dynamic-docs/core/module/ModuleCompiler.js:603-612 | the tag name a pattern captures: the longest run of word characters |
| HtmlFormat.RemoveLast | mvp-dynamic-docs/core/module/ModuleCompiler.js:613-616 | removing the last open tag of a name takes out one occurrence when there is one, and nothing otherwise |
| HtmlFormat.PushedAppends | mvp-dynamic-docs/core/module/ModuleCompiler.js:601-608 | the opening tags of a line that do not close themselves are pushed in order |
| HtmlFormat.PoppedBounds | mvp-dynamic-docs/core/module/ModuleCompiler.js:610-618 | each closing tag removes at most one open tag and adds none |
| HtmlFormat.DepthStep | mvp-dynamic-docs/core/module/ModuleCompiler.js:597-621 | a line raises the depth by at most the tags it opens and lowers it by at most the tags it closes |
| HtmlFormat.OpenTagsWereOpened | mvp-dynamic-docs/core/module/ModuleCompiler.js:597-621 | only a tag some earlier line opened can be open |
| HtmlFormat.OpeningTagOpens | mvp-dynamic-docs/core/module/ModuleCompiler.js:598-608 | an opening tag is one match, not self-closing, with the tag's name |
| HtmlFormat.ClosingTagMatches | mvp-dynamic-docs/core/module/ModuleCompiler.js:599-618 | a closing tag `</name>` closes that name and opens nothing |
| HtmlFormat.OpeningLineDeepens | mvp-dynamic-docs/core/module/ModuleCompiler.js:593-622 | a line holding one opening tag leaves it open one level deeper |
| HtmlFormat.ClosingLineRises | mvp-dynamic-docs/core/module/ModuleCompiler.js:593-622 | a line `</name>` removes the last open tag of that name: one level shallower when it is open, no change otherwise |
| HtmlFormat.Indented | mvp-dynamic-docs/core/module/ModuleCompiler.js:580-583 | one indented line per line |
| HtmlFormat.SplitJoin | mvp-dynamic-docs/core/module/ModuleCompiler.js:584 | joining lines by line breaks and splitting again gives them back |
| HtmlFormat.FormattedLines | mvp-dynamic-docs/core/module/ModuleCompiler.js:573-585 | the formatted text, split at its line breaks, is the trimmed non-blank lines, each indented by two spaces per tag the earlier lines leave open |
| HtmlFormat.FirstLine | mvp-dynamic-docs/core/module/ModuleCompiler.js:573-585 | markup that starts with a clean tag followed by another tag formats with that tag alone and unindented on the first line |
| ModuleCompilers.GeneratedOutcome | mvp-dynamic-docs/core/module/ModuleCompiler.js:46-50 | generation succeeds iff the markup renders and the styling is set, and the module then carries both |
| ModuleCompilers.StagedOutcome | mvp-dynamic-docs/core/module/ModuleCompiler.js:29-50 | a module is staged iff validation neither throws nor reports errors and generation succeeds; reported errors reject with `Errore validazione modulo: ` and the errors joined by `, ` |
| ModuleCompilers.StagedContainer | mvp-dynamic-docs/core/module/ModuleCompiler.js:29-50 | a module staged from a valid id carries that id, its markup starts with the container line and its style sheet with the module's comment |
| ModuleCompilers.ModuleCompiler.constructor | mvp-dynamic-docs/core/module/ModuleCompiler.js:8-21 | three empty caches and the page's event bus, if any |
| ModuleCompilers.ModuleCompiler.Compile | mvp-dynamic-docs/core/module/ModuleCompiler.js:29-80 | the definition's lists are those of its validation; the result is the staged outcome; only a staged module is cached under its id, and it subscribes to `module.<id>.updated` when auto-recompiling |
| ModuleCompilers.ModuleCompiler.Finish | mvp-dynamic-docs/core/module/ModuleCompiler.js:65-80 | a staged error is rejected unchanged; a staged module is cached, then subscribed |
| ModuleCompilers.ModuleCompiler.Register | mvp-dynamic-docs/core/module/ModuleCompiler.js:66-71 | the module is cached before subscribing, so a compiler without a bus rejects with the module already cached |
| ModuleCompilers.ModuleCompiler.Stage | mvp-dynamic-docs/core/module/ModuleCompiler.js:33-56 | validation refreshes the definition's lists, then the markup and style sheet are generated |
| ModuleCompilers.ModuleCompiler.Generate | mvp-dynamic-docs/core/module/ModuleCompiler.js:46-56 | the module generated from the definition's fields, stamped with the clock |
| ModuleCompilers.ModuleCompiler.SetupAutoRecompile | mvp-dynamic-docs/core/module/ModuleCompiler.js:629-648 | without a bus it throws; with one it adds one durable subscriber for `module.<id>.updated` and nothing else |
| ModuleCompilers.ModuleCompiler.GenerateHtml | mvp-dynamic-docs/core/module/ModuleCompiler.js:88-115 | the method computes `GeneratedHtml` and reads the entity without changing it |
| ModuleCompilers.ModuleCompiler.GenerateContents | mvp-dynamic-docs/core/module/ModuleCompiler.js:93-112 | header, body, footer and the container's end, as `Contents` says |
| ModuleCompilers.ModuleCompiler.GenerateBody | mvp-dynamic-docs/core/module/ModuleCompiler.js:99-105 | the body as `BodyHtml` says |
| ModuleCompilers.ModuleCompiler.GenerateLayoutSection | mvp-dynamic-docs/core/module/ModuleCompiler.js:125-136 | the section as `SectionHtml` says |
| ModuleCompilers.ModuleCompiler.GenerateElements | mvp-dynamic-docs/core/module/ModuleCompiler.js:180-182 | the element loop computes `ChildrenHtml` |
| ModuleCompilers.ModuleCompiler.GenerateNext | mvp-dynamic-docs/core/module/ModuleCompiler.js:180-182 | one turn of the element loop extends the markup or fails the whole list |
| ModuleCompilers.ModuleCompiler.GenerateLayoutElement | mvp-dynamic-docs/core/module/ModuleCompiler.js:145-191 | the method computes `ElementHtml` |
| ModuleCompilers.ModuleCompiler.GenerateSlotContent | mvp-dynamic-docs/core/module/ModuleCompiler.js:200-235 | the method computes `SlotContent` |
| ModuleCompilers.ModuleCompiler.OptionsMarkup | mvp-dynamic-docs/core/module/ModuleCompiler.js:210-216 | the options loop computes `OptionsHtml` |
| ModuleCompilers.ModuleCompiler.EntityContent | mvp-dynamic-docs/core/module/ModuleCompiler.js:220-227 | the entity's part of the slot content is `EntityText` |
| ModuleCompilers.ModuleCompiler.FormatHtml | mvp-dynamic-docs/core/module/ModuleCompiler.js:573-585 | the method computes `HtmlFormat.FormatHtml` |
| ModuleCompilers.ModuleCompiler.IndentLines | mvp-dynamic-docs/core/module/ModuleCompiler.js:580-583 | each line indented by its depth |
| ModuleCompilers.ModuleCompiler.GetHtmlDepth | mvp-dynamic-docs/core/module/ModuleCompiler.js:593-622 | the depth is the number of tags the previous lines leave open |
| ModuleCompilers.ModuleCompiler.PushOpened | mvp-dynamic-docs/core/module/ModuleCompiler.js:601-608 | the opening-tag loop pushes as `Pushed` says |
| ModuleCompilers.ModuleCompiler.PopClosed | mvp-dynamic-docs/core/module/ModuleCompiler.js:610-618 | the closing-tag loop removes as `Popped` says |
| ModuleCompilers.ModuleCompiler.GetCompiledModule | mvp-dynamic-docs/core/module/ModuleCompiler.js:655-657 | the cached module iff the id is cached |
| ModuleCompilers.ModuleCompiler.RemoveCompiledModule | mvp-dynamic-docs/core/module/ModuleCompiler.js:663-667 | the id leaves all three caches and nothing else changes |
| ModuleCompilers.ModuleCompiler.ClearCache | mvp-dynamic-docs/core/module/ModuleCompiler.js:672-676 | all three caches are empty |
| ModuleCompilers.ModuleCompiler.GetStats | mvp-dynamic-docs/core/module/ModuleCompiler.js:682-689 | the count of compiled modules and their ids in insertion order, exactly those `getCompiledModule` finds |
| ModuleCompilers.ChildrenStick | mvp-dynamic-docs/core/module/ModuleCompiler.js:180-182 | once a prefix of the list throws, the whole list throws that error |
| ModuleCompilers.BindingText | mvp-dynamic-docs/core/module/ModuleCompiler.js:151-169 | the opening tag writes the element's own attributes, then the binding attributes |
| ModuleCompilers.OpenTagMarkup | mvp-dynamic-docs/core/module/ModuleCompiler.js:148-171 | the opening tag as `OpenTag` says |
| ModuleCompilers.AttributesMarkup | mvp-dynamic-docs/core/module/ModuleCompiler.js:151-153 | the attribute loop writes each pair in turn |
| ModuleCompilers.BindingMarkup | mvp-dynamic-docs/core/module/ModuleCompiler.js:156-169 | the binding attributes as the source writes them |
| Migrations.Stamped | mvp-dynamic-docs/core/storage/MigrationInterface.js:237-241 | an entry with a truthy `type` gets `updatedAt` equal to its truthy `createdAt`, else to the current ISO time, and keeps every other property; any other entry is left as it is |
| Migrations.StampedEntries | mvp-dynamic-docs/core/storage/MigrationInterface.js:237-242 | the loop over `data`'s entries stamps every entry of an object or an array in place and in order, throws for `null` and `undefined`, and leaves other values alone |
| Migrations.DefaultMigrationEffect | mvp-dynamic-docs/core/storage/MigrationInterface.js:234-246 | the default 1→2 migration fails exactly when `data` is missing, with the `Object.entries` error; otherwise it sets `version` to 2, stamps `data`, and keeps every other property |
| Migrations.Migrated | mvp-dynamic-docs/core/storage/MigrationInterface.js:113-117 | when the start version is not below the target, the data comes back unchanged |
| Migrations.ChainStep | mvp-dynamic-docs/core/storage/MigrationInterface.js:122-130 | below the target, a registered handler that succeeds advances the chain by one version with its result |
| Migrations.ChainThrough | mvp-dynamic-docs/core/storage/MigrationInterface.js:122-135 | from a number the steps run in ascending order, so a chain that reached an intermediate version continues from there |
| Migrations.FirstMissingStep | mvp-dynamic-docs/core/storage/MigrationInterface.js:122-133 | after successful steps, the first version with no handler stops the chain with `Migrazione non disponibile: from->to` |
| Migrations.MissingAt | mvp-dynamic-docs/core/storage/MigrationInterface.js:126-133 | from a number below the target, a missing `n->n+1` handler throws naming that step |
| Migrations.MissingStep | mvp-dynamic-docs/core/storage/MigrationInterface.js:122-133 | below the target, a missing step throws naming its key; the key is built as the source builds it, including string versions |
| Migrations.SingleStep | mvp-dynamic-docs/core/storage/MigrationInterface.js:122-130 | a one-version migration runs exactly the handler registered for that step, replacing any earlier handler |
| Migrations.StepShrinks | mvp-dynamic-docs/core/storage/MigrationInterface.js:122-130 | each successful step brings the loop closer to its end, so `migrate` terminates for numeric and string versions |
| Migrations.FormatError | mvp-dynamic-docs/core/storage/MigrationInterface.js:144-160 | an export is accepted iff it is a truthy object with truthy `data`, `version` and `timestamp` |
| Migrations.FormatErrorOrder | mvp-dynamic-docs/core/storage/MigrationInterface.js:144-160 | the checks run in source order: a non-object comes first, then a missing `data`, then a missing version; arrays and dates fail on `data` |
| Migrations.LooseVersions | mvp-dynamic-docs/core/storage/MigrationInterface.js:167-181 | versions are compared loosely: one converting to 1 or to no number comes back unchanged, one converting above 1 is refused with `Versione non supportata` |
| Migrations.DefaultHandlerUnreachable | mvp-dynamic-docs/core/storage/MigrationInterface.js:167-181 | with only the default handler registered, version 1 is returned as is, a version above 1 is refused, and a whole version below 1 stops at its first missing step |
| Migrations.WholeKey | mvp-dynamic-docs/core/storage/MigrationInterface.js:124-124 | a whole version below 10^21 prints as its decimal digits inside a migration key |
| Migrations.ValueType | mvp-dynamic-docs/core/storage/MigrationInterface.js:222-227 | `null`, arrays and dates are named `null`, `array` and `date`; `object` means a plain object; everything else is `typeof` |
| Migrations.FieldShape | mvp-dynamic-docs/core/storage/MigrationInterface.js:207-211 | a field is described by its type, by whether it is non-nullish (`required`), and by the value as its example |
| Migrations.Structure | mvp-dynamic-docs/core/storage/MigrationInterface.js:203-215 | one description per own entry, under the same key and in the same order; `null` and `undefined` throw |
| Migrations.MigrationInterface.constructor | mvp-dynamic-docs/core/storage/MigrationInterface.js:7-12 | a new interface holds exactly the default 1→2 handler |
| Migrations.MigrationInterface.RegisterMigration | mvp-dynamic-docs/core/storage/MigrationInterface.js:20-23 | the handler is stored under `from->to` and replaces an earlier one; no other key changes |
| Migrations.MigrationInterface.Migrate | mvp-dynamic-docs/core/storage/MigrationInterface.js:113-138 | the loop produces exactly the chain `Migrated` describes |
| Migrations.MigrationInterface.MigrateIfNeeded | mvp-dynamic-docs/core/storage/MigrationInterface.js:167-181 | data at the current version is returned unchanged, newer data is refused, and older data is migrated |
| Migrations.MigrationInterface.Import | mvp-dynamic-docs/core/storage/MigrationInterface.js:54-79 | an import succeeds only when the format is valid, and then gives the migrated data; a format error or a migration error is rethrown with the `Import fallito: ` prefix |
| Migrations.RunHandler | mvp-dynamic-docs/core/storage/MigrationInterface.js:128-128 | calling a handler runs the default migration or the registered function |
| Migrations.RunDefaultMigration | mvp-dynamic-docs/core/storage/MigrationInterface.js:234-246 | the default migration's code computes the copy `DefaultMigration` describes |
| Migrations.StampEach | mvp-dynamic-docs/core/storage/MigrationInterface.js:237-241 | the loop stamps each entry in turn, in order |
| EntityManagers.StorageKey | mvp-dynamic-docs/core/entity/EntityManager.js:156-156 | an entity is stored under `entity:` followed by exactly its id |
| EntityManagers.InferAttributeTypeOrder | mvp-dynamic-docs/core/entity/EntityManager.js:364-376 | strings are tested for `@`, then `http`, then a date stamp, before the other types; each kind is given to exactly the values its test accepts and no earlier test took; `undefined` is text and the integer and custom kinds are never inferred |
| EntityManagers.InferencesCompared | mvp-dynamic-docs/core/entity/EntityManager.js:364-376 | the manager's inference disagrees with the entity's on whole numbers, `null` and dates, and agrees on every other kind of value |
| EntityManagers.LooseEmailStaysEmpty | mvp-dynamic-docs/core/entity/EntityManager.js:192-195 | a string such as `a@b` is inferred as an email, fails the email check, and leaves the new attribute null |
| EntityManagers.UnpaddedTextCoerces | mvp-dynamic-docs/core/entity/EntityManager.js:194-194 | setting a string that needs no trimming as an email keeps the string |
| EntityManagers.NoDotNoEmail | mvp-dynamic-docs/core/entity/EntityManager.js:366-366 | `a@b` holds an `@` but is no valid email address |
| EntityManagers.TriggersSaveExactly | mvp-dynamic-docs/core/entity/EntityManager.js:111-122 | a save is triggered only by `attribute:changed`, `attribute:created` or `entity:registered` carrying an entity id; removals, unregistrations, registrations of attributes and batches never trigger one |
| EntityManagers.VersionOf | mvp-dynamic-docs/core/entity/EntityManager.js:293-293 | the stored version is never empty, and a non-empty entity version is kept |
| EntityManagers.StoredRecords | mvp-dynamic-docs/core/entity/EntityManager.js:300-307 | one record per attribute name, in the given order, each carrying that attribute's name, value, kind and metadata |
| EntityManagers.SerializeEntity | mvp-dynamic-docs/core/entity/EntityManager.js:285-321 | id and type are copied, `updatedAt` is the current time, the version defaults to `1.0.0`, and the attribute records follow the property order of a plain object |
| EntityManagers.SerializedRecords | mvp-dynamic-docs/core/entity/EntityManager.js:298-318 | each serialized record belongs to an attribute of the entity, is present, and is that attribute's record |
| EntityManagers.SerializedComplete | mvp-dynamic-docs/core/entity/EntityManager.js:298-318 | the serialized attribute list has distinct keys and no null record, so it can be loaded back |
| EntityManagers.AllLoadedPut | mvp-dynamic-docs/core/entity/EntityManager.js:340-348 | loading one more present record under a new key keeps every record loaded so far |
| EntityManagers.NextRecordKey | mvp-dynamic-docs/core/entity/EntityManager.js:340-340 | with distinct keys, the next record's key is new and the loaded keys grow by it |
| EntityManagers.LoadAttributes | mvp-dynamic-docs/core/entity/EntityManager.js:339-349 | loading succeeds iff no record is null; then there is one attribute per record, under its key and in record order, built from that record |
| EntityManagers.LoadRecord | mvp-dynamic-docs/core/entity/EntityManager.js:341-347 | one step of the loop adds the record's attribute under its key |
| EntityManagers.DeserializeEntity | mvp-dynamic-docs/core/entity/EntityManager.js:328-357 | the result is `null` exactly for null data or a null attribute record; otherwise it is a new entity built from the stored id, type, metadata and attributes |
| EntityManagers.RoundTrip | mvp-dynamic-docs/core/entity/EntityManager.js:285-357 | deserializing a serialized entity gives back its id, type, `createdAt`, version (defaulted), attribute names in property order, and each attribute's name, kind, metadata and value |
| EntityManagers.ReadBackAll | mvp-dynamic-docs/core/entity/EntityManager.js:285-357 | every entity built from serialized data agrees with the original on the fields the round trip keeps |
| EntityManagers.ReadBackOne | mvp-dynamic-docs/core/entity/EntityManager.js:300-347 | an attribute loaded from its own serialized record reads back as the original attribute |
| EntityManagers.EntityManager.constructor | mvp-dynamic-docs/core/entity/EntityManager.js:6-18 | a new manager has no pending saves, no cancelled timers and no storage writes |
| EntityManagers.EntityManager.ScheduleEntitySave | mvp-dynamic-docs/core/entity/EntityManager.js:128-141 | a pending save of the entity is cancelled and replaced by a fresh timer, so there is at most one per entity; other entities' timers and storage are untouched |
| EntityManagers.EntityManager.HandleEntityChange | mvp-dynamic-docs/core/entity/EntityManager.js:111-122 | a save is scheduled exactly when the event triggers one; otherwise nothing changes |
| EntityManagers.EntityManager.SaveEntity | mvp-dynamic-docs/core/entity/EntityManager.js:147-174 | the entity the space holds is serialized at this moment and written under its storage key; an unknown id writes nothing; timers are untouched |
| EntityManagers.EntityManager.SaveTimerFires | mvp-dynamic-docs/core/entity/EntityManager.js:135-138 | when the debounce timer fires, the entity is saved and its pending entry dropped |
| EntityManagers.EntityManager.DeleteEntity | mvp-dynamic-docs/core/entity/EntityManager.js:220-252 | the entity leaves the space, its record is deleted from storage, and a pending save is cancelled and dropped |
| EntityManagers.EntityManager.Unregister | mvp-dynamic-docs/core/entity/EntityManager.js:225-225 | after unregistering, the space no longer holds the entity, and the other entities are unchanged |
| EntityManagers.EntityManager.CreateEntity | mvp-dynamic-docs/core/entity/EntityManager.js:183-214 | the given id or one generated from the type; one attribute per initial property, in order, with the inferred kind and the value `setAttribute` keeps; the entity is registered and then saved once |
| EntityManagers.EntityManager.Register | mvp-dynamic-docs/core/entity/EntityManager.js:198-198 | the space now holds the entity, and the entity keeps its header and attributes |
| EntityManagers.EntityManager.RegisterInSpace | mvp-dynamic-docs/core/entity/EntityManager.js:198-198 | registering in the space adds exactly this entity under its id and leaves the entity's header and attributes as they were |
| EntityManagers.EntityManager.NewEntity | mvp-dynamic-docs/core/entity/EntityManager.js:188-194 | a fresh entity with the chosen id and type whose attributes are exactly the initial properties, each with its inferred kind and kept value |
| EntityManagers.EntityManager.SaveNew | mvp-dynamic-docs/core/entity/EntityManager.js:201-201 | the first save appends exactly one record, the serialized new entity, without touching the timers or the entity's attributes |
| EntityManagers.EntityManager.SetInitialAttributes | mvp-dynamic-docs/core/entity/EntityManager.js:192-195 | the loop gives the new entity one attribute per initial property, in order, each with its inferred kind and kept value |
| EntityManagers.EntityManager.SetInitialAttribute | mvp-dynamic-docs/core/entity/EntityManager.js:193-194 | one step of the loop adds the next property as an attribute |
| EntityManagers.InitialValueStored | mvp-dynamic-docs/core/entity/EntityManager.js:193-194 | an attribute created with the inferred kind and no metadata holds the value `InitialValue` describes |
| EntityManagers.SetNewAttribute | mvp-dynamic-docs/core/entity/EntityManager.js:194-194 | setting a new key adds exactly one attribute, with the inferred kind and the kept value |
| EntityManagers.Expected | mvp-dynamic-docs/core/entity/EntityManager.js:192-195 | one expected attribute per initial property |
| EntityManagers.SeededPut | mvp-dynamic-docs/core/entity/EntityManager.js:192-195 | adding the next expected attribute under a new key extends the seeded prefix |
| EntityManagers.NextValueKey | mvp-dynamic-docs/core/entity/EntityManager.js:192-192 | with distinct keys, the next initial property's key is new and the keys grow by it |
| BoundedLogs.Push | mvp-dynamic-docs/core/reactive/EventBus.js:384-389 | pushing onto a full history drops its oldest entry, so a history within its capacity stays within it, and the new entry is last |
| BoundedLogs.PushAllSnoc | mvp-dynamic-docs/core/reactive/EventBus.js:384-389 | a run of pushes followed by one more is the run extended by that push |
| BoundedLogs.PushAllKeepsNewest | mvp-dynamic-docs/core/reactive/EventBus.js:384-389 | after any run of pushes the history holds exactly the newest entries of everything pushed, up to its capacity, oldest first |
| BoundedLogs.PushAllBounded | mvp-dynamic-docs/core/reactive/EventBus.js:384-389 | pushes never grow a history past its capacity |
| BoundedLogs.SliceFromEnd | mvp-dynamic-docs/core/reactive/EventBus.js:409-411 | `slice(-limit)` keeps the last `limit` entries for a positive limit, drops the first `-limit` for a negative one, and keeps all for zero |
| StableSort.SortBy | mvp-dynamic-docs/core/reactive/EventBus.js:188-188 | sorting by priority is a permutation of the subscribers |
| StableSort.SortByAscending | mvp-dynamic-docs/core/reactive/EventBus.js:188-188 | after the sort the subscribers are ordered by their sort key |
| StableSort.SortByStable | mvp-dynamic-docs/core/reactive/EventBus.js:188-188 | the sort is stable: subscribers of equal priority keep their relative order |
| StableSort.SortByAscendingIdentity | mvp-dynamic-docs/core/reactive/EventBus.js:188-188 | an already ordered list is left as it is |
| StableSort.SortByIdempotent | mvp-dynamic-docs/core/reactive/EventBus.js:188-188 | sorting twice gives the same as sorting once |

## Left out

- JsValues.StrictEq: `===` on objects, arrays and dates compares identity in JavaScript. The model compares structure, because values carry no identity. So a second `setAttribute` of an equal but fresh object emits `attribute:changed` in the program and nothing in the model.
- Entities.ChangeEvents: decides "changed" with the structural `StrictEq` above. `Entities.RewriteIsSilent` is therefore stated only for primitive display values.
- Entities.Entity.SetAttribute: inherits the structural comparison of `ChangeEvents` for object, array and date values.
- Entities.Entity.StoreValue: values are immutable data. Aliasing is lost: the shallow `{...metadata}` copies share their `tags` array in the program, and the model's copies share nothing.
- Entities.Entity.ApplyChanges: the contract states the merged names, the merged states (when the two entities share no attribute objects) and that `metadata:updated` is the last event. It does not list the `attribute:created`, `attribute:changed` and `attribute:removed` events of the three passes.
- Entities.Entity.Deserialize: missing metadata gives empty tags. In the program, `{...undefined}` has no `tags`, so a later `addTag` throws.
- JsStrings.LowerCase: lower-cases ASCII letters only. JavaScript's `toLowerCase` also maps non-ASCII letters (`É` to `é`), so an entity type containing them gets a different id prefix in the model.
- Attributes.Attribute.Clone: the program's clone shares the value object with the original. The model's values are immutable, so a later in-place change through one of them is not modelled.
- Attributes.Metadata: attribute metadata keeps twelve fixed fields. Any other key that `...metadata` would carry is dropped.
- Attributes.Metadata: `min` and `max` are a number or missing. In the source, `min: null` or `max: null` still installs its rule (the test is `!== undefined`), and `value < null` then compares the value with 0; the model has no null bound.
- Attributes.RunValidator: the `maxLength` and `minLength` rules count `|v.s|`, one per character. JavaScript's `.length` counts UTF-16 code units, so a character outside the Basic Multilingual Plane (an emoji such as U+1F600) counts twice in the source and once here.
- ModuleDefinitionClass.ModuleDefinition.Parse: the header fields id, version, name, description and author are strings. The constructor keeps any truthy value as it is (a numeric `version: 2`, say); the model takes string values only, where the empty string is the falsy case.
- AttributeSpaceBatches.Resolve: only `registerAttribute` and `unregisterAttribute` are dispatched. Any other operation name is modelled as a call that throws, although the program would run that `AttributeSpace` method.
- AttributeSpaceBatches.AttributeSpaceBatch.Execute: inherits that restriction from `Resolve`.
- AttributeSpaces.AttributeSpace.RegisterEntity: the `attribute:changed` and `attribute:created` listeners it adds to the entity are identities that the model never runs. The forwarding of entity events into `notifyChange` is not modelled.
- EventBuses.Reported: nested `eventbus:error` reports are cut after `fuel` levels. The program recurses until the stack overflows, and the outer `catch` swallows the overflow.
- EventBuses.EventBus.Emit: models the synchronous path. The `async` branch and `executeWithTimeout` are not modelled.
- EventBuses.EventBus: `getStats`, `destroy`, `setupErrorHandling` (window error bridges), `setDebugMode`/`debugLog` and the randomness of `generateCallbackId` are left out. They are counters, host wiring, logging and random ids.
- ModuleDefinitions.NewSlot: slot `path`, `type`, `placeholder`, `label` and `description` are strings. The program keeps any truthy value there. A null slot config, which makes the program throw, cannot be expressed.
- ModuleDefinitionClass.ModuleDefinition: `fromJSON`, `toJSON` and `getDebugInfo` are JSON text and debugging output.
- CompilerMarkup.Styles: a theme, spacing or layout key naming an `Object.prototype` member (`constructor`, `toString`) yields that member's text in the program. The model falls back to `minimal`, `normal` or `card`.
- ModuleCompilers.ModuleCompiler.SetupAutoRecompile: records the subscription only. The callback body, which re-compiles through the event bus, is not modelled.
- ModuleCompilers.ModuleCompiler: `generateJavaScript` and `CompiledModule` (`render`, `getBundle`, `serialize`) emit script text or mount into the DOM.
- Migrations.DefaultMigration: returns a copy. The program's `{...data}` is shallow, so it writes `updatedAt` into the caller's own entry objects.
- Migrations.Chain: versions are exact reals, so the double rounding of `currentVersion + 1` is not modelled.
- Migrations.MigrationInterface.Import: the optional backup, the `clearExisting` flag and the storage `import` call are storage I/O. The model returns the migrated data that would be handed to storage.
- Migrations.MigrationInterface: `export`, `getSchema`, `createBackup`, `prepareForIndexedDB`, `prepareForSQL` and `generateSQLSchema` read or write storage, or produce text for it.
- Migrations.MigrationInterface: `getMigrationInfo` only reads the handler map. It lists the registered versions and handler names, and no operation of the model depends on that listing.
- EntityManagers.EntityManager.CreateEntity: the contract holds for a manager whose auto-save wiring never ran. With `setupAutoSave`, the `entity:registered` notification and the `entity.created` event would also schedule a save.
- EntityManagers.EntityManager.HandleEntityChange: modelled as a method the caller invokes. Its subscription through `subscribeGlobal` and the `entity.created` bus listener are not modelled.
- EntityManagers.DeserializeEntity: when `metadata` is present but has no `createdAt`, the model keeps the constructor's clock value. The program assigns `undefined`, which a later serialisation replaces with the current time.
- EntityManagers.EntityManager: `initialize`, `loadAllEntities`, `saveAllEntities`, `clearAllEntities`, `updateEntityMetadata`, `removeEntityFromMetadata` and `getStats` are storage I/O and counters. The `entity.saved`/`entity.deleted` bus events and the thin `getEntity`/`getAllEntities`/`getEntitiesByType` delegations are left out too.
- Numbers are exact reals or integers. Floating-point rounding is not modelled. `parseFloat`, `new Date`, `new URL`, the regular-expression tests and number-to-text conversion are opaque host functions.
- Timestamps are integers from a clock parameter, not ISO strings. Random suffixes are parameters.
- Callbacks cannot re-enter. A listener that changes the entity, the space or the bus during `emit` or `notifyChange` is not modelled.
- DOM and window bridges are left out: `window.dispatchEvent` is a ghost log, and the `setupGlobalListeners`/`setupErrorHandling` bridges are not modelled. So are console logging, the `toString` methods and `Entity.getStats`.
- The UI files, the document files, the storage manager, the module loader and module instances are outside this core.
