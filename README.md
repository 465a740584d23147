# Light effects and actions: a Dafny model of esphomeyaml's light component

The light component of esphomeyaml turns a YAML light configuration into C++
setup code for an ESP8266/ESP32 firmware. This project models its core:

- the four nested tiers of effects a light platform may allow (binary,
  monochromatic, RGB, FastLED);
- `validate_effects`, the validator of the `effects:` list: one effect per
  entry, an allowed effect kind, the effect's own schema with its defaults,
  and distinct effect names;
- `build_effect`, the code generator for each of the twelve effect kinds.
  Lambda effects wait for their lambda to be compiled. Every other kind
  declares its effect variable, calls one setter per option given, and
  passes the strobe and color-wipe color lists as one array of structs;
- `setup_light_core_` and `setup_light`, which declare the light state and
  its MQTT component, apply the light options and collect the built effects
  into one `add_effects` call;
- the three light actions (`light.toggle`, `light.turn_off`,
  `light.turn_on`). This covers their schemas, including the exclusive
  `transformer` group of `transition_length` and `flash_length`, and their
  code generators, which wait for the light variable and then set one
  templatable field per option in source order;
- `core_to_hass_config`, the Home Assistant discovery payload with its
  capability flags and effect list.

Files and modules:

| file | module | what it holds |
|---|---|---|
| `wrappers.dfy` | `Wrappers` | `Option` and `Result` |
| `tiers.dfy` | `Tiers` | effect kinds, their YAML tags, the four tier lists |
| `schema.dfy` | `EffectSchema` | configuration values, the per-effect schema, its application with defaults |
| `validation.dfy` | `Validation` | the `effects:` validator, as a fold and as a loop |
| `codegen.dfy` | `Codegen` | expressions and statements, the statement sink `Generator`, suspension outcomes, setter tables |
| `effects.dfy` | `Effects` | `build_effect` |
| `light.dfy` | `Light` | `setup_light_core_`, `setup_light` |
| `actions.dfy` | `Actions` | the three light actions |
| `hass.dfy` | `Hass` | `core_to_hass_config` |

How the model is built:

- **Configurations** are dictionaries from option name to value, as in the
  source. A value is an already parsed literal (`Text`), the source of a
  lambda (`Code`), or a list of color records (`Records`). The field parsers
  themselves are not modelled; a schema here fixes which keys are required,
  which are optional, which get defaults and which hold lambdas or colors.
- **Generated code** is a sequence of statements: a variable declaration
  (`Pvariable`) or a method call on a variable (`add(x.set_y(...))`). The
  `Generator` class holds that sequence and the registry of declared
  variables. It updates both in place, and its invariant states that a
  variable is registered exactly when its declaration has been emitted.
- **Coroutines.** The source's generators yield while a variable they need
  is not declared yet or a lambda is not compiled yet. Each generator is
  modelled as a function from the environment (the declared variables, and
  the set of lambda sources already compiled) to an `Outcome`. The outcome
  is either `Suspended`, with what was emitted before the wait and what it
  waits on, or `Completed`, with the emitted code and the value produced. A
  monotonicity lemma per generator states that a richer environment only
  extends what a suspended run emitted, which is how resuming is captured.
  The methods emit exactly what these functions describe.
- **Setter chains.** The chains of `if KEY in config: add(x.set_KEY(...))`
  in `build_effect`, `setup_light_core_` and the turn-on action are walked
  as a table of (option key, setter name) pairs in source order. Each
  kind's table copies the source's pairs, including the fireworks quirk
  below.
- **Fireworks as written.** The fireworks effect calls
  `set_spark_probability` for each of `spark_probability`,
  `use_random_color` and `fade_out_rate`, as the source does.
  `Effects.FireworksAsWritten` states the resulting call counts.

## Model

| member | source | states |
|---|---|---|
| `Tiers.TagName` | esphomeyaml/components/light/__init__.py:54-63 | definition: the YAML tag of each of the twelve effect kinds (the lambda and random tags come from the shared constants) |
| `Tiers.TiersNested` | esphomeyaml/components/light/__init__.py:75-81 | each tier list is a strict prefix of the next, so every effect a weaker light allows is allowed by a richer one |
| `Tiers.FastledTierPositions` | esphomeyaml/components/light/__init__.py:75-81 | the FastLED tier lists exactly the twelve effect tags, in a fixed order |
| `Tiers.EveryTagListed` | esphomeyaml/components/light/__init__.py:75-81 | every effect kind's tag is in the FastLED tier, at that kind's position |
| `Tiers.FastledTierIsEverything` | esphomeyaml/components/light/__init__.py:75-81 | every effect kind is in the FastLED tier, every tag in it names a kind, and no tag is listed twice |
| `Tiers.KindOf` | esphomeyaml/components/light/__init__.py:210-212 | a recognised tag is the tag of the kind it is dispatched to |
| `Tiers.KindOfTagName` | esphomeyaml/components/light/__init__.py:210-212 | every kind's tag dispatches back to that kind |
| `Tiers.TierKind` | esphomeyaml/components/light/__init__.py:78-81 | the kind at a position of the FastLED tier sits at that position |
| `EffectSchema.OptionalKeys` | esphomeyaml/components/light/__init__.py:83-170 | definition: each tag's optional keys that have no default, colours aside; none for the two lambda effects |
| `EffectSchema.Schema` | esphomeyaml/components/light/__init__.py:83-170 | definition: each tag's schema; lambda effects require name and lambda with an update interval defaulting to `0ms`; the others generate an effect id, default the name, and strobe and color wipe add their colour sub-schema |
| `EffectSchema.DefaultName` | esphomeyaml/components/light/__init__.py:84-166 | an effect kind has a default name exactly when it is not a lambda effect |
| `EffectSchema.SchemaSelfConsistent` | esphomeyaml/components/light/__init__.py:83-170 | every effect schema's defaults already have the shape it expects, its generated id is a plain text key that no default covers, its lambda keys are required keys, and its colours key is never a lambda key |
| `EffectSchema.Apply` | esphomeyaml/components/light/__init__.py:83-170 | a body is accepted exactly when its keys and values fit the schema; an accepted body has exactly the given keys, the defaulted keys and the generated id keys; every given value other than a colour list is kept, each missing default is filled in, each missing generated key holds the generated id, each colour entry becomes the sub-schema defaults overridden by the entry's own values (one per entry, in order), and the result conforms to the schema |
| `EffectSchema.ApplySchema` | esphomeyaml/components/light/__init__.py:83-170 | applying an effect's schema fails with a schema error for that tag exactly when the body does not fit; otherwise the same key set, kept values, defaults, generated id and colour entries as `Apply`, and the result conforms |
| `EffectSchema.NameDefaulted` | esphomeyaml/components/light/__init__.py:84-166 | a lambda effect without a name is rejected; any other effect without a name gets its kind's default name |
| `EffectSchema.NameKept` | esphomeyaml/components/light/__init__.py:85-166 | a given name is kept |
| `EffectSchema.EmptyBodyAccepted` | esphomeyaml/components/light/__init__.py:189-190 | a non-lambda effect given with an empty body is accepted |
| `Validation.CheckEntry` | esphomeyaml/components/light/__init__.py:179-190 | an entry is accepted exactly when it is a one-key dictionary whose key is an allowed, known tag and whose body (an empty one when falsy) is a mapping that tag's schema accepts; the accepted effect is of that tag's kind with the schema's result as its configuration; a non-dictionary, several keys, no key, a disallowed tag and a body that is neither falsy nor a mapping fail with their own errors |
| `Validation.Collect` | esphomeyaml/components/light/__init__.py:191-197 | a successful collection has one effect per entry |
| `Validation.Validated` | esphomeyaml/components/light/__init__.py:173-199 | definition: the validator's verdict, each entry checked in order and the effects collected with the first failure or repeated name deciding the error |
| `Validation.ValidateEffects` | esphomeyaml/components/light/__init__.py:173-199 | the validator loop returns exactly the reference fold `Validated` |
| `Validation.CollectSound` | esphomeyaml/components/light/__init__.py:191-197 | a successful collection holds each entry's checked effect, in order, with distinct names |
| `Validation.CollectComplete` | esphomeyaml/components/light/__init__.py:191-197 | if every entry checks and the names are distinct, the collection succeeds with exactly those effects |
| `Validation.ValidatedSound` | esphomeyaml/components/light/__init__.py:173-199 | accepted effects correspond one to one, in order, to the checked entries, and their names are distinct |
| `Validation.ValidatedComplete` | esphomeyaml/components/light/__init__.py:173-199 | a list whose entries all check and whose names are distinct is accepted as exactly those effects |
| `Validation.ErrorSticks` | esphomeyaml/components/light/__init__.py:178-196 | once an entry fails, later entries do not change the error |
| `Validation.BadEntryRejected` | esphomeyaml/components/light/__init__.py:179-188 | a non-dictionary entry, an entry with zero or several keys, or a disallowed tag rejects the whole list |
| `Validation.ScalarBodyRejected` | esphomeyaml/components/light/__init__.py:189-190 | an allowed tag whose body is a truthy value other than a mapping rejects the whole list |
| `Validation.DuplicateRejectedAtSecond` | esphomeyaml/components/light/__init__.py:191-195 | an effect whose name was already collected rejects the list with a duplicate-name error for that name |
| `Validation.BareStrobeChecks` | esphomeyaml/components/light/__init__.py:189-191 | a bare `strobe:` entry is accepted and named `Strobe` |
| `Validation.SameNameTwice` | esphomeyaml/components/light/__init__.py:191-195 | two good entries with the same name are rejected at the second |
| `Validation.StrobeTwiceRejected` | esphomeyaml/components/light/__init__.py:189-195 | two bare `strobe:` entries are rejected as the duplicate name `Strobe` |
| `Codegen.Generator.Add` | esphomeyaml/components/light/__init__.py:220-221 | a method call appends exactly one statement and registers nothing |
| `Codegen.Generator.Pvariable` | esphomeyaml/components/light/__init__.py:218-219 | a declaration appends exactly one statement, registers the variable with its type and returns a reference to it |
| `Codegen.Generator.GetVariable` | esphomeyaml/components/light/__init__.py:364-365 | a variable is found exactly when its declaration was emitted, and then it is referenced by its id |
| `Codegen.BoundIffDeclared` | esphomeyaml/components/light/__init__.py:364-365 | the registry built from the emitted statements binds an id exactly when a declaration of it was emitted |
| `Codegen.SetIfPresent` | esphomeyaml/components/light/__init__.py:220-221 | one option's setter call is emitted when the option is present and nothing otherwise |
| `Codegen.SetAll` | esphomeyaml/components/light/__init__.py:220-223 | a setter chain emits the calls `Setters` describes, after what was there |
| `Codegen.Present` | esphomeyaml/components/light/__init__.py:220-223 | the present options are listed by their table position, increasing, each present option exactly once |
| `Codegen.SettersInOrder` | esphomeyaml/components/light/__init__.py:220-223 | a setter chain emits one call per present option, in table order, for that option's setter and value |
| `Codegen.SetterCount` | esphomeyaml/components/light/__init__.py:220-223 | with distinct setter names, each setter is called once when its option is present and never otherwise |
| `Codegen.SetterCalls` | esphomeyaml/components/light/__init__.py:304-314 | a setter is called once per present option whose table entry names it |
| `Effects.EffectClass` | esphomeyaml/components/light/__init__.py:210-323 | definition: the C++ class each effect kind instantiates |
| `Effects.SetterTable` | esphomeyaml/components/light/__init__.py:217-323 | definition: each kind's (option, setter) pairs in the order the builder tests them, including the fireworks pairs that all call `set_spark_probability` |
| `Effects.ColorStruct` | esphomeyaml/components/light/__init__.py:228-279 | definition: a strobe colour becomes a `StrobeLightEffectColor` of a `LightColorValues` and a duration; a colour-wipe colour a `FastLEDColorWipeEffectColor` of r, g, b, random and LED count |
| `Effects.ColorsStmts` | esphomeyaml/components/light/__init__.py:237-281 | definition: one `set_colors` call with an array of the colour structs in list order, and none for an empty or absent list |
| `Effects.DeclaredStmts` | esphomeyaml/components/light/__init__.py:217-323 | definition: a non-lambda effect declares its variable with its class and name, then emits its setter chain, then its colours |
| `Effects.EffectProgram` | esphomeyaml/components/light/__init__.py:210-325 | definition: a lambda effect waits for its lambda and then yields a new effect of its name, compiled lambda and update interval; any other effect emits its declared statements and yields a reference to its id |
| `Effects.ValidIsBuildable` | esphomeyaml/components/light/__init__.py:210-211 | every effect the schema accepts has what `build_effect` reads: an effect id or a lambda, and well-shaped colors |
| `Effects.ColorStructs` | esphomeyaml/components/light/__init__.py:228-236 | one struct per listed color, in order, each holding that color's fields |
| `Effects.SetColors` | esphomeyaml/components/light/__init__.py:237-238 | emits the `set_colors` call exactly when colors are listed |
| `Effects.DeclareEffect` | esphomeyaml/components/light/__init__.py:217-323 | a non-lambda effect emits its declaration, its setter chain and its color call, and yields a reference to its variable |
| `Effects.BuildEffect` | esphomeyaml/components/light/__init__.py:210-325 | emits exactly what the effect's program emits and yields its value exactly when the program completes |
| `Effects.LambdaEffectWaits` | esphomeyaml/components/light/__init__.py:212-216 | a lambda effect emits nothing and completes exactly when its lambda is compiled; until then it waits on that lambda |
| `Effects.EffectMonotone` | esphomeyaml/components/light/__init__.py:213-216 | compiling more lambdas only extends an effect's output |
| `Effects.DeclaredFirst` | esphomeyaml/components/light/__init__.py:217-323 | a non-lambda effect completes at once with a reference to its id; its first statement declares it with its class and name, and every later statement is a call on it |
| `Effects.DeclaredCalls` | esphomeyaml/components/light/__init__.py:217-323 | a non-lambda effect calls each method as often as its setter table matches present options, plus one `set_colors` when colors are listed |
| `Effects.SetterNames` | esphomeyaml/components/light/__init__.py:217-323 | every kind but fireworks uses distinct setters, and no setter is `set_colors` |
| `Effects.SetterCalledIffPresent` | esphomeyaml/components/light/__init__.py:217-303 | outside fireworks, each setter is called once when its option is present and never otherwise |
| `Effects.FireworksAsWritten` | esphomeyaml/components/light/__init__.py:304-315 | fireworks calls `set_spark_probability` once for each of its three options present, `set_update_interval` once if present, and never `set_use_random_color` or `set_fade_out_rate` |
| `Effects.ColorsCalledIffListed` | esphomeyaml/components/light/__init__.py:228-280 | `set_colors` is called once when a strobe or color-wipe effect lists colors and never otherwise |
| `Effects.ColorsLast` | esphomeyaml/components/light/__init__.py:269-281 | when colors are listed, the last statement is `set_colors` on the effect with one array holding each color's struct in order |
| `Effects.SettersCoverOptions` | esphomeyaml/components/light/__init__.py:83-170 | every setter reads an optional key of its schema, and every optional key other than colors has a setter |
| `Effects.EffectNeverCalls` | esphomeyaml/components/light/__init__.py:210-325 | an effect never calls a method foreign to effects, such as the light's own setters |
| `Light.EffectsProgram` | esphomeyaml/components/light/__init__.py:335-339 | definition: the effects built in order, stopping at the first one waiting on its lambda |
| `Light.AddEffects` | esphomeyaml/components/light/__init__.py:340-341 | definition: one `add_effects` call with the array of effect values, and none without effects |
| `Light.SetupProgram` | esphomeyaml/components/light/__init__.py:328-342 | definition: the light option setters, then the effects, then `add_effects`; a waiting effect stops it |
| `Light.SetupLightCore` | esphomeyaml/components/light/__init__.py:328-343 | emits exactly the setup program's statements and reports whether it completed |
| `Light.SetupLight` | esphomeyaml/components/light/__init__.py:346-349 | declares the light state and the MQTT component, in that order, registers both and returns references to them |
| `Light.LightNamesForeign` | esphomeyaml/components/light/__init__.py:329-341 | the light's own setters and `add_effects` are never called by an effect |
| `Light.EffectsNeverCall` | esphomeyaml/components/light/__init__.py:336-338 | building the effects never calls a method foreign to effects |
| `Light.EffectsCompleteIffEach` | esphomeyaml/components/light/__init__.py:336-339 | the effects complete exactly when each effect completes, and then the values are the effects' values in order |
| `Light.EffectsMonotone` | esphomeyaml/components/light/__init__.py:336-339 | compiling more lambdas only extends the effects' output |
| `Light.SetupMonotone` | esphomeyaml/components/light/__init__.py:328-342 | compiling more lambdas only extends the setup's output |
| `Light.AddEffectsIffEffects` | esphomeyaml/components/light/__init__.py:340-341 | a completed setup calls `add_effects` once when the light has effects and never otherwise |
| `Light.AddEffectsLast` | esphomeyaml/components/light/__init__.py:335-341 | with effects, the last statement is `add_effects` on the light with one array of the effects' values in order |
| `Light.LightOptionSetters` | esphomeyaml/components/light/__init__.py:329-334 | each light option setter is called once when its option is given and never otherwise |
| `Actions.Fields` | esphomeyaml/components/light/__init__.py:355-411 | definition: each action's templatable fields with their setter and C++ type, in source order; toggle and turn-off have only the transition length |
| `Actions.TemplateValue` | esphomeyaml/components/light/__init__.py:423-426 | definition: a literal is used as is; a lambda waits for compilation and then becomes a lambda of the action argument `x` returning the field's type |
| `Actions.FieldOutcome` | esphomeyaml/components/light/__init__.py:423-426 | definition: an absent field emits nothing; a present one waits on its lambda or emits its setter call on the action |
| `Actions.ActionDeclaration` | esphomeyaml/components/light/__init__.py:416-422 | definition: the action variable, of the action's class templated on the argument type, made by the light's factory method |
| `Actions.ActionProgram` | esphomeyaml/components/light/__init__.py:361-459 | definition: wait for the light variable, then declare the action, then its fields in order; yields a reference to the action |
| `Actions.ValidateAction` | esphomeyaml/components/light/__init__.py:398-412 | an action config is accepted exactly when it is well formed and, for turn-on, not both transformers; both transformers fail as the exclusive group `transformer` |
| `Actions.FlashOnlyOnTurnOn` | esphomeyaml/components/light/__init__.py:401-404 | only turn-on accepts `flash_length`, and never together with `transition_length` |
| `Actions.SetTemplatable` | esphomeyaml/components/light/__init__.py:423-426 | a field emits its setter call once its value is ready, nothing while its lambda waits, nothing when absent |
| `Actions.SetFields` | esphomeyaml/components/light/__init__.py:423-458 | the fields emit exactly what their sequence describes |
| `Actions.ActionToCode` | esphomeyaml/components/light/__init__.py:416-459 | an action emits exactly its program's statements and yields its value exactly when the program completes |
| `Actions.LightToggleToCode` | esphomeyaml/components/light/__init__.py:361-373 | the toggle action emits its program and, when complete, yields a reference to the action variable |
| `Actions.LightTurnOffToCode` | esphomeyaml/components/light/__init__.py:383-395 | the turn-off action emits its program and, when complete, yields a reference to the action variable |
| `Actions.LightTurnOnToCode` | esphomeyaml/components/light/__init__.py:415-459 | the turn-on action emits its program and, when complete, yields a reference to the action variable |
| `Actions.ActionAfterLight` | esphomeyaml/components/light/__init__.py:364-368 | an action emits nothing and waits on the light until the light is declared; then it first declares the action and makes only calls on it |
| `Actions.FieldSettersDistinct` | esphomeyaml/components/light/__init__.py:423-458 | no two fields of an action share a setter |
| `Actions.FieldSetterIffPresent` | esphomeyaml/components/light/__init__.py:423-458 | a completed action calls each field's setter once when the field is given and never otherwise |
| `Actions.FieldsInOrder` | esphomeyaml/components/light/__init__.py:423-458 | when every field's value is ready, the fields emit one setter call per given field, in field-list order, each with that field's setter and its literal or compiled-lambda value |
| `Actions.FieldSettersInOrder` | esphomeyaml/components/light/__init__.py:416-459 | a completed action is its declaration followed by exactly one setter call per given field, in the order of the action's field list (for turn-on: transition length, flash length, brightness, red, green, blue, white, colour temperature, effect) |
| `Actions.FieldMonotone` | esphomeyaml/components/light/__init__.py:424-426 | compiling more lambdas only extends a field's output |
| `Actions.ActionMonotone` | esphomeyaml/components/light/__init__.py:418-458 | declaring more variables and compiling more lambdas only extends an action's output |
| `Actions.LiteralFieldsComplete` | esphomeyaml/components/light/__init__.py:423-458 | once the light is declared, an action without lambdas completes |
| `Hass.SetFlag` | esphomeyaml/components/light/__init__.py:468-469 | a capability the light has is added as true; otherwise, and for every other key, the payload is unchanged, and the effect list is untouched |
| `Hass.Flagged` | esphomeyaml/components/light/__init__.py:468-475 | each capability the light has is set to true, and every other key is unchanged |
| `Hass.WithEffects` | esphomeyaml/components/light/__init__.py:476-479 | `effect` is true and the names are appended after the existing effect list; other keys are unchanged |
| `Hass.WithOneMore` | esphomeyaml/components/light/__init__.py:477-479 | appending one more effect name extends the list by exactly that name |
| `Hass.Discovery` | esphomeyaml/components/light/__init__.py:462-480 | the payload gains exactly the capability keys and, with effects, `effect` and `effect_list`; the effect names follow the existing list; nothing else changes |
| `Hass.CoreToHassConfig` | esphomeyaml/components/light/__init__.py:462-480 | there is no payload exactly when the MQTT base has none; otherwise the result is `Discovery` of the base; the four capability arguments default to true |
| `Hass.ListEffects` | esphomeyaml/components/light/__init__.py:476-479 | the loop leaves the payload unchanged without effects and otherwise lists every effect name in order |
| `Hass.DistinctNamesListedOnce` | esphomeyaml/components/light/__init__.py:476-479 | effects with distinct names are each listed once, in order |
| `Hass.ValidatedEffectsListedOnce` | esphomeyaml/components/light/__init__.py:476-479 | on a payload without an effect list, the list of an accepted `effects:` list has one name per entry, none repeated, and its i-th name is the name of the effect entry i validated to |

## Left out

- Field parsers (`cv.percentage`, `cv.positive_time_period_milliseconds`, `cv.uint32_t` and so on) and the schema engine itself. Values are opaque, so range checks, unit conversion and per-value error messages are not modelled.
- Error messages and error ordering: errors are an `Error` datatype. Within one effect or action schema, which of several faults is reported is not modelled.
- `cv.ensure_list` on the effect list and on color lists: the model receives lists.
- `maybe_simple_id`, the shorthand that writes an action as a bare id: action configs are dictionaries.
- `process_lambda` and `templatable` live in a helpers module that is not part of this model. Lambda compilation is an oracle: the set of lambda sources already compiled.
- The scheduler: `add_job`, wake order, and the extra bare yields per effect in `setup_light_core_`. Only what is emitted and what a suspended run waits on are modelled.
- `setup_mqtt_component` (source line 343) and `mqtt.build_hass_config`. The MQTT payload is an input of `Hass.CoreToHassConfig`, and MQTT setup statements are not emitted.
- Class declarations, `LIGHT_SCHEMA`, `LIGHT_PLATFORM_SCHEMA` and `BUILD_FLAGS` are constants outside the generators.
- `cv.GenerateID` id generation: generated ids are a parameter (one id per entry index), so their uniqueness is not modelled.
- `has_side_effects=False` on the light's declarations: it only steers later code elimination.
- The `NotImplementedError` branch of `build_effect` (line 325): the `Kind` type admits only the twelve kinds, so it cannot be reached.
- `cv.has_at_least_one_key` on strobe colors: it runs after every optional key has a default, so it cannot fail.
- The FastLED lambda's parameter (line 250) is built with `RawExpression`, which this file never imports, so that branch would stop with a name error. The model keeps only the intended parameter, a `FastLEDLightOutputComponent &` named `it`, as text.
- `Hass.CoreToHassConfig` requires an existing `effect_list` to be a list when there are effects to append. The source would raise an error on any other value, and that error is not modelled.
- Validation.ValidateEffects: does not model the in-place rewrite `effect[key] = effect[key] or {}` (line 189) of the caller's list. Entries are immutable values, so the caller never sees a falsy body replaced by an empty mapping; only the validated result is modelled.
