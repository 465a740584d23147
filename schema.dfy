/**
 * The effects schema at the level of keys: which keys each effect tag
 * accepts, which it requires, which it fills with a default, and what shape
 * each value must have. Field parsers are opaque here: a value that reaches
 * the schema is taken as already parsed (a duration, a percentage, a flag or
 * a name is just its literal text).
 */
module EffectSchema {
  import opened Wrappers
  import opened Tiers

  /** A configuration value once its field parser accepted it. */
  datatype Value =
    | Text(text: string)                        // a scalar literal
    | Code(source: string)                      // a lambda, compiled later
    | Records(items: seq<map<string, string>>)  // a `colors` list

  /** A configuration mapping, as the schema sees and returns it. */
  type Conf = map<string, Value>

  /** The validation errors the light component raises. */
  datatype Error =
    | NotADict
    | MultipleEffects
    | NoEffect(index: nat)
    | NotAllowed(tag: string)
    | SchemaInvalid(tag: string)
    | DuplicateName(name: string)
    | Exclusive(group: string)

  /** The sub-schema of one entry of a `colors` list. */
  datatype ColorSchema = ColorSchema(defaults: map<string, string>, required: set<string>, minLength: nat)

  function ColorKeys(cs: ColorSchema): set<string> {
    cs.defaults.Keys + cs.required
  }

  const StrobeColors: ColorSchema := ColorSchema(
    map["state" := "true", "brightness" := "1.0", "red" := "1.0", "green" := "1.0",
        "blue" := "1.0", "white" := "1.0"],
    {"duration"}, 2)

  const WipeColors: ColorSchema := ColorSchema(
    map["red" := "1.0", "green" := "1.0", "blue" := "1.0", "random" := "false"],
    {"num_leds"}, 0)

  /**
   * The schema of one effect tag: required keys, keys with a default value,
   * keys whose absent value is a freshly generated identifier, plain optional
   * keys, the keys holding a lambda, and the sub-schema of `colors` if the tag
   * has one.
   */
  datatype EffectFields = EffectFields(
    required: set<string>,
    defaults: Conf,
    generated: set<string>,
    optional: set<string>,
    code: set<string>,
    colors: Option<ColorSchema>)

  function Keys(s: EffectFields): set<string> {
    s.required + s.defaults.Keys + s.generated + s.optional
  }

  predicate IsLambdaKind(k: Kind) {
    k == Lambda || k == FastLedLambda
  }

  /** The name an effect gets when its configuration gives none; lambda effects must name themselves. */
  function DefaultName(k: Kind): (r: Option<string>)
    ensures r.None? <==> IsLambdaKind(k)
  {
    match k
    case Lambda => None
    case FastLedLambda => None
    case Random => Some("Random")
    case Strobe => Some("Strobe")
    case Flicker => Some("Flicker")
    case FastLedRainbow => Some("Rainbow")
    case FastLedColorWipe => Some("Color Wipe")
    case FastLedScan => Some("Scan")
    case FastLedTwinkle => Some("Twinkle")
    case FastLedRandomTwinkle => Some("Random Twinkle")
    case FastLedFireworks => Some("Fireworks")
    case FastLedFlicker => Some("FastLED Flicker")
  }

  /** The schema of an effect that declares its own variable: a generated id and a defaulted name. */
  function Declared(k: Kind, optional: set<string>, colors: Option<ColorSchema>): EffectFields
    requires !IsLambdaKind(k)
  {
    EffectFields({}, map["name" := Text(DefaultName(k).value)], {"effect_id"},
                 optional + (if colors.Some? then {"colors"} else {}), {}, colors)
  }

  /** The schema shared by the two lambda effects: a required name and lambda, and a default update interval. */
  const LambdaSchema: EffectFields :=
    EffectFields({"name", "lambda"}, map["update_interval" := Text("0ms")], {}, {}, {"lambda"}, None)

  /** The plain optional keys of a tag's schema. */
  function OptionalKeys(k: Kind): set<string> {
    match k
    case Lambda => {}
    case FastLedLambda => {}
    case Random => {"transition_length", "update_interval"}
    case Strobe => {}
    case Flicker => {"alpha", "intensity"}
    case FastLedRainbow => {"speed", "width"}
    case FastLedColorWipe => {"add_led_interval", "reverse"}
    case FastLedScan => {"move_interval"}
    case FastLedTwinkle => {"twinkle_probability", "progress_interval"}
    case FastLedRandomTwinkle => {"twinkle_probability", "progress_interval"}
    case FastLedFireworks => {"update_interval", "spark_probability", "use_random_color", "fade_out_rate"}
    case FastLedFlicker => {"update_interval", "intensity"}
  }

  /** The colour-list sub-schema of a tag, if it takes one. */
  function ColorsFor(k: Kind): Option<ColorSchema> {
    if k == Strobe then Some(StrobeColors) else if k == FastLedColorWipe then Some(WipeColors) else None
  }

  function Schema(k: Kind): EffectFields {
    if IsLambdaKind(k) then LambdaSchema else Declared(k, OptionalKeys(k), ColorsFor(k))
  }

  predicate IsColorsKey(s: EffectFields, key: string) {
    key == "colors" && s.colors.Some?
  }

  /** A raw `colors` list the sub-schema accepts: long enough, no unknown key, every required key. */
  predicate ColorsAccepted(cs: ColorSchema, items: seq<map<string, string>>) {
    && |items| >= cs.minLength
    && forall i :: 0 <= i < |items| ==> items[i].Keys <= ColorKeys(cs) && cs.required <= items[i].Keys
  }

  /** A raw value the schema accepts under `key`. */
  predicate Fits(s: EffectFields, key: string, v: Value) {
    if key in s.code then v.Code?
    else if IsColorsKey(s, key) then v.Records? && ColorsAccepted(s.colors.value, v.items)
    else v.Text?
  }

  /** A validated value under `key`: colors entries carry every key of their sub-schema. */
  predicate Settled(s: EffectFields, key: string, v: Value) {
    if key in s.code then v.Code?
    else if IsColorsKey(s, key) then
      v.Records? && forall i :: 0 <= i < |v.items| ==> v.items[i].Keys == ColorKeys(s.colors.value)
    else v.Text?
  }

  /** What a configuration validated against the schema `s` looks like. */
  predicate ConformsTo(s: EffectFields, conf: Conf) {
    && conf.Keys <= Keys(s)
    && s.required + s.defaults.Keys + s.generated <= conf.Keys
    && forall key :: key in conf ==> Settled(s, key, conf[key])
  }

  /** What a configuration validated against the schema of tag `k` looks like. */
  predicate Conforms(k: Kind, conf: Conf) {
    ConformsTo(Schema(k), conf)
  }

  /** The schema's own defaults and generated identifiers have the shape it expects, and its lambda keys are required. */
  predicate SelfConsistent(s: EffectFields) {
    && (forall key :: key in s.defaults ==> Settled(s, key, s.defaults[key]))
    && (forall key :: key in s.generated ==> key !in s.code && !IsColorsKey(s, key))
    && s.generated !! s.defaults.Keys
    && (s.colors.Some? ==> "colors" !in s.code)
    && s.code <= s.required
  }

  lemma SchemaSelfConsistent(k: Kind)
    ensures SelfConsistent(Schema(k))
  {
  }

  /** Fills the defaults of each colors entry; the entry's own values win. */
  function NormalizeValue(s: EffectFields, key: string, v: Value): Value {
    if IsColorsKey(s, key) && v.Records? then
      Records(seq(|v.items|, i requires 0 <= i < |v.items| => s.colors.value.defaults + v.items[i]))
    else v
  }

  /** The checks the schema `s` makes of an entry body. */
  predicate Accepts(s: EffectFields, body: Conf) {
    && body.Keys <= Keys(s)
    && s.required <= body.Keys
    && forall key :: key in body ==> Fits(s, key, body[key])
  }

  /** Applies the schema `s`: rejects, or fills defaults and generated identifiers. */
  function Apply(s: EffectFields, body: Conf, autoId: string): (r: Option<Conf>)
    requires SelfConsistent(s)
    ensures r.Some? <==> Accepts(s, body)
    ensures r.Some? ==> ConformsTo(s, r.value)
    ensures r.Some? ==> body.Keys <= r.value.Keys
    ensures r.Some? ==> forall key :: key in body && !IsColorsKey(s, key) ==> r.value[key] == body[key]
    ensures r.Some? ==> forall key :: key in s.defaults && key !in body ==> r.value[key] == s.defaults[key]
    ensures r.Some? ==> r.value.Keys == body.Keys + s.defaults.Keys + s.generated
    ensures r.Some? ==> forall key :: key in s.generated && key !in body ==> r.value[key] == Text(autoId)
    ensures r.Some? ==> forall key :: key in body && IsColorsKey(s, key) ==>
              && r.value[key].Records? && |r.value[key].items| == |body[key].items|
              && forall i :: 0 <= i < |body[key].items| ==>
                   r.value[key].items[i] == s.colors.value.defaults + body[key].items[i]
  {
    if !Accepts(s, body) then None
    else
      FillKeys(s, body, autoId);
      FillValues(s, body, autoId);
      FillColors(s, body, autoId);
      FillSettled(s, body, autoId);
      Some(Fill(s, body, autoId))
  }

  /** Defaults, then generated identifiers, then the entry's own (normalized) values. */
  function Fill(s: EffectFields, body: Conf, autoId: string): Conf {
    var ids := map key | key in s.generated :: Text(autoId);
    var given := map key | key in body :: NormalizeValue(s, key, body[key]);
    s.defaults + ids + given
  }

  lemma FillKeys(s: EffectFields, body: Conf, autoId: string)
    ensures Fill(s, body, autoId).Keys == body.Keys + s.defaults.Keys + s.generated
  {
  }

  lemma FillValues(s: EffectFields, body: Conf, autoId: string)
    requires SelfConsistent(s)
    ensures forall key :: key in body && !IsColorsKey(s, key) ==> Fill(s, body, autoId)[key] == body[key]
    ensures forall key :: key in s.defaults && key !in body ==> Fill(s, body, autoId)[key] == s.defaults[key]
    ensures forall key :: key in s.generated && key !in body ==> Fill(s, body, autoId)[key] == Text(autoId)
  {
  }

  lemma FillColors(s: EffectFields, body: Conf, autoId: string)
    requires SelfConsistent(s) && Accepts(s, body)
    ensures forall key :: key in body && IsColorsKey(s, key) ==>
              && Fill(s, body, autoId)[key].Records?
              && |Fill(s, body, autoId)[key].items| == |body[key].items|
              && forall i :: 0 <= i < |body[key].items| ==>
                   Fill(s, body, autoId)[key].items[i] == s.colors.value.defaults + body[key].items[i]
  {
    forall key | key in body && IsColorsKey(s, key)
      ensures Fill(s, body, autoId)[key] == NormalizeValue(s, key, body[key])
      ensures body[key].Records?
    {
      assert Fits(s, key, body[key]);
    }
  }

  lemma FillSettled(s: EffectFields, body: Conf, autoId: string)
    requires SelfConsistent(s) && Accepts(s, body)
    ensures ConformsTo(s, Fill(s, body, autoId))
  {
  }

  /**
   * Applies the schema of tag `k` to the body of an effect entry: rejects an
   * unknown key, a missing required key or a value of the wrong shape, and
   * otherwise fills defaults and generated identifiers.
   */
  function ApplySchema(k: Kind, body: Conf, autoId: string): (r: Result<Conf, Error>)
    ensures r.Err? <==> !Accepts(Schema(k), body)
    ensures r.Err? ==> r.error == SchemaInvalid(TagName(k))
    ensures r.Ok? ==> Conforms(k, r.value)
    ensures r.Ok? ==> body.Keys <= r.value.Keys
    ensures r.Ok? ==> forall key :: key in body && !IsColorsKey(Schema(k), key) ==> r.value[key] == body[key]
    ensures r.Ok? ==> forall key :: key in Schema(k).defaults && key !in body ==> r.value[key] == Schema(k).defaults[key]
    ensures r.Ok? ==> r.value.Keys == body.Keys + Schema(k).defaults.Keys + Schema(k).generated
    ensures r.Ok? ==> forall key :: key in Schema(k).generated && key !in body ==> r.value[key] == Text(autoId)
    ensures r.Ok? ==> forall key :: key in body && IsColorsKey(Schema(k), key) ==>
              && r.value[key].Records? && |r.value[key].items| == |body[key].items|
              && forall i :: 0 <= i < |body[key].items| ==>
                   r.value[key].items[i] == Schema(k).colors.value.defaults + body[key].items[i]
  {
    SchemaSelfConsistent(k);
    match Apply(Schema(k), body, autoId)
    case None => Err(SchemaInvalid(TagName(k)))
    case Some(c) => Ok(c)
  }

  /** A validated effect: the variant its key selected and its validated configuration. */
  datatype Effect = Effect(kind: Kind, conf: Conf) {
    predicate Valid() {
      Conforms(kind, conf)
    }
  }

  /** The effect's name; every validated effect has one, as text. */
  function NameOf(e: Effect): string {
    if "name" in e.conf && e.conf["name"].Text? then e.conf["name"].text else ""
  }

  /** An effect that gives no name gets its tag's default name; a lambda effect must give one. */
  lemma {:induction false} NameDefaulted(k: Kind, body: Conf, autoId: string)
    requires "name" !in body
    ensures IsLambdaKind(k) ==> ApplySchema(k, body, autoId).Err?
    ensures ApplySchema(k, body, autoId).Ok? ==>
      ApplySchema(k, body, autoId).value["name"] == Text(DefaultName(k).value)
  {
    if IsLambdaKind(k) {
      assert "name" in Schema(k).required;
    } else {
      assert "name" in Schema(k).defaults;
    }
  }

  /** An effect that gives a name keeps it. */
  lemma NameKept(k: Kind, body: Conf, autoId: string)
    requires "name" in body
    ensures ApplySchema(k, body, autoId).Ok? ==> ApplySchema(k, body, autoId).value["name"] == body["name"]
  {
  }

  /** Every tag but the two lambda tags accepts an empty body (`- strobe:` alone). */
  lemma {:induction false} EmptyBodyAccepted(k: Kind, autoId: string)
    requires !IsLambdaKind(k)
    ensures ApplySchema(k, map[], autoId).Ok?
  {
    assert Schema(k).required == {};
  }
}
