/**
 * `build_effect`: the code one validated effect entry produces. Lambda
 * effects emit nothing and wait for their lambda to compile; every other
 * effect declares its own variable, sets each option the entry gives, and
 * hands its colour list to the effect in one `set_colors` call.
 */
module Effects {
  import opened Wrappers
  import opened Tiers
  import opened EffectSchema
  import opened Codegen

  /** The C++ class each tag instantiates. */
  function EffectClass(k: Kind): string {
    match k
    case Lambda => "LambdaLightEffect"
    case Random => "RandomLightEffect"
    case Strobe => "StrobeLightEffect"
    case Flicker => "FlickerLightEffect"
    case FastLedLambda => "FastLEDLambdaLightEffect"
    case FastLedRainbow => "FastLEDRainbowLightEffect"
    case FastLedColorWipe => "FastLEDColorWipeEffect"
    case FastLedScan => "FastLEDScanEffect"
    case FastLedTwinkle => "FastLEDTwinkleEffect"
    case FastLedRandomTwinkle => "FastLEDRandomTwinkleEffect"
    case FastLedFireworks => "FastLEDFireworksEffect"
    case FastLedFlicker => "FastLEDFlickerEffect"
  }

  /**
   * The optional keys each tag turns into a setter call on its effect, in the
   * order the builder tests them. Fireworks passes its last three options to
   * the same setter, `set_spark_probability`.
   */
  function SetterTable(k: Kind): seq<Setter> {
    match k
    case Lambda => []
    case FastLedLambda => []
    case Random =>
      [Setter("transition_length", "set_transition_length"), Setter("update_interval", "set_update_interval")]
    case Strobe => []
    case Flicker => [Setter("alpha", "set_alpha"), Setter("intensity", "set_intensity")]
    case FastLedRainbow => [Setter("speed", "set_speed"), Setter("width", "set_width")]
    case FastLedColorWipe =>
      [Setter("add_led_interval", "set_add_led_interval"), Setter("reverse", "set_reverse")]
    case FastLedScan => [Setter("move_interval", "set_move_interval")]
    case FastLedTwinkle =>
      [Setter("twinkle_probability", "set_twinkle_probability"), Setter("progress_interval", "set_progress_interval")]
    case FastLedRandomTwinkle =>
      [Setter("twinkle_probability", "set_twinkle_probability"), Setter("progress_interval", "set_progress_interval")]
    case FastLedFireworks =>
      [Setter("update_interval", "set_update_interval"), Setter("spark_probability", "set_spark_probability"),
       Setter("use_random_color", "set_spark_probability"), Setter("fade_out_rate", "set_spark_probability")]
    case FastLedFlicker => [Setter("update_interval", "set_update_interval"), Setter("intensity", "set_intensity")]
  }

  /** The tag takes a colour list. */
  predicate HasColors(k: Kind) {
    ColorsFor(k).Some?
  }

  /** The colour sub-schema of a tag that takes a colour list. */
  function ColorsOf(k: Kind): ColorSchema
    requires HasColors(k)
  {
    ColorsFor(k).value
  }

  /** Every entry of the `colors` list carries every key its sub-schema knows. */
  predicate ColorsShaped(k: Kind, conf: Conf)
    requires HasColors(k)
  {
    "colors" in conf ==>
      conf["colors"].Records? &&
      forall i :: 0 <= i < |conf["colors"].items| ==> ColorKeys(ColorsOf(k)) <= conf["colors"].items[i].Keys
  }

  /** What the builder reads from an effect's configuration without checking. */
  predicate Buildable(e: Effect) {
    && "name" in e.conf
    && (IsLambdaKind(e.kind) ==> "lambda" in e.conf && e.conf["lambda"].Code? && "update_interval" in e.conf)
    && (!IsLambdaKind(e.kind) ==> "effect_id" in e.conf && e.conf["effect_id"].Text?)
    && (HasColors(e.kind) ==> ColorsShaped(e.kind, e.conf))
  }

  /** Every effect the validator produces can be built. */
  lemma {:induction false} ValidIsBuildable(e: Effect)
    requires e.Valid()
    ensures Buildable(e)
  {
    var s := Schema(e.kind);
    if IsLambdaKind(e.kind) {
      assert "lambda" in s.required && "lambda" in s.code && "name" in s.required;
      assert "update_interval" in s.defaults;
    } else {
      assert "effect_id" in s.generated && "effect_id" !in s.code && "name" in s.defaults;
      if HasColors(e.kind) {
        assert s.colors == Some(ColorsOf(e.kind));
        assert IsColorsKey(s, "colors");
      }
    }
  }

  /** The parameters a tag's lambda is compiled with. */
  function LambdaParams(k: Kind): seq<(string, string)> {
    if k == FastLedLambda then [("FastLEDLightOutputComponent &", "it")] else []
  }

  function Field(c: map<string, string>, key: string): Expr
    requires key in c
  {
    Lit(Text(c[key]))
  }

  /** The struct initializer one colour entry becomes. */
  function ColorStruct(k: Kind, c: map<string, string>): Expr
    requires HasColors(k) && ColorKeys(ColorsOf(k)) <= c.Keys
  {
    if k == Strobe then
      Struct("StrobeLightEffectColor", [
        ("color", Construct("LightColorValues", [Field(c, "state"), Field(c, "brightness"), Field(c, "red"),
                                                 Field(c, "green"), Field(c, "blue"), Field(c, "white")])),
        ("duration", Field(c, "duration"))])
    else
      Struct("FastLEDColorWipeEffectColor", [
        ("r", Field(c, "red")), ("g", Field(c, "green")), ("b", Field(c, "blue")),
        ("random", Field(c, "random")), ("num_leds", Field(c, "num_leds"))])
  }

  /** The colour entries of a configuration; none when it gives no `colors`. */
  function ColorItems(conf: Conf): seq<map<string, string>> {
    if "colors" in conf && conf["colors"].Records? then conf["colors"].items else []
  }

  /** The `set_colors` call: one struct per colour entry, in list order, and no call for an empty list. */
  function ColorsStmts(id: string, k: Kind, conf: Conf): seq<Stmt>
    requires HasColors(k) ==> ColorsShaped(k, conf)
  {
    var items := ColorItems(conf);
    if !HasColors(k) || items == [] then []
    else [Invoke(id, "set_colors", [Array(seq(|items|, i requires 0 <= i < |items| => ColorStruct(k, items[i])))])]
  }

  /**
   * What building effect `e` produces once the lambda sources in `compiled`
   * have finished compiling: the statements it emits and the expression that
   * stands for the effect, or the lambda it still waits for.
   */
  function EffectProgram(e: Effect, compiled: set<string>): Outcome<Expr>
    requires Buildable(e)
  {
    var cls := EffectClass(e.kind);
    if IsLambdaKind(e.kind) then
      var src := e.conf["lambda"].source;
      if src !in compiled then Suspended([], Compiling(src))
      else Completed([], New(cls, [Lit(e.conf["name"]), CompiledLambda(src, LambdaParams(e.kind), None),
                                   Lit(e.conf["update_interval"])]))
    else
      Completed(DeclaredStmts(e), Ref(e.conf["effect_id"].text))
  }

  /** The statements of an effect that declares its own variable: the declaration, its setters, its colours. */
  function DeclaredStmts(e: Effect): seq<Stmt>
    requires Buildable(e) && !IsLambdaKind(e.kind)
  {
    var cls := EffectClass(e.kind);
    var id := e.conf["effect_id"].text;
    [Declare(id, Plain(cls), New(cls, [Lit(e.conf["name"])]))]
    + Setters(id, e.conf, SetterTable(e.kind)) + ColorsStmts(id, e.kind, e.conf)
  }

  /** Builds the struct of each colour entry, in list order. */
  method ColorStructs(k: Kind, items: seq<map<string, string>>) returns (colors: seq<Expr>)
    requires HasColors(k)
    requires forall i :: 0 <= i < |items| ==> ColorKeys(ColorsOf(k)) <= items[i].Keys
    ensures |colors| == |items|
    ensures forall i :: 0 <= i < |items| ==> colors[i] == ColorStruct(k, items[i])
  {
    colors := [];
    for i := 0 to |items|
      invariant |colors| == i
      invariant forall j :: 0 <= j < i ==> colors[j] == ColorStruct(k, items[j])
    {
      colors := colors + [ColorStruct(k, items[i])];
    }
  }

  /** Emits `set_colors` with the effect's colour list, unless the list is empty. */
  method SetColors(g: Generator, id: string, k: Kind, conf: Conf)
    requires g.Valid() && HasColors(k) && ColorsShaped(k, conf)
    modifies g
    ensures g.Valid()
    ensures g.stmts == old(g.stmts) + ColorsStmts(id, k, conf)
  {
    var items := ColorItems(conf);
    var colors := ColorStructs(k, items);
    if colors != [] {
      assert colors == seq(|items|, i requires 0 <= i < |items| => ColorStruct(k, items[i]));
      g.Add(id, "set_colors", [Array(colors)]);
    }
  }

  /** Declares a non-lambda effect's variable and emits its setters and colours; returns the variable. */
  method DeclareEffect(g: Generator, e: Effect) returns (effect: Expr)
    requires g.Valid() && Buildable(e) && !IsLambdaKind(e.kind)
    modifies g
    ensures g.Valid()
    ensures g.stmts == old(g.stmts) + DeclaredStmts(e)
    ensures effect == Ref(e.conf["effect_id"].text)
  {
    var cls := EffectClass(e.kind);
    var id := e.conf["effect_id"].text;
    ghost var start := g.stmts;
    ghost var declare := [Declare(id, Plain(cls), New(cls, [Lit(e.conf["name"])]))];
    ghost var setters := Setters(id, e.conf, SetterTable(e.kind));
    ghost var colors := ColorsStmts(id, e.kind, e.conf);
    effect := g.Pvariable(id, Plain(cls), New(cls, [Lit(e.conf["name"])]));
    SetAll(g, id, e.conf, SetterTable(e.kind));
    AppendAssoc(start, declare, setters);
    if HasColors(e.kind) {
      SetColors(g, id, e.kind, e.conf);
    } else {
      assert colors == [];
    }
    AppendAssoc(start, declare + setters, colors);
    assert DeclaredStmts(e) == declare + setters + colors;
  }

  /**
   * Builds effect `e` against the lambdas compiled so far: emits the effect's
   * statements and returns the expression for it, or returns None while its
   * lambda is still compiling.
   */
  method BuildEffect(g: Generator, e: Effect, compiled: set<string>) returns (r: Option<Expr>)
    requires g.Valid() && Buildable(e)
    modifies g
    ensures g.Valid()
    ensures g.stmts == old(g.stmts) + EffectProgram(e, compiled).emitted
    ensures r.Some? <==> EffectProgram(e, compiled).Completed?
    ensures r.Some? ==> r.value == EffectProgram(e, compiled).value
  {
    if IsLambdaKind(e.kind) {
      var src := e.conf["lambda"].source;
      if src !in compiled {
        return None;
      }
      var lambda := CompiledLambda(src, LambdaParams(e.kind), None);
      return Some(New(EffectClass(e.kind), [Lit(e.conf["name"]), lambda, Lit(e.conf["update_interval"])]));
    }
    var effect := DeclareEffect(g, e);
    r := Some(effect);
  }

  /** A lambda effect emits nothing of its own, and completes exactly when its lambda has compiled. */
  lemma LambdaEffectWaits(e: Effect, compiled: set<string>)
    requires Buildable(e) && IsLambdaKind(e.kind)
    ensures EffectProgram(e, compiled).emitted == []
    ensures EffectProgram(e, compiled).Completed? <==> e.conf["lambda"].source in compiled
    ensures EffectProgram(e, compiled).Suspended? ==> EffectProgram(e, compiled).on == Compiling(e.conf["lambda"].source)
  {
  }

  /** Resuming a builder after more lambdas compiled never withdraws or changes what it produced. */
  lemma EffectMonotone(e: Effect, before: set<string>, after: set<string>)
    requires Buildable(e) && before <= after
    ensures Extends(EffectProgram(e, before), EffectProgram(e, after))
  {
  }

  /**
   * A non-lambda effect completes at once; its first statement declares the
   * effect's variable, every later statement is a call on that variable, and
   * the effect stands for that variable.
   */
  lemma {:induction false} DeclaredFirst(e: Effect, compiled: set<string>)
    requires Buildable(e) && !IsLambdaKind(e.kind)
    ensures var o := EffectProgram(e, compiled);
      var id := e.conf["effect_id"].text;
      && o.Completed? && o.value == Ref(id)
      && |o.emitted| >= 1
      && o.emitted[0] == Declare(id, Plain(EffectClass(e.kind)), New(EffectClass(e.kind), [Lit(e.conf["name"])]))
      && forall j :: 1 <= j < |o.emitted| ==> o.emitted[j].Invoke? && o.emitted[j].target == id
  {
    var id := e.conf["effect_id"].text;
    var setters := Setters(id, e.conf, SetterTable(e.kind));
    var colors := ColorsStmts(id, e.kind, e.conf);
    SettersInOrder(id, e.conf, SetterTable(e.kind));
    var o := EffectProgram(e, compiled);
    forall j | 1 <= j < |o.emitted|
      ensures o.emitted[j].Invoke? && o.emitted[j].target == id
    {
      if j <= |setters| {
        assert o.emitted[j] == setters[j - 1];
      } else {
        assert o.emitted[j] == colors[j - 1 - |setters|];
      }
    }
  }

  /** How many calls of `name` a declared effect emits: its setters' and its colour call's. */
  lemma {:induction false} DeclaredCalls(e: Effect, name: string)
    requires Buildable(e) && !IsLambdaKind(e.kind)
    ensures var id := e.conf["effect_id"].text;
      Calls(DeclaredStmts(e), name)
        == Matching(e.conf, SetterTable(e.kind), name)
           + (if name == "set_colors" && HasColors(e.kind) && ColorItems(e.conf) != [] then 1 else 0)
  {
    var cls := EffectClass(e.kind);
    var id := e.conf["effect_id"].text;
    var declare := [Declare(id, Plain(cls), New(cls, [Lit(e.conf["name"])]))];
    var setters := Setters(id, e.conf, SetterTable(e.kind));
    var colors := ColorsStmts(id, e.kind, e.conf);
    CallsAppend(declare + setters, colors, name);
    CallsAppend(declare, setters, name);
    assert declare[..0] == [];
    if colors != [] {
      assert colors[..0] == [];
    }
    SetterCalls(id, e.conf, SetterTable(e.kind), name);
  }

  /** Only fireworks reuses a setter name, and no table uses the colour setter's name. */
  lemma SetterNames(k: Kind)
    ensures k != FastLedFireworks ==> DistinctSetters(SetterTable(k))
    ensures forall j :: 0 <= j < |SetterTable(k)| ==> SetterTable(k)[j].name != "set_colors"
  {
  }

  /**
   * Outside fireworks, each option of the tag's setter list produces exactly
   * one call of its setter when the configuration gives it, and none otherwise.
   */
  lemma {:induction false} SetterCalledIffPresent(e: Effect, compiled: set<string>, j: nat)
    requires Buildable(e) && !IsLambdaKind(e.kind) && e.kind != FastLedFireworks
    requires j < |SetterTable(e.kind)|
    ensures Calls(EffectProgram(e, compiled).emitted, SetterTable(e.kind)[j].name)
         == if SetterTable(e.kind)[j].key in e.conf then 1 else 0
  {
    var id := e.conf["effect_id"].text;
    var name := SetterTable(e.kind)[j].name;
    SetterNames(e.kind);
    DeclaredCalls(e, name);
    SetterCalls(id, e.conf, SetterTable(e.kind), name);
    SetterCount(id, e.conf, SetterTable(e.kind), j);
  }

  /**
   * Fireworks, as the builder is written: `spark_probability`,
   * `use_random_color` and `fade_out_rate` all reach `set_spark_probability`,
   * so that setter is called once per option given, and no
   * `set_use_random_color` or `set_fade_out_rate` call is ever emitted.
   */
  lemma {:induction false} FireworksAsWritten(e: Effect, compiled: set<string>)
    requires Buildable(e) && e.kind == FastLedFireworks
    ensures var emitted := EffectProgram(e, compiled).emitted;
      && Calls(emitted, "set_spark_probability")
           == (if "spark_probability" in e.conf then 1 else 0)
              + (if "use_random_color" in e.conf then 1 else 0)
              + (if "fade_out_rate" in e.conf then 1 else 0)
      && Calls(emitted, "set_update_interval") == (if "update_interval" in e.conf then 1 else 0)
      && Calls(emitted, "set_use_random_color") == 0
      && Calls(emitted, "set_fade_out_rate") == 0
  {
    var t := SetterTable(FastLedFireworks);
    MatchingOfFour(e.conf, t, "set_spark_probability");
    MatchingOfFour(e.conf, t, "set_update_interval");
    MatchingOfFour(e.conf, t, "set_use_random_color");
    MatchingOfFour(e.conf, t, "set_fade_out_rate");
    DeclaredCalls(e, "set_spark_probability");
    DeclaredCalls(e, "set_update_interval");
    DeclaredCalls(e, "set_use_random_color");
    DeclaredCalls(e, "set_fade_out_rate");
  }

  /** A colour-list effect calls `set_colors` once when its list is non-empty; no other effect calls it. */
  lemma {:induction false} ColorsCalledIffListed(e: Effect, compiled: set<string>)
    requires Buildable(e) && !IsLambdaKind(e.kind)
    ensures Calls(EffectProgram(e, compiled).emitted, "set_colors")
         == if HasColors(e.kind) && ColorItems(e.conf) != [] then 1 else 0
  {
    SetterNames(e.kind);
    DeclaredCalls(e, "set_colors");
    SetterCalls(e.conf["effect_id"].text, e.conf, SetterTable(e.kind), "set_colors");
    SetterNotCalled(e.conf["effect_id"].text, e.conf, SetterTable(e.kind), "set_colors");
  }

  /**
   * The builder consumes exactly the options the schema admits: every setter
   * key is an optional key of the tag's schema, and every optional key but
   * `colors` has a setter.
   */
  lemma SettersCoverOptions(k: Kind)
    ensures forall j :: 0 <= j < |SetterTable(k)| ==> SetterTable(k)[j].key in Schema(k).optional
    ensures forall key :: key in Schema(k).optional && key != "colors" ==>
              exists j :: 0 <= j < |SetterTable(k)| && SetterTable(k)[j].key == key
  {
    var t := SetterTable(k);
    forall key | key in Schema(k).optional && key != "colors"
      ensures exists j :: 0 <= j < |t| && t[j].key == key
    {
      if |t| > 0 && t[0].key == key {
      } else if |t| > 1 && t[1].key == key {
      } else if |t| > 2 && t[2].key == key {
      } else {
        assert |t| > 3 && t[3].key == key;
      }
    }
  }

  /** The setter names that appear in some tag's setter list. */
  const EffectSetterNames: set<string> := {
    "set_transition_length", "set_update_interval", "set_alpha", "set_intensity", "set_speed", "set_width",
    "set_add_led_interval", "set_reverse", "set_move_interval", "set_twinkle_probability",
    "set_progress_interval", "set_spark_probability"}

  /** Every tag's setters are among the effect setter names. */
  lemma SetterNamesKnown(k: Kind)
    ensures forall j :: 0 <= j < |SetterTable(k)| ==> SetterTable(k)[j].name in EffectSetterNames
  {
  }

  /** A method name no effect ever calls: neither the colour setter nor any setter of any tag. */
  predicate ForeignToEffects(name: string) {
    name != "set_colors" && name !in EffectSetterNames
  }

  /** An effect never calls a method foreign to effects. */
  lemma {:induction false} EffectNeverCalls(e: Effect, compiled: set<string>, name: string)
    requires Buildable(e) && ForeignToEffects(name)
    ensures Calls(EffectProgram(e, compiled).emitted, name) == 0
  {
    if !IsLambdaKind(e.kind) {
      SetterNamesKnown(e.kind);
      DeclaredCalls(e, name);
      SetterNotCalled(e.conf["effect_id"].text, e.conf, SetterTable(e.kind), name);
      SetterCalls(e.conf["effect_id"].text, e.conf, SetterTable(e.kind), name);
    }
  }

  /**
   * A colour-list effect with colours ends with its `set_colors` call, after
   * all its setters; the array holds one struct per colour entry, in list order.
   */
  lemma ColorsLast(e: Effect, compiled: set<string>)
    requires Buildable(e) && HasColors(e.kind) && ColorItems(e.conf) != []
    ensures var emitted := EffectProgram(e, compiled).emitted;
      var items := ColorItems(e.conf);
      && |emitted| >= 2
      && emitted[|emitted| - 1].Invoke?
      && emitted[|emitted| - 1].target == e.conf["effect_id"].text
      && emitted[|emitted| - 1].name == "set_colors"
      && |emitted[|emitted| - 1].args| == 1
      && emitted[|emitted| - 1].args[0].Array?
      && |emitted[|emitted| - 1].args[0].items| == |items|
      && forall i :: 0 <= i < |items| ==> emitted[|emitted| - 1].args[0].items[i] == ColorStruct(e.kind, items[i])
  {
  }
}
