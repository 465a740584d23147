/**
 * `setup_light_core_` and `setup_light`: the code that configures one light.
 * The light's own options become setter calls on the light variable; its
 * effects are built one after the other in configuration order, and, once
 * every one of them is built, handed to the light in a single `add_effects`
 * call.
 */
module Light {
  import opened Wrappers
  import opened EffectSchema
  import opened Codegen
  import opened Effects

  /**
   * A validated light: the ids of its light and MQTT variables, its options,
   * and its validated effect list (empty when the configuration gives none).
   */
  datatype LightConfig = LightConfig(id: string, mqttId: string, options: Conf, effects: seq<Effect>)

  /** The light's own options and their setters, in the order they are tested. */
  const LightSetters: seq<Setter> := [
    Setter("internal", "set_internal"),
    Setter("default_transition_length", "set_default_transition_length"),
    Setter("gamma_correct", "set_gamma_correct")]

  predicate AllBuildable(effects: seq<Effect>) {
    forall i :: 0 <= i < |effects| ==> Buildable(effects[i])
  }

  /** What building each effect produces, in configuration order; an elementwise map, its ensures exposed for the prover. */
  function Outcomes(effects: seq<Effect>, compiled: set<string>): (o: seq<Outcome<Expr>>)
    requires AllBuildable(effects)
    ensures |o| == |effects|
    ensures forall i :: 0 <= i < |effects| ==> o[i] == EffectProgram(effects[i], compiled)
  {
    seq(|effects|, i requires 0 <= i < |effects| => EffectProgram(effects[i], compiled))
  }

  /**
   * Building the effects in order: stops at the first effect still waiting on
   * its lambda, after what the effects before it emitted; otherwise collects
   * one expression per effect.
   */
  function EffectsProgram(effects: seq<Effect>, compiled: set<string>): Outcome<seq<Expr>>
    requires AllBuildable(effects)
  {
    Sequence(Outcomes(effects, compiled))
  }

  /** The `add_effects` call, made only when there is at least one effect. */
  function AddEffects(id: string, values: seq<Expr>): seq<Stmt> {
    if values == [] then [] else [Invoke(id, "add_effects", [Array(values)])]
  }

  /** What configuring the light produces once the lambdas in `compiled` have compiled. */
  function SetupProgram(light: LightConfig, compiled: set<string>): Outcome<()>
    requires AllBuildable(light.effects)
  {
    var options := Setters(light.id, light.options, LightSetters);
    match EffectsProgram(light.effects, compiled)
    case Suspended(emitted, on) => Suspended(options + emitted, on)
    case Completed(emitted, values) => Completed(options + emitted + AddEffects(light.id, values), ())
  }

  /**
   * Configures the light against the lambdas compiled so far. Returns false
   * when it stopped at an effect still waiting on its lambda.
   */
  method SetupLightCore(g: Generator, light: LightConfig, compiled: set<string>) returns (done: bool)
    requires g.Valid() && AllBuildable(light.effects)
    modifies g
    ensures g.Valid()
    ensures g.stmts == old(g.stmts) + SetupProgram(light, compiled).emitted
    ensures done <==> SetupProgram(light, compiled).Completed?
  {
    SetAll(g, light.id, light.options, LightSetters);
    ghost var start := g.stmts;
    ghost var emitted := [];
    var effects := [];
    ghost var outcomes := Outcomes(light.effects, compiled);
    for i := 0 to |light.effects|
      invariant g.Valid() && g.stmts == start + emitted
      invariant Sequence(outcomes[..i]) == Completed(emitted, effects)
    {
      ghost var next := outcomes[i];
      var effect := BuildEffect(g, light.effects[i], compiled);
      AppendAssoc(start, emitted, next.emitted);
      SequenceSnoc(outcomes, i);
      emitted := emitted + next.emitted;
      if effect.None? {
        SuspensionSticks(outcomes, i + 1);
        AppendAssoc(old(g.stmts), Setters(light.id, light.options, LightSetters), emitted);
        return false;
      }
      effects := effects + [effect.value];
    }
    assert outcomes[..|light.effects|] == outcomes;
    if effects != [] {
      g.Add(light.id, "add_effects", [Array(effects)]);
    }
    AppendAssoc(old(g.stmts), Setters(light.id, light.options, LightSetters), emitted);
    AppendAssoc(old(g.stmts), Setters(light.id, light.options, LightSetters) + emitted, AddEffects(light.id, effects));
    return true;
  }

  /**
   * Declares the light's state variable and its MQTT component; the light's
   * configuration itself runs later, as a job of its own.
   */
  method SetupLight(g: Generator, light: LightConfig, lightObj: Expr, mqttObj: Expr) returns (lightVar: Expr, mqttVar: Expr)
    requires g.Valid()
    modifies g
    ensures g.Valid()
    ensures g.stmts == old(g.stmts) + [Declare(light.id, Plain("LightState"), lightObj),
                                       Declare(light.mqttId, Plain("MQTTJSONLightComponent"), mqttObj)]
    ensures lightVar == Ref(light.id) && mqttVar == Ref(light.mqttId)
    ensures light.id in g.vars && light.mqttId in g.vars
  {
    lightVar := g.Pvariable(light.id, Plain("LightState"), lightObj);
    mqttVar := g.Pvariable(light.mqttId, Plain("MQTTJSONLightComponent"), mqttObj);
  }

  /** The light's own setters and `add_effects` are methods no effect calls. */
  lemma LightNamesForeign()
    ensures ForeignToEffects("add_effects")
    ensures forall j :: 0 <= j < |LightSetters| ==> ForeignToEffects(LightSetters[j].name)
  {
  }

  /** The effects together never call a method foreign to effects. */
  lemma EffectsNeverCall(effects: seq<Effect>, compiled: set<string>, name: string)
    requires AllBuildable(effects) && ForeignToEffects(name)
    ensures Calls(EffectsProgram(effects, compiled).emitted, name) == 0
  {
    var outcomes := Outcomes(effects, compiled);
    forall i | 0 <= i < |outcomes|
      ensures Calls(outcomes[i].emitted, name) == 0
    {
      EffectNeverCalls(effects[i], compiled, name);
    }
    SequenceNeverCalls(outcomes, name);
  }

  /**
   * The effects complete exactly when each of them does, and then yield one
   * expression per effect, in configuration order.
   */
  lemma EffectsCompleteIffEach(effects: seq<Effect>, compiled: set<string>)
    requires AllBuildable(effects)
    ensures EffectsProgram(effects, compiled).Completed?
        <==> forall i :: 0 <= i < |effects| ==> EffectProgram(effects[i], compiled).Completed?
    ensures EffectsProgram(effects, compiled).Completed? ==>
      && |EffectsProgram(effects, compiled).value| == |effects|
      && forall i :: 0 <= i < |effects| ==>
           EffectsProgram(effects, compiled).value[i] == EffectProgram(effects[i], compiled).value
  {
    SequenceCompleteIffEach(Outcomes(effects, compiled));
  }

  /** More compiled lambdas never withdraw or reorder what the effects emitted. */
  lemma EffectsMonotone(effects: seq<Effect>, before: set<string>, after: set<string>)
    requires AllBuildable(effects) && before <= after
    ensures Extends(EffectsProgram(effects, before), EffectsProgram(effects, after))
  {
    forall i | 0 <= i < |effects|
      ensures Extends(Outcomes(effects, before)[i], Outcomes(effects, after)[i])
    {
      EffectMonotone(effects[i], before, after);
    }
    SequenceMonotone(Outcomes(effects, before), Outcomes(effects, after));
  }

  /**
   * Resuming the light's configuration after more lambdas compiled continues
   * what it emitted so far: a suspended run's statements are a prefix of the
   * resumed run's.
   */
  lemma SetupMonotone(light: LightConfig, before: set<string>, after: set<string>)
    requires AllBuildable(light.effects) && before <= after
    ensures Extends(SetupProgram(light, before), SetupProgram(light, after))
  {
    EffectsMonotone(light.effects, before, after);
  }

  /**
   * Once configured, the light receives `add_effects` once when it has
   * effects and not at all when it has none.
   */
  lemma {:induction false} AddEffectsIffEffects(light: LightConfig, compiled: set<string>)
    requires AllBuildable(light.effects)
    requires SetupProgram(light, compiled).Completed?
    ensures Calls(SetupProgram(light, compiled).emitted, "add_effects") == if light.effects == [] then 0 else 1
  {
    var options := Setters(light.id, light.options, LightSetters);
    var effects := EffectsProgram(light.effects, compiled);
    var add := AddEffects(light.id, effects.value);
    LightNamesForeign();
    SetterNotCalled(light.id, light.options, LightSetters, "add_effects");
    EffectsNeverCall(light.effects, compiled, "add_effects");
    EffectsCompleteIffEach(light.effects, compiled);
    CallsAppend(options, effects.emitted, "add_effects");
    CallsAppend(options + effects.emitted, add, "add_effects");
    if add != [] {
      CallsSingle(add[0], "add_effects");
      assert add == [add[0]];
    }
  }

  /**
   * Each of the light's own options produces exactly one call of its setter
   * when the configuration gives it and none otherwise, whether or not the
   * effects have finished building.
   */
  lemma {:induction false} LightOptionSetters(light: LightConfig, compiled: set<string>, j: nat)
    requires AllBuildable(light.effects) && j < |LightSetters|
    ensures Calls(SetupProgram(light, compiled).emitted, LightSetters[j].name)
         == if LightSetters[j].key in light.options then 1 else 0
  {
    var name := LightSetters[j].name;
    var options := Setters(light.id, light.options, LightSetters);
    var effects := EffectsProgram(light.effects, compiled);
    LightNamesForeign();
    SetterCount(light.id, light.options, LightSetters, j);
    EffectsNeverCall(light.effects, compiled, name);
    CallsAppend(options, effects.emitted, name);
    if effects.Completed? {
      var add := AddEffects(light.id, effects.value);
      CallsAppend(options + effects.emitted, add, name);
      if add != [] {
        assert name != "add_effects";
        CallsSingle(add[0], name);
        assert add == [add[0]];
      }
    }
  }

  /**
   * A configured light with effects ends with its `add_effects` call, whose
   * array holds each effect's expression in configuration order.
   */
  lemma AddEffectsLast(light: LightConfig, compiled: set<string>)
    requires AllBuildable(light.effects) && light.effects != []
    requires SetupProgram(light, compiled).Completed?
    ensures var emitted := SetupProgram(light, compiled).emitted;
      && |emitted| >= 1
      && emitted[|emitted| - 1].Invoke?
      && emitted[|emitted| - 1].target == light.id
      && emitted[|emitted| - 1].name == "add_effects"
      && |emitted[|emitted| - 1].args| == 1
      && emitted[|emitted| - 1].args[0].Array?
      && |emitted[|emitted| - 1].args[0].items| == |light.effects|
      && forall i :: 0 <= i < |light.effects| ==>
           && EffectProgram(light.effects[i], compiled).Completed?
           && emitted[|emitted| - 1].args[0].items[i] == EffectProgram(light.effects[i], compiled).value
  {
    EffectsCompleteIffEach(light.effects, compiled);
  }
}
