/**
 * The three light actions, `light.toggle`, `light.turn_off` and
 * `light.turn_on`: their configuration schemas, and the code that declares
 * an action on an already declared light and sets each templatable field
 * the configuration gives.
 */
module Actions {
  import opened Wrappers
  import opened EffectSchema
  import opened Codegen

  datatype ActionKind = Toggle | TurnOff | TurnOn

  /** A templatable field: its key, its setter, and the C++ type its value has. */
  datatype TemplField = TemplField(key: string, setter: string, outType: string)

  /** The registered name of each action. */
  function ActionName(k: ActionKind): string {
    match k
    case Toggle => "light.toggle"
    case TurnOff => "light.turn_off"
    case TurnOn => "light.turn_on"
  }

  function ActionClass(k: ActionKind): string {
    match k
    case Toggle => "ToggleAction"
    case TurnOff => "TurnOffAction"
    case TurnOn => "TurnOnAction"
  }

  /** The light's factory method for the action. */
  function MakeMethod(k: ActionKind): string {
    match k
    case Toggle => "make_toggle_action"
    case TurnOff => "make_turn_off_action"
    case TurnOn => "make_turn_on_action"
  }

  /** The templatable fields of each action, in the order the builder tests them. */
  function Fields(k: ActionKind): seq<TemplField> {
    match k
    case Toggle => [TemplField("transition_length", "set_transition_length", "uint32_t")]
    case TurnOff => [TemplField("transition_length", "set_transition_length", "uint32_t")]
    case TurnOn => [
      TemplField("transition_length", "set_transition_length", "uint32_t"),
      TemplField("flash_length", "set_flash_length", "uint32_t"),
      TemplField("brightness", "set_brightness", "float"),
      TemplField("red", "set_red", "float"),
      TemplField("green", "set_green", "float"),
      TemplField("blue", "set_blue", "float"),
      TemplField("white", "set_white", "float"),
      TemplField("color_temperature", "set_color_temperature", "float"),
      TemplField("effect", "set_effect", "std::string")]
  }

  predicate IsField(k: ActionKind, key: string) {
    exists j :: 0 <= j < |Fields(k)| && Fields(k)[j].key == key
  }

  /**
   * A configuration the action's schema accepts, exclusivity aside: the id of
   * a light, and otherwise only the action's fields, each a literal or a lambda.
   */
  predicate WellFormed(k: ActionKind, conf: Conf) {
    && "id" in conf && conf["id"].Text?
    && forall key :: key in conf && key != "id" ==> IsField(k, key) && !conf[key].Records?
  }

  /** Both members of turn-on's exclusive group `transformer` are given. */
  predicate BothTransformers(conf: Conf) {
    "transition_length" in conf && "flash_length" in conf
  }

  /** Validates an action configuration. */
  function ValidateAction(k: ActionKind, conf: Conf): (r: Result<Conf, Error>)
    ensures r.Ok? <==> WellFormed(k, conf) && !(k == TurnOn && BothTransformers(conf))
    ensures r.Ok? ==> r.value == conf
    ensures k == TurnOn && BothTransformers(conf) ==> r == Err(Exclusive("transformer"))
  {
    if k == TurnOn && BothTransformers(conf) then Err(Exclusive("transformer"))
    else if !WellFormed(k, conf) then Err(SchemaInvalid(ActionName(k)))
    else Ok(conf)
  }

  /**
   * The value of a templatable field: a literal as it is, a lambda as the
   * compiled lambda taking the action's argument `x` and returning the
   * field's type, once its compilation has finished.
   */
  function TemplateValue(v: Value, argType: string, outType: string, compiled: set<string>): Outcome<Expr> {
    if !v.Code? then Completed([], Lit(v))
    else if v.source !in compiled then Suspended([], Compiling(v.source))
    else Completed([], CompiledLambda(v.source, [(argType, "x")], Some(outType)))
  }

  /** What one field contributes: nothing when absent, otherwise its setter call once its value is ready. */
  function FieldOutcome(actionId: string, conf: Conf, f: TemplField, argType: string, compiled: set<string>): Outcome<()> {
    if f.key !in conf then Completed([], ())
    else match TemplateValue(conf[f.key], argType, f.outType, compiled)
      case Suspended(_, on) => Suspended([], on)
      case Completed(_, v) => Completed([Invoke(actionId, f.setter, [v])], ())
  }

  /** What each field contributes, in field order; an elementwise map, its ensures exposed for the prover. */
  function FieldOutcomes(actionId: string, conf: Conf, fields: seq<TemplField>, argType: string, compiled: set<string>)
    : (o: seq<Outcome<()>>)
    ensures |o| == |fields|
    ensures forall j :: 0 <= j < |fields| ==> o[j] == FieldOutcome(actionId, conf, fields[j], argType, compiled)
  {
    seq(|fields|, j requires 0 <= j < |fields| => FieldOutcome(actionId, conf, fields[j], argType, compiled))
  }

  /** The fields as a setter table: each field's key and the setter it calls; an elementwise map, its ensures exposed for the prover. */
  function FieldTable(fields: seq<TemplField>): (t: seq<Setter>)
    ensures |t| == |fields|
    ensures forall j :: 0 <= j < |fields| ==> t[j] == Setter(fields[j].key, fields[j].setter)
  {
    seq(|fields|, j requires 0 <= j < |fields| => Setter(fields[j].key, fields[j].setter))
  }

  /** The setter call of a given field whose value is ready. */
  function FieldCall(actionId: string, conf: Conf, f: TemplField, argType: string, compiled: set<string>): Stmt
    requires f.key in conf && TemplateValue(conf[f.key], argType, f.outType, compiled).Completed?
  {
    Invoke(actionId, f.setter, [TemplateValue(conf[f.key], argType, f.outType, compiled).value])
  }

  /** The action's declaration: a templated action made by the light it acts on. */
  function ActionDeclaration(k: ActionKind, lightId: string, actionId: string, argType: string): Stmt {
    Declare(actionId, Templated(ActionClass(k), argType), MethodCall(Ref(lightId), MakeMethod(k), [TemplateArgs(argType)]))
  }

  /**
   * What building action `k` produces once the variables in `declared` exist
   * and the lambdas in `compiled` have compiled: nothing until the light is
   * declared; then the action's declaration and its fields' setters, in
   * order, stopping at a field whose lambda is still compiling.
   */
  function ActionProgram(k: ActionKind, conf: Conf, actionId: string, argType: string,
                         declared: set<string>, compiled: set<string>): Outcome<Expr>
    requires WellFormed(k, conf)
  {
    var lightId := conf["id"].text;
    if lightId !in declared then Suspended([], Variable(lightId))
    else
      var decl := ActionDeclaration(k, lightId, actionId, argType);
      match Sequence(FieldOutcomes(actionId, conf, Fields(k), argType, compiled))
      case Suspended(emitted, on) => Suspended([decl] + emitted, on)
      case Completed(emitted, _) => Completed([decl] + emitted, Ref(actionId))
  }

  /** Resolves one field's value and emits its setter; returns false while its lambda is still compiling. */
  method SetTemplatable(g: Generator, actionId: string, conf: Conf, f: TemplField, argType: string, compiled: set<string>)
    returns (done: bool)
    requires g.Valid()
    modifies g
    ensures g.Valid()
    ensures g.stmts == old(g.stmts) + FieldOutcome(actionId, conf, f, argType, compiled).emitted
    ensures done <==> FieldOutcome(actionId, conf, f, argType, compiled).Completed?
  {
    if f.key !in conf {
      return true;
    }
    var v := conf[f.key];
    var value: Expr;
    if v.Code? {
      if v.source !in compiled {
        return false;
      }
      value := CompiledLambda(v.source, [(argType, "x")], Some(f.outType));
    } else {
      value := Lit(v);
    }
    g.Add(actionId, f.setter, [value]);
    return true;
  }

  /** Sets the action's fields in table order; returns false at the first field still waiting. */
  method SetFields(g: Generator, actionId: string, conf: Conf, fields: seq<TemplField>, argType: string, compiled: set<string>)
    returns (done: bool)
    requires g.Valid()
    modifies g
    ensures g.Valid()
    ensures g.stmts == old(g.stmts) + Sequence(FieldOutcomes(actionId, conf, fields, argType, compiled)).emitted
    ensures done <==> Sequence(FieldOutcomes(actionId, conf, fields, argType, compiled)).Completed?
  {
    ghost var outcomes := FieldOutcomes(actionId, conf, fields, argType, compiled);
    ghost var emitted := [];
    assert outcomes[..0] == [];
    for i := 0 to |fields|
      invariant g.Valid() && g.stmts == old(g.stmts) + emitted
      invariant Sequence(outcomes[..i]).Completed? && Sequence(outcomes[..i]).emitted == emitted
    {
      ghost var next := outcomes[i];
      var ok := SetTemplatable(g, actionId, conf, fields[i], argType, compiled);
      AppendAssoc(old(g.stmts), emitted, next.emitted);
      SequenceSnoc(outcomes, i);
      emitted := emitted + next.emitted;
      if !ok {
        SuspensionSticks(outcomes, i + 1);
        return false;
      }
    }
    assert outcomes[..|fields|] == outcomes;
    return true;
  }

  /**
   * Builds action `k` on the light its configuration names: returns None
   * while that light is not declared yet or a field's lambda is compiling,
   * and the action's variable once it is fully built.
   */
  method ActionToCode(g: Generator, k: ActionKind, conf: Conf, actionId: string, argType: string, compiled: set<string>)
    returns (action: Option<Expr>)
    requires g.Valid() && WellFormed(k, conf)
    modifies g
    ensures g.Valid()
    ensures g.stmts == old(g.stmts) + ActionProgram(k, conf, actionId, argType, old(g.vars).Keys, compiled).emitted
    ensures action.Some? <==> ActionProgram(k, conf, actionId, argType, old(g.vars).Keys, compiled).Completed?
    ensures action.Some? ==> action.value == ActionProgram(k, conf, actionId, argType, old(g.vars).Keys, compiled).value
  {
    ghost var program := ActionProgram(k, conf, actionId, argType, old(g.vars).Keys, compiled);
    ghost var fields := Sequence(FieldOutcomes(actionId, conf, Fields(k), argType, compiled));
    var templateArg := TemplateArgs(argType);
    var light := g.GetVariable(conf["id"].text);
    if light.None? {
      assert program == Suspended([], Variable(conf["id"].text));
      return None;
    }
    var rhs := MethodCall(light.value, MakeMethod(k), [templateArg]);
    var typ := Templated(ActionClass(k), argType);
    var v := g.Pvariable(actionId, typ, rhs);
    ghost var decl := ActionDeclaration(k, conf["id"].text, actionId, argType);
    assert g.stmts == old(g.stmts) + [decl];
    var done := SetFields(g, actionId, conf, Fields(k), argType, compiled);
    AppendAssoc(old(g.stmts), [decl], fields.emitted);
    assert program.emitted == [decl] + fields.emitted;
    assert program.Completed? <==> fields.Completed?;
    if !done {
      return None;
    }
    assert program.value == Ref(actionId);
    return Some(v);
  }

  /** `light.toggle`. */
  method LightToggleToCode(g: Generator, conf: Conf, actionId: string, argType: string, compiled: set<string>)
    returns (action: Option<Expr>)
    requires g.Valid() && WellFormed(Toggle, conf)
    modifies g
    ensures g.Valid()
    ensures g.stmts == old(g.stmts) + ActionProgram(Toggle, conf, actionId, argType, old(g.vars).Keys, compiled).emitted
    ensures action.Some? <==> ActionProgram(Toggle, conf, actionId, argType, old(g.vars).Keys, compiled).Completed?
    ensures action.Some? ==> action.value == Ref(actionId)
  {
    action := ActionToCode(g, Toggle, conf, actionId, argType, compiled);
  }

  /** `light.turn_off`. */
  method LightTurnOffToCode(g: Generator, conf: Conf, actionId: string, argType: string, compiled: set<string>)
    returns (action: Option<Expr>)
    requires g.Valid() && WellFormed(TurnOff, conf)
    modifies g
    ensures g.Valid()
    ensures g.stmts == old(g.stmts) + ActionProgram(TurnOff, conf, actionId, argType, old(g.vars).Keys, compiled).emitted
    ensures action.Some? <==> ActionProgram(TurnOff, conf, actionId, argType, old(g.vars).Keys, compiled).Completed?
    ensures action.Some? ==> action.value == Ref(actionId)
  {
    action := ActionToCode(g, TurnOff, conf, actionId, argType, compiled);
  }

  /** `light.turn_on`. */
  method LightTurnOnToCode(g: Generator, conf: Conf, actionId: string, argType: string, compiled: set<string>)
    returns (action: Option<Expr>)
    requires g.Valid() && WellFormed(TurnOn, conf)
    modifies g
    ensures g.Valid()
    ensures g.stmts == old(g.stmts) + ActionProgram(TurnOn, conf, actionId, argType, old(g.vars).Keys, compiled).emitted
    ensures action.Some? <==> ActionProgram(TurnOn, conf, actionId, argType, old(g.vars).Keys, compiled).Completed?
    ensures action.Some? ==> action.value == Ref(actionId)
  {
    action := ActionToCode(g, TurnOn, conf, actionId, argType, compiled);
  }

  /** Only turn-on knows `flash_length`; on the other two actions it is rejected. */
  lemma FlashOnlyOnTurnOn(k: ActionKind, conf: Conf)
    requires "flash_length" in conf
    ensures k != TurnOn ==> ValidateAction(k, conf).Err?
    ensures ValidateAction(k, conf).Ok? ==> !("transition_length" in conf)
  {
    if k != TurnOn {
      assert !IsField(k, "flash_length");
    }
  }

  /**
   * Nothing is emitted before the light exists: the builder waits on the
   * light's variable exactly when it is undeclared. Once it is declared, the
   * first statement declares the action from that light and every later one
   * is a setter call on the action.
   */
  lemma {:induction false} ActionAfterLight(k: ActionKind, conf: Conf, actionId: string, argType: string,
                                            declared: set<string>, compiled: set<string>)
    requires WellFormed(k, conf)
    ensures var o := ActionProgram(k, conf, actionId, argType, declared, compiled);
      var lightId := conf["id"].text;
      && (lightId !in declared <==> o == Suspended([], Variable(lightId)))
      && (lightId in declared ==>
            && |o.emitted| >= 1
            && o.emitted[0] == ActionDeclaration(k, lightId, actionId, argType)
            && CallsOn(o.emitted[1..], actionId))
  {
    var outcomes := FieldOutcomes(actionId, conf, Fields(k), argType, compiled);
    forall j | 0 <= j < |outcomes|
      ensures CallsOn(outcomes[j].emitted, actionId)
    {
    }
    SequenceCallsOn(outcomes, actionId);
    var o := ActionProgram(k, conf, actionId, argType, declared, compiled);
    if conf["id"].text in declared {
      assert o.emitted[1..] == Sequence(outcomes).emitted;
    }
  }

  /** No two fields of an action share a setter. */
  lemma FieldSettersDistinct(k: ActionKind)
    ensures forall i, j :: 0 <= i < j < |Fields(k)| ==> Fields(k)[i].setter != Fields(k)[j].setter
  {
  }

  /**
   * A fully built action calls each field's setter exactly once when the
   * configuration gives that field and not at all otherwise.
   */
  lemma {:induction false} FieldSetterIffPresent(k: ActionKind, conf: Conf, actionId: string, argType: string,
                                                 declared: set<string>, compiled: set<string>, j: nat)
    requires WellFormed(k, conf) && j < |Fields(k)|
    requires ActionProgram(k, conf, actionId, argType, declared, compiled).Completed?
    ensures Calls(ActionProgram(k, conf, actionId, argType, declared, compiled).emitted, Fields(k)[j].setter)
         == if Fields(k)[j].key in conf then 1 else 0
  {
    var fields := Fields(k);
    var setter := fields[j].setter;
    var outcomes := FieldOutcomes(actionId, conf, fields, argType, compiled);
    var decl := ActionDeclaration(k, conf["id"].text, actionId, argType);
    FieldSettersDistinct(k);
    forall i | 0 <= i < |outcomes|
      ensures Calls(outcomes[i].emitted, setter) == if i == j && fields[j].key in conf && outcomes[i].Completed? then 1 else 0
    {
      if outcomes[i].emitted != [] {
        CallsSingle(outcomes[i].emitted[0], setter);
        assert outcomes[i].emitted == [outcomes[i].emitted[0]];
      }
    }
    SequenceCompleteIffEach(outcomes);
    SequenceCallsOne(outcomes, j, setter);
    CallsSingle(decl, setter);
    CallsAppend([decl], Sequence(outcomes).emitted, setter);
  }

  /**
   * When every field's value is ready, the fields emit one setter call per
   * given field, in the order of the field list.
   */
  lemma {:induction false} FieldsInOrder(actionId: string, conf: Conf, fields: seq<TemplField>, argType: string,
                                         compiled: set<string>)
    requires Sequence(FieldOutcomes(actionId, conf, fields, argType, compiled)).Completed?
    ensures CallsInOrder(Sequence(FieldOutcomes(actionId, conf, fields, argType, compiled)).emitted,
                         actionId, conf, fields, Present(conf, FieldTable(fields)), argType, compiled)
    decreases |fields|
  {
    if fields != [] {
      var n := |fields| - 1;
      var outcomes := FieldOutcomes(actionId, conf, fields, argType, compiled);
      var front := fields[..n];
      assert FieldOutcomes(actionId, conf, front, argType, compiled) == outcomes[..n];
      if Sequence(outcomes[..n]).Suspended? {
        assert false;
      }
      FieldsInOrder(actionId, conf, front, argType, compiled);
      SequenceSnoc(outcomes, n);
      assert outcomes[..n + 1] == outcomes;
      var table := FieldTable(fields);
      assert table[..n] == FieldTable(front);
      var p := Present(conf, FieldTable(front));
      assert Present(conf, table) == p + (if table[n].key in conf then [n] else []);
      CallsInOrderSnoc(Sequence(outcomes[..n]).emitted, outcomes[n], actionId, conf, fields, p, argType, compiled);
    }
  }

  /** `e` holds, in order, the setter calls of the fields at positions `p`. */
  predicate CallsInOrder(e: seq<Stmt>, actionId: string, conf: Conf, fields: seq<TemplField>, p: seq<nat>,
                         argType: string, compiled: set<string>) {
    && |e| == |p|
    && forall m :: 0 <= m < |p| ==>
         && p[m] < |fields|
         && fields[p[m]].key in conf
         && TemplateValue(conf[fields[p[m]].key], argType, fields[p[m]].outType, compiled).Completed?
         && e[m] == FieldCall(actionId, conf, fields[p[m]], argType, compiled)
  }

  /** Appending the last field's completed outcome to the calls of the fields before it. */
  lemma CallsInOrderSnoc(e: seq<Stmt>, last: Outcome<()>, actionId: string, conf: Conf, fields: seq<TemplField>,
                         p: seq<nat>, argType: string, compiled: set<string>)
    requires fields != []
    requires CallsInOrder(e, actionId, conf, fields[..|fields| - 1], p, argType, compiled)
    requires last == FieldOutcome(actionId, conf, fields[|fields| - 1], argType, compiled) && last.Completed?
    ensures var n := |fields| - 1;
            CallsInOrder(e + last.emitted, actionId, conf, fields,
                         p + (if fields[n].key in conf then [n] else []), argType, compiled)
  {
    var n := |fields| - 1;
    forall m | 0 <= m < |p|
      ensures fields[..n][p[m]] == fields[p[m]]
    {
    }
  }

  /**
   * A fully built action is its declaration followed by one setter call per
   * given field, in the order of the action's field list (for turn-on:
   * transition length, flash length, brightness, red, green, blue, white,
   * colour temperature, effect).
   */
  lemma FieldSettersInOrder(k: ActionKind, conf: Conf, actionId: string, argType: string,
                            declared: set<string>, compiled: set<string>)
    requires WellFormed(k, conf)
    requires ActionProgram(k, conf, actionId, argType, declared, compiled).Completed?
    ensures var o := ActionProgram(k, conf, actionId, argType, declared, compiled);
            && o.emitted != []
            && o.emitted[0] == ActionDeclaration(k, conf["id"].text, actionId, argType)
            && CallsInOrder(o.emitted[1..], actionId, conf, Fields(k), Present(conf, FieldTable(Fields(k))), argType, compiled)
  {
    FieldsInOrder(actionId, conf, Fields(k), argType, compiled);
    var o := ActionProgram(k, conf, actionId, argType, declared, compiled);
    assert o.emitted[1..] == Sequence(FieldOutcomes(actionId, conf, Fields(k), argType, compiled)).emitted;
  }

  /** A field's outcome only grows as more lambdas compile. */
  lemma FieldMonotone(actionId: string, conf: Conf, f: TemplField, argType: string, before: set<string>, after: set<string>)
    requires before <= after
    ensures Extends(FieldOutcome(actionId, conf, f, argType, before), FieldOutcome(actionId, conf, f, argType, after))
  {
  }

  /**
   * Resuming the builder after more variables were declared and more lambdas
   * compiled never withdraws or reorders what it emitted.
   */
  lemma ActionMonotone(k: ActionKind, conf: Conf, actionId: string, argType: string,
                       declared: set<string>, moreDeclared: set<string>, compiled: set<string>, moreCompiled: set<string>)
    requires WellFormed(k, conf) && declared <= moreDeclared && compiled <= moreCompiled
    ensures Extends(ActionProgram(k, conf, actionId, argType, declared, compiled),
                    ActionProgram(k, conf, actionId, argType, moreDeclared, moreCompiled))
  {
    var before := FieldOutcomes(actionId, conf, Fields(k), argType, compiled);
    var after := FieldOutcomes(actionId, conf, Fields(k), argType, moreCompiled);
    forall j | 0 <= j < |before|
      ensures Extends(before[j], after[j])
    {
      FieldMonotone(actionId, conf, Fields(k)[j], argType, compiled, moreCompiled);
    }
    SequenceMonotone(before, after);
  }

  /** An action whose fields are all literals never waits once its light is declared. */
  lemma LiteralFieldsComplete(k: ActionKind, conf: Conf, actionId: string, argType: string,
                              declared: set<string>, compiled: set<string>)
    requires WellFormed(k, conf) && conf["id"].text in declared
    requires forall key :: key in conf ==> !conf[key].Code?
    ensures ActionProgram(k, conf, actionId, argType, declared, compiled).Completed?
  {
    SequenceCompleteIffEach(FieldOutcomes(actionId, conf, Fields(k), argType, compiled));
  }
}
