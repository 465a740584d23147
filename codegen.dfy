/**
 * The code generator's state as the light component uses it: an append-only
 * list of emitted statements and the registry of declared variables, plus the
 * statement shapes the builders emit.
 */
module Codegen {
  import opened Wrappers
  import opened EffectSchema

  /** The C++ type of a declared variable, possibly instantiated with the calling context's argument type. */
  datatype TypeName = Plain(cls: string) | Templated(cls: string, arg: string)

  /** Expressions that appear in emitted statements. */
  datatype Expr =
    | Lit(value: Value)                                  // a configuration value
    | Ref(id: string)                                    // the variable declared under `id`
    | New(cls: string, args: seq<Expr>)                  // `Cls.new(args)`
    | Construct(cls: string, args: seq<Expr>)            // `Cls(args)`
    | MethodCall(receiver: Expr, name: string, args: seq<Expr>)
    | TemplateArgs(arg: string)
    | Struct(cls: string, fields: seq<(string, Expr)>)   // a struct initializer
    | Array(items: seq<Expr>)                            // an array initializer
    | CompiledLambda(source: string, params: seq<(string, string)>, returnType: Option<string>)

  /** One emitted statement: a variable declaration, or a call on a declared variable. */
  datatype Stmt =
    | Declare(id: string, typ: TypeName, rhs: Expr)
    | Invoke(target: string, name: string, args: seq<Expr>)

  /** What a suspended builder waits for: an undeclared variable, or an unfinished lambda compilation. */
  datatype Dep = Variable(id: string) | Compiling(source: string)

  /**
   * How far a builder gets against the current state: it either waits on a
   * dependency after emitting some statements, or completes with a value.
   */
  datatype Outcome<T> = Suspended(emitted: seq<Stmt>, on: Dep) | Completed(emitted: seq<Stmt>, value: T)

  /**
   * `later` is what the builder does once more is resolved than when it
   * produced `earlier`: nothing emitted is withdrawn or reordered, and a
   * completed builder does not change its result.
   */
  ghost predicate Extends<T>(earlier: Outcome<T>, later: Outcome<T>) {
    earlier.emitted <= later.emitted && (earlier.Completed? ==> later == earlier)
  }

  /**
   * Running builders one after the other: stops at the first one that waits,
   * after what the builders before it emitted; otherwise collects their values
   * in order.
   */
  function Sequence<T>(outcomes: seq<Outcome<T>>): Outcome<seq<T>>
    decreases |outcomes|
  {
    if outcomes == [] then Completed([], [])
    else
      var n := |outcomes| - 1;
      match Sequence(outcomes[..n])
      case Suspended(emitted, on) => Suspended(emitted, on)
      case Completed(emitted, values) =>
        match outcomes[n]
        case Suspended(more, on) => Suspended(emitted + more, on)
        case Completed(more, v) => Completed(emitted + more, values + [v])
  }

  /** Once the builders before position `i` wait on something, the whole run waits on it. */
  lemma {:induction false} SuspensionSticks<T>(outcomes: seq<Outcome<T>>, i: nat)
    requires i <= |outcomes| && Sequence(outcomes[..i]).Suspended?
    ensures Sequence(outcomes) == Sequence(outcomes[..i])
    decreases |outcomes| - i
  {
    if i < |outcomes| {
      assert outcomes[..i + 1][..i] == outcomes[..i];
      SuspensionSticks(outcomes, i + 1);
    } else {
      assert outcomes[..i] == outcomes;
    }
  }

  /** Running one more builder after a prefix that completed. */
  lemma SequenceSnoc<T>(outcomes: seq<Outcome<T>>, i: nat)
    requires i < |outcomes| && Sequence(outcomes[..i]).Completed?
    ensures var prefix := Sequence(outcomes[..i]);
      Sequence(outcomes[..i + 1])
        == if outcomes[i].Suspended? then Suspended(prefix.emitted + outcomes[i].emitted, outcomes[i].on)
           else Completed(prefix.emitted + outcomes[i].emitted, prefix.value + [outcomes[i].value])
  {
    assert outcomes[..i + 1][..i] == outcomes[..i];
  }

  /** The run completes exactly when every builder does, and then yields their values in order. */
  lemma {:induction false} SequenceCompleteIffEach<T>(outcomes: seq<Outcome<T>>)
    ensures Sequence(outcomes).Completed? <==> forall i :: 0 <= i < |outcomes| ==> outcomes[i].Completed?
    ensures Sequence(outcomes).Completed? ==>
      && |Sequence(outcomes).value| == |outcomes|
      && forall i :: 0 <= i < |outcomes| ==> Sequence(outcomes).value[i] == outcomes[i].value
    decreases |outcomes|
  {
    if outcomes != [] {
      var n := |outcomes| - 1;
      SequenceCompleteIffEach(outcomes[..n]);
      forall i | 0 <= i < n
        ensures outcomes[..n][i] == outcomes[i]
      {
      }
    }
  }

  /** When each builder's later outcome extends its earlier one, so does the run's. */
  lemma {:induction false} SequenceMonotone<T>(earlier: seq<Outcome<T>>, later: seq<Outcome<T>>)
    requires |earlier| == |later|
    requires forall i :: 0 <= i < |earlier| ==> Extends(earlier[i], later[i])
    ensures Extends(Sequence(earlier), Sequence(later))
    decreases |earlier|
  {
    if earlier != [] {
      var n := |earlier| - 1;
      SequenceMonotone(earlier[..n], later[..n]);
    }
  }

  /** The registry the declarations among `stmts` produce: the last declaration of an id wins. */
  function Bindings(stmts: seq<Stmt>): map<string, TypeName>
    decreases |stmts|
  {
    if stmts == [] then map[]
    else
      var n := |stmts| - 1;
      match stmts[n]
      case Declare(id, typ, _) => Bindings(stmts[..n])[id := typ]
      case Invoke(_, _, _) => Bindings(stmts[..n])
  }

  predicate Declares(stmts: seq<Stmt>, id: string) {
    exists j :: 0 <= j < |stmts| && stmts[j].Declare? && stmts[j].id == id
  }

  /** A variable is bound exactly when a declaration statement for it has been emitted. */
  lemma {:induction false} BoundIffDeclared(stmts: seq<Stmt>, id: string)
    ensures id in Bindings(stmts) <==> Declares(stmts, id)
  {
    if stmts != [] {
      var n := |stmts| - 1;
      BoundIffDeclared(stmts[..n], id);
      if Declares(stmts[..n], id) {
        var j :| 0 <= j < n && stmts[..n][j].Declare? && stmts[..n][j].id == id;
        assert stmts[j] == stmts[..n][j];
      }
      if Declares(stmts, id) && !(stmts[n].Declare? && stmts[n].id == id) {
        var j :| 0 <= j < |stmts| && stmts[j].Declare? && stmts[j].id == id;
        assert j < n && stmts[..n][j] == stmts[j];
      }
    }
  }

  /**
   * The statement sink and the variable registry. The registry holds exactly
   * the variables whose declaration is among the emitted statements.
   */
  class Generator {
    var stmts: seq<Stmt>
    var vars: map<string, TypeName>

    ghost predicate Valid()
      reads this
    {
      vars == Bindings(stmts)
    }

    constructor ()
      ensures Valid() && stmts == [] && vars == map[]
    {
      stmts := [];
      vars := map[];
    }

    /** Emits `target.name(args)`. */
    method Add(target: string, name: string, args: seq<Expr>)
      requires Valid()
      modifies this
      ensures Valid()
      ensures stmts == old(stmts) + [Invoke(target, name, args)] && vars == old(vars)
    {
      assert (stmts + [Invoke(target, name, args)])[..|stmts|] == stmts;
      stmts := stmts + [Invoke(target, name, args)];
    }

    /** Declares `id` as a variable of type `typ` initialised with `rhs`, and returns a reference to it. */
    method Pvariable(id: string, typ: TypeName, rhs: Expr) returns (v: Expr)
      requires Valid()
      modifies this
      ensures Valid()
      ensures stmts == old(stmts) + [Declare(id, typ, rhs)] && vars == old(vars)[id := typ]
      ensures v == Ref(id)
    {
      assert (stmts + [Declare(id, typ, rhs)])[..|stmts|] == stmts;
      stmts := stmts + [Declare(id, typ, rhs)];
      vars := vars[id := typ];
      v := Ref(id);
    }

    /** The variable declared under `id`, or None while nothing declared it (the caller then suspends). */
    method GetVariable(id: string) returns (v: Option<Expr>)
      requires Valid()
      ensures v.Some? <==> id in vars
      ensures v.Some? <==> Declares(stmts, id)
      ensures v.Some? ==> v.value == Ref(id)
    {
      BoundIffDeclared(stmts, id);
      v := if id in vars then Some(Ref(id)) else None;
    }
  }

  /** A setter a builder emits when its configuration holds `key`. */
  datatype Setter = Setter(key: string, name: string)

  function SetterCall(target: string, conf: Conf, s: Setter): Stmt
    requires s.key in conf
  {
    Invoke(target, s.name, [Lit(conf[s.key])])
  }

  /** The statements one table entry contributes: its setter call when its key is present. */
  function Step(target: string, conf: Conf, s: Setter): seq<Stmt> {
    if s.key in conf then [SetterCall(target, conf, s)] else []
  }

  /** The positions in `table` whose key the configuration holds, in table order. */
  function Present(conf: Conf, table: seq<Setter>): (p: seq<nat>)
    ensures forall k :: 0 <= k < |p| ==> p[k] < |table| && table[p[k]].key in conf
    ensures forall k, l :: 0 <= k < l < |p| ==> p[k] < p[l]
    ensures forall j :: 0 <= j < |table| && table[j].key in conf ==> j in p
    decreases |table|
  {
    if table == [] then []
    else
      var n := |table| - 1;
      Present(conf, table[..n]) + (if table[n].key in conf then [n] else [])
  }

  /** The setters of `table` a builder emits on `target`: one per present key, in table order. */
  function Setters(target: string, conf: Conf, table: seq<Setter>): seq<Stmt>
    decreases |table|
  {
    if table == [] then []
    else
      var n := |table| - 1;
      Setters(target, conf, table[..n]) + Step(target, conf, table[n])
  }

  /** The k-th emitted setter is the one for the k-th present key of the table. */
  lemma {:induction false} SettersInOrder(target: string, conf: Conf, table: seq<Setter>)
    ensures |Setters(target, conf, table)| == |Present(conf, table)|
    ensures forall k :: 0 <= k < |Present(conf, table)| ==>
              Setters(target, conf, table)[k] == SetterCall(target, conf, table[Present(conf, table)[k]])
    decreases |table|
  {
    if table != [] {
      var n := |table| - 1;
      SettersInOrder(target, conf, table[..n]);
      var p := Present(conf, table[..n]);
      forall k | 0 <= k < |p|
        ensures table[..n][p[k]] == table[p[k]]
      {
      }
    }
  }

  /** `if key in config: add(target.setter(config[key]))`. */
  method SetIfPresent(g: Generator, target: string, conf: Conf, s: Setter)
    requires g.Valid()
    modifies g
    ensures g.Valid()
    ensures g.stmts == old(g.stmts) + Step(target, conf, s)
  {
    if s.key in conf {
      g.Add(target, s.name, [Lit(conf[s.key])]);
    }
  }

  /**
   * Emits, entry by entry in table order, the setter of every key the
   * configuration holds: the run of `if key in config: add(...)` blocks a
   * builder makes.
   */
  method SetAll(g: Generator, target: string, conf: Conf, table: seq<Setter>)
    requires g.Valid()
    modifies g
    ensures g.Valid()
    ensures g.stmts == old(g.stmts) + Setters(target, conf, table)
  {
    for i := 0 to |table|
      invariant g.Valid()
      invariant g.stmts == old(g.stmts) + Setters(target, conf, table[..i])
    {
      assert table[..i + 1][..i] == table[..i];
      SetIfPresent(g, target, conf, table[i]);
    }
    assert table[..|table|] == table;
  }

  lemma AppendAssoc(a: seq<Stmt>, b: seq<Stmt>, c: seq<Stmt>)
    ensures a + b + c == a + (b + c)
  {
  }

  /** How many calls of the method `name` are among `stmts`. */
  function Calls(stmts: seq<Stmt>, name: string): nat
    decreases |stmts|
  {
    if stmts == [] then 0
    else
      var n := |stmts| - 1;
      Calls(stmts[..n], name) + (if stmts[n].Invoke? && stmts[n].name == name then 1 else 0)
  }

  lemma CallsSingle(s: Stmt, name: string)
    ensures Calls([s], name) == if s.Invoke? && s.name == name then 1 else 0
  {
    assert [s][..0] == [];
  }

  lemma {:induction false} CallsAppend(a: seq<Stmt>, b: seq<Stmt>, name: string)
    ensures Calls(a + b, name) == Calls(a, name) + Calls(b, name)
    decreases |b|
  {
    if b != [] {
      var n := |b| - 1;
      assert (a + b)[..|a| + n] == a + b[..n];
      CallsAppend(a, b[..n], name);
    } else {
      assert a + b == a;
    }
  }

  predicate DistinctSetters(table: seq<Setter>) {
    forall i, j :: 0 <= i < j < |table| ==> table[i].name != table[j].name
  }

  /** How many calls of `name` one table entry contributes. */
  lemma CallsStep(target: string, conf: Conf, s: Setter, name: string)
    ensures Calls(Step(target, conf, s), name) == if s.key in conf && s.name == name then 1 else 0
  {
    if s.key in conf {
      assert Step(target, conf, s)[..0] == [];
    }
  }

  /** Setters over a non-empty table split into the prefix's setters and the last entry's. */
  lemma SettersSplit(target: string, conf: Conf, table: seq<Setter>)
    requires table != []
    ensures Setters(target, conf, table)
         == Setters(target, conf, table[..|table| - 1]) + Step(target, conf, table[|table| - 1])
  {
  }

  /**
   * With distinct setter names, a key's setter is called once when the key is
   * present and not at all when it is absent.
   */
  lemma {:induction false} SetterCount(target: string, conf: Conf, table: seq<Setter>, j: nat)
    requires DistinctSetters(table) && j < |table|
    ensures Calls(Setters(target, conf, table), table[j].name) == if table[j].key in conf then 1 else 0
    decreases |table|
  {
    var n := |table| - 1;
    var name := table[j].name;
    SettersSplit(target, conf, table);
    CallsAppend(Setters(target, conf, table[..n]), Step(target, conf, table[n]), name);
    CallsStep(target, conf, table[n], name);
    var front := table[..n];
    DistinctFront(table, front);
    if j < n {
      assert front[j] == table[j];
      SetterCount(target, conf, front, j);
    } else {
      SetterNotCalled(target, conf, front, name);
    }
  }

  /** Dropping the last entry keeps the names distinct, and none of the rest names the last entry's setter. */
  lemma DistinctFront(table: seq<Setter>, front: seq<Setter>)
    requires DistinctSetters(table) && table != [] && front == table[..|table| - 1]
    ensures DistinctSetters(front)
    ensures forall i :: 0 <= i < |front| ==> front[i].name != table[|table| - 1].name
  {
  }

  /** A method that no entry of the table names is never called by its setters. */
  lemma {:induction false} SetterNotCalled(target: string, conf: Conf, table: seq<Setter>, name: string)
    requires forall i :: 0 <= i < |table| ==> table[i].name != name
    ensures Calls(Setters(target, conf, table), name) == 0
    decreases |table|
  {
    if table != [] {
      var n := |table| - 1;
      SettersSplit(target, conf, table);
      CallsAppend(Setters(target, conf, table[..n]), Step(target, conf, table[n]), name);
      CallsStep(target, conf, table[n], name);
      SetterNotCalled(target, conf, table[..n], name);
    }
  }

  /** How many entries of `table` name the method `name` and have their key present. */
  function Matching(conf: Conf, table: seq<Setter>, name: string): nat
    decreases |table|
  {
    if table == [] then 0
    else
      var n := |table| - 1;
      Matching(conf, table[..n], name) + (if table[n].name == name && table[n].key in conf then 1 else 0)
  }

  /** The setters call a method once for each present key whose entry names it. */
  lemma {:induction false} SetterCalls(target: string, conf: Conf, table: seq<Setter>, name: string)
    ensures Calls(Setters(target, conf, table), name) == Matching(conf, table, name)
    decreases |table|
  {
    if table != [] {
      var n := |table| - 1;
      SettersSplit(target, conf, table);
      CallsAppend(Setters(target, conf, table[..n]), Step(target, conf, table[n]), name);
      CallsStep(target, conf, table[n], name);
      SetterCalls(target, conf, table[..n], name);
    }
  }

  /** Whether one entry is named `name` and has its key present, as a count. */
  function Hit(conf: Conf, s: Setter, name: string): nat {
    if s.name == name && s.key in conf then 1 else 0
  }

  /** Matching over a four-entry table, entry by entry. */
  lemma MatchingOfFour(conf: Conf, table: seq<Setter>, name: string)
    requires |table| == 4
    ensures Matching(conf, table, name)
         == Hit(conf, table[0], name) + Hit(conf, table[1], name) + Hit(conf, table[2], name) + Hit(conf, table[3], name)
  {
    assert table[..1][..0] == [];
    assert Matching(conf, table[..1], name) == Hit(conf, table[0], name);
    assert table[..2][..1] == table[..1];
    assert Matching(conf, table[..2], name) == Matching(conf, table[..1], name) + Hit(conf, table[1], name);
    assert table[..3][..2] == table[..2];
    assert Matching(conf, table[..3], name) == Matching(conf, table[..2], name) + Hit(conf, table[2], name);
    assert table[..3] == table[..|table| - 1];
  }

  /** A run whose every builder never calls `name` never calls it. */
  lemma {:induction false} SequenceNeverCalls<T>(outcomes: seq<Outcome<T>>, name: string)
    requires forall i :: 0 <= i < |outcomes| ==> Calls(outcomes[i].emitted, name) == 0
    ensures Calls(Sequence(outcomes).emitted, name) == 0
    decreases |outcomes|
  {
    if outcomes != [] {
      var n := |outcomes| - 1;
      SequenceNeverCalls(outcomes[..n], name);
      if Sequence(outcomes[..n]).Completed? {
        CallsAppend(Sequence(outcomes[..n]).emitted, outcomes[n].emitted, name);
      }
    }
  }

  /** In a completed run where only builder `j` may call `name`, the run calls it as often as that builder. */
  lemma {:induction false} SequenceCallsOne<T>(outcomes: seq<Outcome<T>>, j: nat, name: string)
    requires j < |outcomes| && Sequence(outcomes).Completed?
    requires forall i :: 0 <= i < |outcomes| && i != j ==> Calls(outcomes[i].emitted, name) == 0
    ensures Calls(Sequence(outcomes).emitted, name) == Calls(outcomes[j].emitted, name)
    decreases |outcomes|
  {
    var n := |outcomes| - 1;
    SequenceCompleteIffEach(outcomes);
    SequenceCompleteIffEach(outcomes[..n]);
    assert forall i :: 0 <= i < n ==> outcomes[..n][i] == outcomes[i];
    CallsAppend(Sequence(outcomes[..n]).emitted, outcomes[n].emitted, name);
    if j < n {
      SequenceCallsOne(outcomes[..n], j, name);
    } else {
      SequenceNeverCalls(outcomes[..n], name);
    }
  }

  /** Every statement is a call on the variable `target`. */
  predicate CallsOn(stmts: seq<Stmt>, target: string) {
    forall j :: 0 <= j < |stmts| ==> stmts[j].Invoke? && stmts[j].target == target
  }

  /** A run whose builders only call methods on `target` only calls methods on `target`. */
  lemma {:induction false} SequenceCallsOn<T>(outcomes: seq<Outcome<T>>, target: string)
    requires forall i :: 0 <= i < |outcomes| ==> CallsOn(outcomes[i].emitted, target)
    ensures CallsOn(Sequence(outcomes).emitted, target)
    decreases |outcomes|
  {
    if outcomes != [] {
      var n := |outcomes| - 1;
      SequenceCallsOn(outcomes[..n], target);
    }
  }
}
