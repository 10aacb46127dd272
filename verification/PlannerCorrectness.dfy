/** The main theorem about the activation planner: a planned callable does what its body means. */
module PlannerCorrectness {
  import opened Values
  import opened Patterns
  import opened Hir
  import opened StateTable
  import opened Planning
  import opened Simulation
  import opened SimulationSteps
  import opened SimulationProof

  /** The states of a finished plan, in order. */
  function TableOf(p: Plan): Table {
    seq(|p.entries|, i requires 0 <= i < |p.entries| => StateOf(p.entries[i]))
  }

  function StateOf(e: Entry): State {
    if e.Filled? then e.state else State(map[], [], Goto(0))
  }

  /** Arguments as the driver lays them out in a new frame. */
  function ArgLocals(args: seq<Value>): Locals {
    map i: nat | i < |args| :: args[i]
  }

  function Launch(args: seq<Value>): Config {
    Running(0, ArgLocals(args), [[]], [])
  }

  /** What calling the body directly comes to within `fuel` loop iterations. */
  function Meaning(h: Host, parameters: seq<string>, args: seq<Value>, body: Expr, fuel: nat): Option<(Outcome, Trace)>
    requires |parameters| == |args|
  {
    match Eval(h, body, WithValues(map[], parameters, args), [], fuel)
    case Done(Normal(v), tr) => Some((Finished(v), tr))
    case Done(Returned(v), tr) => Some((Finished(v), tr))
    case Done(Threw(ds), tr) => Some((Defected(ds), tr))
    case _ => None
  }

  ghost predicate HaltsWith(h: Host, t: Table, c: Config, o: Outcome, tr: Trace) {
    exists n :: Run(h, t, c, n) == Halted(o, tr)
  }

  ghost predicate Means(h: Host, parameters: seq<string>, args: seq<Value>, body: Expr, o: Outcome, tr: Trace)
    requires |parameters| == |args|
  {
    exists fuel :: Meaning(h, parameters, args, body, fuel) == Some((o, tr))
  }

  ghost predicate Plannable(parameters: seq<string>, body: Expr) {
    Distinct(parameters) && WellFormed(body, NameSet(parameters), [], [])
  }

  /** The planned table, entered at state 0, halts with an outcome after a trace of calls and cleanups exactly when
      direct evaluation of the body has that outcome after that trace. */
  lemma PlannedTableRunsTheBody(h: Host, parameters: seq<string>, args: seq<Value>, body: Expr, o: Outcome, tr: Trace)
    requires Plannable(parameters, body) && |parameters| == |args|
    ensures HaltsWith(h, TableOf(PlanCallable(parameters, body)), Launch(args), o, tr) <==> Means(h, parameters, args, body, o, tr)
  {
    hide Eval, Meaning, Plannable, PlanCallable, TableOf, Launch, Run;
    var t := TableOf(PlanCallable(parameters, body));
    if Means(h, parameters, args, body, o, tr) {
      var fuel :| Meaning(h, parameters, args, body, fuel) == Some((o, tr));
      var n, k := RunToTheEnd(h, parameters, args, body, fuel);
    }
    if HaltsWith(h, t, Launch(args), o, tr) {
      var n :| Run(h, t, Launch(args), n) == Halted(o, tr);
      var m, k := RunToTheEnd(h, parameters, args, body, n + 1);
      if Meaning(h, parameters, args, body, n + 1).None? {
        RunAdds(h, t, Launch(args), n, m - n);
        HaltedStays(h, t, Halted(o, tr), m - n);
      } else {
        HaltIsUnique(h, t, Launch(args), n, m);
      }
    }
  }

  lemma HaltIsUnique(h: Host, t: Table, c: Config, n: nat, m: nat)
    requires Run(h, t, c, n).Halted? && Run(h, t, c, m).Halted?
    ensures Run(h, t, c, n) == Run(h, t, c, m)
  {
    if n <= m {
      RunAdds(h, t, c, n, m - n);
      HaltedStays(h, t, Run(h, t, c, n), m - n);
    } else {
      RunAdds(h, t, c, m, n - m);
      HaltedStays(h, t, Run(h, t, c, m), n - m);
    }
  }

  function StartPlan(parameters: seq<string>): Plan {
    Plan([Reserved(1)], |parameters| + 1)
  }

  function StartCx(parameters: seq<string>): Ctx {
    Ctx(BindAll(map[], parameters, 0), [], [], 1)
  }

  function BodyCode(parameters: seq<string>, body: Expr): Code {
    var terminal := Emit(StartPlan(parameters), StartCx(parameters), 1, [], ReturnSlot(|parameters|));
    CompileExpr(terminal.plan, StartCx(parameters), body, |parameters|, terminal.entry)
  }

  function StartSpot(parameters: seq<string>, args: seq<Value>, body: Expr): Spot
    requires |parameters| == |args|
  {
    Spot(StartCx(parameters), WithValues(map[], parameters, args), |parameters| + 1, iset{|parameters|}, |parameters|, 1, 1,
         Running(BodyCode(parameters, body).entry, ArgLocals(args), [[]], []), [[]])
  }

  lemma CallableIs(parameters: seq<string>, body: Expr)
    ensures PlanCallable(parameters, body) == Fill(BodyCode(parameters, body).plan, StartCx(parameters), 0, 1, Goto(BodyCode(parameters, body).entry))
  {
    hide CompileExpr, BindAll;
  }

  lemma CallableCovered(parameters: seq<string>, body: Expr)
    ensures var t := TableOf(PlanCallable(parameters, body));
            var code := BodyCode(parameters, body);
            && Covers(t, code.plan)
            && |t| >= 2 && t[0] == State(StartCx(parameters).scope, [], Goto(code.entry))
            && t[1] == State(StartCx(parameters).scope, [], ReturnSlot(|parameters|))
  {
    hide CompileExpr;
    var cx := StartCx(parameters);
    var t := TableOf(PlanCallable(parameters, body));
    var code := BodyCode(parameters, body);
    var terminal := Emit(StartPlan(parameters), cx, 1, [], ReturnSlot(|parameters|));
    var plan := PlanCallable(parameters, body);
    CallableIs(parameters, body);
    assert code.plan.entries[0] == terminal.plan.entries[0] == Reserved(1);
    forall i | 0 <= i < |code.plan.entries| && code.plan.entries[i].Filled? ensures i < |t| && t[i] == code.plan.entries[i].state {
      assert plan.entries[i] == code.plan.entries[i];
    }
    Emitted(t, StartPlan(parameters), cx, 1, [], ReturnSlot(|parameters|), code.plan);
  }

  lemma {:induction false} ParametersRead(names: seq<string>, vs: seq<Value>, env: Env)
    requires Distinct(names) && |names| == |vs|
    ensures var r := WithValues(env, names, vs);
            && (forall j | 0 <= j < |names| :: names[j] in r && r[names[j]] == vs[j])
            && r.Keys == env.Keys + NameSet(names)
    decreases |names|
  {
    if |names| > 0 {
      var env1 := env[names[0] := vs[0]];
      ParametersRead(names[1..], vs[1..], env1);
      assert names[0] !in names[1..];
      WithValuesOther(env1, names[1..], vs[1..], names[0]);
      assert NameSet(names) == {names[0]} + NameSet(names[1..]);
      forall j | 0 <= j < |names| ensures names[j] in WithValues(env, names, vs) && WithValues(env, names, vs)[names[j]] == vs[j] {
        if j > 0 { assert names[j] == names[1..][j - 1]; }
      }
    }
  }

  lemma StartEnvReady(parameters: seq<string>, args: seq<Value>)
    requires Distinct(parameters) && |parameters| == |args|
    ensures var env := WithValues(map[], parameters, args);
            && env.Keys == NameSet(parameters)
            && EnvReady(StartCx(parameters), env, |parameters| + 1, iset{|parameters|}, ArgLocals(args))
  {
    var env, cx := WithValues(map[], parameters, args), StartCx(parameters);
    ParametersRead(parameters, args, map[]);
    BindAllLookup(map[], parameters, 0);
    hide BindAll, WithValues, Distinct;
    forall x | x in env ensures x in cx.scope && cx.scope[x] < |parameters| && Read(ArgLocals(args), cx.scope[x]) == env[x] {
      assert x in NameSet(parameters);
      var j :| 0 <= j < |parameters| && parameters[j] == x;
      assert cx.scope[parameters[j]] == 0 + j;
    }
  }

  lemma StartSpotReady(parameters: seq<string>, args: seq<Value>, body: Expr)
    requires Plannable(parameters, body) && |parameters| == |args|
    ensures Ready(StartSpot(parameters, args, body)) && Scoped(body, StartSpot(parameters, args, body))
  {
    hide BodyCode, BindAll, WithValues, WellFormed, EnvReady, ArgLocals;
    StartEnvReady(parameters, args);
    assert Sigs([]) == [] && BlockTargets([]) == [];
  }

  /** Forward: the table runs to the outcome direct evaluation has; without one within `fuel`, it runs on for at least
      that many steps. */
  lemma RunToTheEnd(h: Host, parameters: seq<string>, args: seq<Value>, body: Expr, fuel: nat) returns (n: nat, k: Config)
    requires Plannable(parameters, body) && |parameters| == |args|
    ensures k == Run(h, TableOf(PlanCallable(parameters, body)), Launch(args), n)
    ensures var m := Meaning(h, parameters, args, body, fuel);
            if m.Some? then k == Halted(m.value.0, m.value.1) else k.Running? && n >= fuel
  {
    hide CompileExpr, Eval, Covers, Ready, Run, Scoped, PlanCallable, TableOf, Simulates, BodyCode;
    var t := TableOf(PlanCallable(parameters, body));
    var s := StartSpot(parameters, args, body);
    CallableCovered(parameters, body);
    StartSpotReady(parameters, args, body);
    BodyEntered(t, parameters, args, body);
    var p := Emit(StartPlan(parameters), StartCx(parameters), 1, [], ReturnSlot(|parameters|)).plan;
    LaunchStep(h, t, parameters, args, body);
    var a, ka := SimulateExpr(h, t, p, body, s, fuel);
    RunAdds(h, t, Launch(args), 1, a);
    var r := Eval(h, body, s.env, [], fuel);
    Concluded(h, s, r, fuel, a, ka);
    if r.Done? && r.completion.Normal? {
      JumpStep(h, t, StartCx(parameters).scope, ReturnSlot(|parameters|), ka);
      RunOne(h, t, Launch(args), 1 + a, ka);
      n, k := a + 2, Step(h, t, ka);
      ReturnsHere(h, s, ka, r.completion.value);
    } else {
      n, k := 1 + a, ka;
    }
  }

  lemma LaunchStep(h: Host, t: Table, parameters: seq<string>, args: seq<Value>, body: Expr)
    requires |parameters| == |args| && |t| >= 2
    requires t[0] == State(StartCx(parameters).scope, [], Goto(BodyCode(parameters, body).entry))
    ensures Run(h, t, Launch(args), 1) == StartSpot(parameters, args, body).c
  {
    hide BodyCode;
    var c := Launch(args);
    assert Run(h, t, c, 0) == c;
    RunOne(h, t, c, 0, c);
    JumpStep(h, t, StartCx(parameters).scope, Goto(BodyCode(parameters, body).entry), c);
  }

  lemma BodyEntered(t: Table, parameters: seq<string>, args: seq<Value>, body: Expr)
    requires |parameters| == |args| && Ready(StartSpot(parameters, args, body)) && Covers(t, BodyCode(parameters, body).plan)
    ensures var s := StartSpot(parameters, args, body);
            var p := Emit(StartPlan(parameters), StartCx(parameters), 1, [], ReturnSlot(|parameters|)).plan;
            Enters(t, p, CompileExpr(p, s.cx, body, s.target, s.next), s)
  {
    hide CompileExpr, Covers, Ready;
  }

  /** Outside every loop and block only four things can be the outcome. */
  lemma Concluded(h: Host, s: Spot, r: Result, fuel: nat, steps: nat, k: Config)
    requires Ready(s) && s.cx.loops == [] && s.cx.blocks == [] && s.owed == [[]] && s.d == s.cx.depth == 1
    requires Simulates(h, s, r, fuel, steps, k)
    ensures r.Timeout? ==> k.Running? && steps >= fuel
    ensures r.Done? && r.completion.Normal? ==> Within(s, k) && k.pc == s.next && k.trace == r.trace && Read(k.locals, s.target) == r.completion.value
    ensures r.Done? && !r.completion.Normal? ==> r.completion.Returned? || r.completion.Threw?
    ensures r.Done? && r.completion.Returned? ==> k == Halted(Finished(r.completion.value), r.trace)
    ensures r.Done? && r.completion.Threw? ==> k == Halted(Defected(r.completion.defects), r.trace)
    ensures forall v, tr :: HaltOwed(h, s.owed, Done(Returned(v), tr)) == Halted(Finished(v), tr)
  {
    if r.Done? && r.completion.Normal? { Arrived(h, s, r, fuel, steps, k); }
    forall q: Result ensures UnwindOwed(h, s.owed, 0, q) == q {
      assert s.owed[..0] == [];
    }
  }

  // ----- why no binder may shadow -----

  const SEEN := Call(Arg(Local("x"), NoExprs))
  const REBOUND := Let("x", UNIT, None, Tail(None))
  const SHADOWING := Block(Do(SEEN, REBOUND))

  const SILENT := Host((_, _) => Answered(Undefined), (_, _, _) => Answered(Undefined))

  // What the planned table of SHADOWING is, and the events of its run: the call is handed the empty local.
  const X0 := map["x" := 0]
  const X2 := map["x" := 2]
  const SHADOWING_TABLE := [State(X0, [], Goto(6)), State(X0, [], ReturnSlot(1)), State(X2, [Store(1, Direct(UNIT))], Goto(1)),
                            State(X2, [Store(2, Slot(3))], Goto(2)), State(X0, [Store(3, Direct(UNIT))], Goto(3)),
                            State(X2, [], Transfer(5, 1, 4, 4)), State(X2, [Store(5, Direct(Local("x")))], Goto(5))]
  const UNSEEN := [Event(CallOf([Undefined]), Answered(Undefined))]

  lemma RebindingPlan(p: Plan, cx: Ctx, target: nat, next: nat)
    ensures var n, k, inner := p.nextSlot, |p.entries|, cx.scope["x" := p.nextSlot];
            CompileStmts(p, cx, REBOUND, target, next) ==
            StmtCode(Plan(p.entries + [Filled(State(inner, [Store(target, Direct(UNIT))], Goto(next)), cx.depth),
                                       Filled(State(inner, [Store(n, Slot(n + 1))], Goto(k)), cx.depth),
                                       Filled(State(cx.scope, [Store(n + 1, Direct(UNIT))], Goto(k + 1)), cx.depth)], n + 2),
                     k + 2, inner)
  {
    hide CompileExpr;
    var n, inner := p.nextSlot, cx.(scope := cx.scope["x" := p.nextSlot]);
    PlanOfLet(p, cx, REBOUND, target, next);
    var rest := CompileStmts(Slots(p, 1), inner, Tail(None), target, next);
    assert rest.plan == StoreState(Slots(p, 1), inner, target, Direct(UNIT), next).plan && rest.entry == |p.entries|;
    var init := Emit(Slots(rest.plan, 1), inner, cx.depth, LetActions(None, n, n + 1), Goto(rest.entry));
    assert LetActions(None, n, n + 1) == [Store(n, Slot(n + 1))];
    UnitPlan(init.plan, cx, n + 1, init.entry);
    var a, b := Filled(State(inner.scope, [Store(target, Direct(UNIT))], Goto(next)), cx.depth),
                Filled(State(inner.scope, [Store(n, Slot(n + 1))], Goto(|p.entries|)), cx.depth);
    var c := Filled(State(cx.scope, [Store(n + 1, Direct(UNIT))], Goto(|p.entries| + 1)), cx.depth);
    assert p.entries + [a] + [b] + [c] == p.entries + [a, b, c];
  }

  lemma SeenPlan(p: Plan, cx: Ctx, target: nat, next: nat)
    ensures var n, k := p.nextSlot, |p.entries|;
            CompileExpr(p, cx, SEEN, target, next) ==
            Code(Plan(p.entries + [Filled(State(cx.scope, [], Transfer(n, 1, next, target)), cx.depth),
                                   Filled(State(cx.scope, [Store(n, Direct(Local("x")))], Goto(k)), cx.depth)], n + 1), k + 1)
  {
    var n := p.nextSlot;
    assert Size(SEEN.values) == 1;
    var call := Emit(Slots(p, 1), cx, cx.depth, [], Transfer(n, 1, next, target));
    assert CompileExpr(p, cx, SEEN, target, next) == CompileAll(call.plan, cx, SEEN.values, n, call.entry);
    assert CompileAll(call.plan, cx, NoExprs, n + 1, call.entry) == Code(call.plan, call.entry);
    assert CompileAll(call.plan, cx, SEEN.values, n, call.entry) == CompileExpr(call.plan, cx, Local("x"), n, call.entry);
    PlanOfAtomic(call.plan, cx, Local("x"), n, call.entry);
  }

  /** The operand of the call is read through the local bound after it. */
  lemma ShadowingPlan()
    ensures TableOf(PlanCallable(["x"], SHADOWING)) == SHADOWING_TABLE
  {
    hide CompileExpr, CompileStmts, PlanCallable, TableOf;
    var cx := StartCx(["x"]);
    assert cx == Ctx(map["x" := 0], [], [], 1) by {
      assert ["x"][1..] == [];
    }
    var p := Emit(StartPlan(["x"]), cx, 1, [], ReturnSlot(1)).plan;
    PlanOfBlock(p, cx, SHADOWING, 1, 1);
    PlanOfDo(p, cx, SHADOWING.stmts, 1, 1);
    RebindingPlan(p, cx, 1, 1);
    var rest := CompileStmts(p, cx, REBOUND, 1, 1);
    SeenPlan(Slots(rest.plan, 1), cx.(scope := rest.scope), 4, 4);
    var code := BodyCode(["x"], SHADOWING);
    assert code == CompileExpr(Slots(rest.plan, 1), cx.(scope := rest.scope), SEEN, 4, 4);
    assert X0["x" := 2] == X2;
    ShadowingFilled(code);
  }

  lemma ShadowingFilled(code: Code)
    requires code == BodyCode(["x"], SHADOWING) && code.entry == 6
    requires code.plan.entries == [Reserved(1)] + seq(6, i requires 0 <= i < 6 => Filled(SHADOWING_TABLE[i + 1], 1))
    ensures TableOf(PlanCallable(["x"], SHADOWING)) == SHADOWING_TABLE
  {
    CallableIs(["x"], SHADOWING);
    hide BodyCode, PlanCallable;
    assert StartCx(["x"]).scope == X0 by {
      assert ["x"][1..] == [];
    }
  }

  /** A callable that passes its parameter to a call and then binds a local of the same name: evaluated directly the
      call sees the argument, but the planned table hands it the local, which holds nothing yet. */
  lemma ShadowingBreaksThePlan()
    ensures Meaning(SILENT, ["x"], [TRUE], SHADOWING, 0) == Some((Finished(Undefined), [Event(CallOf([TRUE]), Answered(Undefined))]))
    ensures HaltsWith(SILENT, TableOf(PlanCallable(["x"], SHADOWING)), Launch([TRUE]), Finished(Undefined),
                      [Event(CallOf([Undefined]), Answered(Undefined))])
  {
    ShadowingMeans();
    ShadowingPlan();
    ShadowingRun(TableOf(PlanCallable(["x"], SHADOWING)));
  }

  lemma ShadowingMeans()
    ensures Meaning(SILENT, ["x"], [TRUE], SHADOWING, 0) == Some((Finished(Undefined), [Event(CallOf([TRUE]), Answered(Undefined))]))
  {
    var env := map["x" := TRUE];
    assert WithValues(map[], ["x"], [TRUE]) == env by {
      assert ["x"][1..] == [] && [TRUE][1..] == [];
    }
    var e := Event(CallOf([TRUE]), Answered(Undefined));
    assert EvalAll(SILENT, NoExprs, env, [], 0) == Values([], []);
    assert EvalAll(SILENT, SEEN.values, env, [], 0) == Values([TRUE], []);
    assert Eval(SILENT, SEEN, env, [], 0) == Done(Normal(Undefined), [e]);
    assert EvalStmts(SILENT, REBOUND, env, [e], 0) == Done(Normal(Undefined), [e]);
    assert EvalStmts(SILENT, SHADOWING.stmts, env, [], 0) == Done(Normal(Undefined), [e]);
    assert Eval(SILENT, SHADOWING, env, [], 0) == Done(Normal(Undefined), [e]);
  }

  lemma ShadowingRun(t: Table)
    requires t == SHADOWING_TABLE
    ensures HaltsWith(SILENT, t, Launch([TRUE]), Finished(Undefined), UNSEEN)
  {
    var c0 := Launch([TRUE]);
    var locals := c0.locals[5 := Undefined];
    ShadowingArgument(t, c0);
    ShadowingCall(t, c0, locals);
    ShadowingStores(t, c0, locals[4 := Undefined]);
    ShadowingReturn(t, c0, locals[4 := Undefined][3 := Undefined][2 := Undefined][1 := Undefined]);
    hide Run;
  }

  lemma ShadowingArgument(t: Table, c0: Config)
    requires t == SHADOWING_TABLE && c0 == Launch([TRUE])
    ensures Run(SILENT, t, c0, 2) == Running(5, c0.locals[5 := Undefined], [[]], [])
  {
    hide Step;
    JumpStep(SILENT, t, X0, Goto(6), c0);
    RunOne(SILENT, t, c0, 0, c0);
    var c1 := Running(6, c0.locals, [[]], []);
    StoreStep(SILENT, t, X2, 5, Direct(Local("x")), 5, c1);
    RunOne(SILENT, t, c0, 1, c1);
  }

  lemma ShadowingCall(t: Table, c0: Config, locals: Locals)
    requires t == SHADOWING_TABLE && 5 in locals && locals[5] == Undefined
    requires Run(SILENT, t, c0, 2) == Running(5, locals, [[]], [])
    ensures Run(SILENT, t, c0, 3) == Running(4, locals[4 := Undefined], [[]], UNSEEN)
  {
    hide Step, Run;
    var c2 := Running(5, locals, [[]], []);
    JumpStep(SILENT, t, X2, Transfer(5, 1, 4, 4), c2);
    assert SlotRange(locals, 5, 1) == [Undefined];
    RunOne(SILENT, t, c0, 2, c2);
  }

  lemma ShadowingStores(t: Table, c0: Config, locals: Locals)
    requires t == SHADOWING_TABLE
    requires Run(SILENT, t, c0, 3) == Running(4, locals, [[]], UNSEEN)
    ensures Run(SILENT, t, c0, 6) == Running(1, locals[3 := Undefined][2 := Undefined][1 := Undefined], [[]], UNSEEN)
  {
    hide Step, Run;
    var c3 := Running(4, locals, [[]], UNSEEN);
    StoreStep(SILENT, t, X0, 3, Direct(UNIT), 3, c3);
    RunOne(SILENT, t, c0, 3, c3);
    var c4 := Running(3, locals[3 := Undefined], [[]], UNSEEN);
    StoreStep(SILENT, t, X2, 2, Slot(3), 2, c4);
    RunOne(SILENT, t, c0, 4, c4);
    var c5 := Running(2, c4.locals[2 := Undefined], [[]], UNSEEN);
    StoreStep(SILENT, t, X2, 1, Direct(UNIT), 1, c5);
    RunOne(SILENT, t, c0, 5, c5);
  }

  lemma ShadowingReturn(t: Table, c0: Config, locals: Locals)
    requires t == SHADOWING_TABLE && 1 in locals && locals[1] == Undefined
    requires Run(SILENT, t, c0, 6) == Running(1, locals, [[]], UNSEEN)
    ensures Run(SILENT, t, c0, 7) == Halted(Finished(Undefined), UNSEEN)
  {
    hide Step, Run;
    var c6 := Running(1, locals, [[]], UNSEEN);
    JumpStep(SILENT, t, X0, ReturnSlot(1), c6);
    RunOne(SILENT, t, c0, 6, c6);
    var open: seq<seq<Pending>> := [[]];
    assert open[..0] == [];
  }
}
