/** The planned table simulates direct evaluation: one lemma per form of expression, by induction on fuel and syntax. */
module SimulationProof {
  import opened Values
  import opened Patterns
  import opened Hir
  import opened StateTable
  import opened Planning
  import opened Simulation
  import opened SimulationSteps
  import opened DirectExpressions

  ghost predicate Scoped(e: Expr, s: Spot) {
    WellFormed(e, s.env.Keys, Sigs(s.cx.loops), BlockTargets(s.cx.blocks))
  }

  /** `s` enters the code planned for one expression at `p`. */
  ghost predicate Enters(t: Table, p: Plan, code: Code, s: Spot) {
    && Ready(s) && s.n == p.nextSlot && s.w == iset{s.target} && s.d == s.cx.depth
    && s.target < p.nextSlot
    && Covers(t, code.plan) && s.c.pc == code.entry
  }

  lemma SimulateExpr(h: Host, t: Table, p: Plan, e: Expr, s: Spot, fuel: nat) returns (steps: nat, k: Config)
    requires Scoped(e, s) && Enters(t, p, CompileExpr(p, s.cx, e, s.target, s.next), s)
    ensures k == Run(h, t, s.c, steps) && Simulates(h, s, Eval(h, e, s.env, s.c.trace, fuel), fuel, steps, k)
    decreases fuel, e, 3
  {
    hide Eval, CompileExpr, Simulates, Scoped, Ready, Covers, Run, Atomic, NeedsSplit;
    PlanOfAtomic(p, s.cx, e, s.target, s.next);
    if Atomic(e) {
      steps, k := SimulateAtomic(h, t, p, e, s, fuel);
    } else {
      match e
      case Binary(_, _, _) => steps, k := SimulateBinary(h, t, p, e, s, fuel);
      case Logical(_, _, _) => steps, k := SimulateLogical(h, t, p, e, s, fuel);
      case If(_, _, _) => steps, k := SimulateIf(h, t, p, e, s, fuel);
      case Call(_) => steps, k := SimulateCall(h, t, p, e, s, fuel);
      case Block(_) => steps, k := SimulateBlock(h, t, p, e, s, fuel);
      case LabeledBlock(_, _) => steps, k := SimulateLabeledBlock(h, t, p, e, s, fuel);
      case MatchOn(_, _) => steps, k := SimulateMatch(h, t, p, e, s, fuel);
      case ContinueTransition(_, _) => steps, k := SimulateTransition(h, t, p, e, s, fuel);
      case For(_, _, _, _, _, _, _, _, _, _) => steps, k := SimulateFor(h, t, p, e, s, fuel);
      case StateLoop(_, _, _) => steps, k := SimulateStateLoop(h, t, p, e, s, fuel);
      case Break(_, _) => steps, k := SimulateBreak(h, t, p, e, s, fuel);
      case Continue(_) => steps, k := SimulateContinue(h, t, p, e, s, fuel);
    }
  }

  lemma PlanOfAtomic(p: Plan, cx: Ctx, e: Expr, target: nat, next: nat)
    ensures Atomic(e) ==> !NeedsSplit(e) && CompileExpr(p, cx, e, target, next) == StoreState(p, cx, target, Direct(e), next)
    ensures e.Const? || e.Local? ==> Atomic(e)
  {}

  /** An operand of the code at `s`, planned at `p` into the temporary `slot`: either it arrives at `mid` with its
      value in the temporary, or the whole ends where the operand ends. */
  lemma SimulateOperand(h: Host, t: Table, p: Plan, e: Expr, slot: nat, mid: nat, s: Spot, c: Config, a: nat, fuel: nat)
      returns (steps: nat, k: Config)
    requires Ready(s) && Within(s, c) && c == Run(h, t, s.c, a)
    requires Scoped(e, s) && s.n <= slot < p.nextSlot
    requires var code := CompileExpr(p, s.cx, e, slot, mid); Covers(t, code.plan) && c.pc == code.entry
    ensures k == Run(h, t, s.c, steps) && steps >= a
    ensures var r := Eval(h, e, s.env, c.trace, fuel);
            if r.Done? && r.completion.Normal?
            then Within(s, k) && k.pc == mid && k.trace == r.trace && Read(k.locals, slot) == r.completion.value &&
                 c.Running? && Frame(c.locals, k.locals, p.nextSlot, iset{slot})
            else Simulates(h, s, r, fuel, steps, k)
    decreases fuel, e, 4
  {
    hide Eval, CompileExpr, WellFormed, Run, Covers, Transferred, Simulates, CtxReady, EnvReady, ScopesReady, Owes;
    var s1 := s.(n := p.nextSlot, w := iset{slot}, target := slot, next := mid, d := s.cx.depth, c := c);
    ReadyLater(s, s1);
    var b;
    b, k := SimulateExpr(h, t, p, e, s1, fuel);
    RunAdds(h, t, s.c, a, b);
    steps := a + b;
    var r := Eval(h, e, s.env, c.trace, fuel);
    if r.Done? && r.completion.Normal? {
      Arrived(h, s1, r, fuel, b, k);
      FrameChain(s.c.locals, c.locals, s.n, s.w, k.locals, s1.n, s1.w, s.w);
    } else {
      StoppedFrom(h, s, s1, r, fuel, a, b, k);
    }
  }

  /** The rest of the code at `s`: an expression planned at `p` for the same target and continuation. */
  lemma SimulateRest(h: Host, t: Table, p: Plan, e: Expr, s: Spot, c: Config, a: nat, fuel: nat) returns (steps: nat, k: Config)
    requires Ready(s) && Within(s, c) && c == Run(h, t, s.c, a)
    requires Scoped(e, s) && s.n <= p.nextSlot && s.target < p.nextSlot && s.target in s.w && s.d == s.cx.depth
    requires var code := CompileExpr(p, s.cx, e, s.target, s.next); Covers(t, code.plan) && c.pc == code.entry
    ensures k == Run(h, t, s.c, steps) && Simulates(h, s, Eval(h, e, s.env, c.trace, fuel), fuel, steps, k)
    ensures steps >= a
    ensures Eval(h, e, s.env, c.trace, fuel).Timeout? ==> steps >= a + fuel
    decreases fuel, e, 4
  {
    hide Eval, CompileExpr, WellFormed, Run, Covers, Transferred, Simulates, CtxReady, EnvReady, ScopesReady, Owes;
    var s1 := s.(n := p.nextSlot, w := iset{s.target}, c := c);
    ReadyLater(s, s1);
    var b;
    b, k := SimulateExpr(h, t, p, e, s1, fuel);
    RunAdds(h, t, s.c, a, b);
    steps := a + b;
    if Eval(h, e, s.env, c.trace, fuel).Timeout? { TimeoutSteps(h, s1, Eval(h, e, s.env, c.trace, fuel), fuel, b, k); }
    SimulatesFrom(h, s, s1, Eval(h, e, s.env, c.trace, fuel), fuel, a, b, k);
  }

  lemma TimeoutSteps(h: Host, s: Spot, r: Result, fuel: nat, steps: nat, k: Config)
    requires Simulates(h, s, r, fuel, steps, k) && r.Timeout?
    ensures steps >= fuel
  {}

  lemma Starts(h: Host, t: Table, s: Spot)
    requires Ready(s)
    ensures Run(h, t, s.c, 0) == s.c && Within(s, s.c)
  {}

  // ----- expressions stored by one state -----

  lemma SimulateAtomic(h: Host, t: Table, p: Plan, e: Expr, s: Spot, fuel: nat) returns (steps: nat, k: Config)
    requires Scoped(e, s) && !NeedsSplit(e)
    requires Enters(t, p, StoreState(p, s.cx, s.target, Direct(e), s.next), s)
    ensures k == Run(h, t, s.c, steps) && Simulates(h, s, Eval(h, e, s.env, s.c.trace, fuel), fuel, steps, k)
  {
    hide Simulates, CtxReady, EnvReady, ScopesReady, Owes, WellFormed, NeedsSplit, Eval;
    var c := s.c;
    var code := StoreState(p, s.cx, s.target, Direct(e), s.next);
    Emitted(t, p, s.cx, s.cx.depth, [Store(s.target, Direct(e))], Goto(s.next), code.plan);
    NamesAreSeen(s);
    ExprIsDirect(h, e, s.env, EnvOf(s.cx.scope, c.locals), c.trace, fuel, Sigs(s.cx.loops), BlockTargets(s.cx.blocks));
    StoreStep(h, t, s.cx.scope, s.target, Direct(e), s.next, c);
    steps, k := 1, Step(h, t, c);
    RunOne(h, t, c, 0, c);
    FinishStore(h, s, c, Eval(h, e, s.env, c.trace, fuel).completion, fuel, steps, k);
  }

  lemma NamesAreSeen(s: Spot)
    requires Ready(s)
    ensures Agrees(s.env, EnvOf(s.cx.scope, s.c.locals))
  {}

  // ----- eager and short-circuit operators -----

  lemma MeaningOfBinary(h: Host, e: Expr, env: Env, tr: Trace, fuel: nat)
    requires e.Binary?
    ensures var l := Eval(h, e.lhs, env, tr, fuel);
            Eval(h, e, env, tr, fuel) ==
              if !(l.Done? && l.completion.Normal?) then l else
              var r := Eval(h, e.rhs, env, l.trace, fuel);
              if !(r.Done? && r.completion.Normal?) then r else
              Done(BinaryResult(h, e.op, l.completion.value, r.completion.value), r.trace)
  {}

  lemma PlanOfBinary(p: Plan, cx: Ctx, e: Expr, target: nat, next: nat)
    requires e.Binary? && !Atomic(e)
    ensures var store := StoreState(Slots(p, 2), cx, target, BinarySlots(e.op, p.nextSlot, p.nextSlot + 1), next);
            var r := CompileExpr(store.plan, cx, e.rhs, p.nextSlot + 1, store.entry);
            CompileExpr(p, cx, e, target, next) == CompileExpr(r.plan, cx, e.lhs, p.nextSlot, r.entry)
  {}

  lemma PartsOfOperator(e: Expr, s: Spot)
    requires (e.Binary? || e.Logical?) && Scoped(e, s)
    ensures Scoped(e.lhs, s) && Scoped(e.rhs, s)
  {}

  lemma SimulateBinary(h: Host, t: Table, p: Plan, e: Expr, s: Spot, fuel: nat) returns (steps: nat, k: Config)
    requires e.Binary? && !Atomic(e)
    requires Scoped(e, s) && Enters(t, p, CompileExpr(p, s.cx, e, s.target, s.next), s)
    ensures k == Run(h, t, s.c, steps) && Simulates(h, s, Eval(h, e, s.env, s.c.trace, fuel), fuel, steps, k)
    decreases fuel, e, 2
  {
    hide Eval, CompileExpr, Scoped, Run, Covers, Simulates, Ready, Step, Atomic, BinaryResult;
    var n, cx := p.nextSlot, s.cx;
    PartsOfOperator(e, s);
    PlanOfBinary(p, cx, e, s.target, s.next);
    MeaningOfBinary(h, e, s.env, s.c.trace, fuel);
    var value := BinarySlots(e.op, n, n + 1);
    var store := StoreState(Slots(p, 2), cx, s.target, value, s.next);
    var rhs := CompileExpr(store.plan, cx, e.rhs, n + 1, store.entry);
    var whole := CompileExpr(rhs.plan, cx, e.lhs, n, rhs.entry);
    CoversPrefix(t, rhs.plan, whole.plan);
    Emitted(t, Slots(p, 2), cx, cx.depth, [Store(s.target, value)], Goto(s.next), rhs.plan);
    Starts(h, t, s);
    var a, ka := SimulateOperand(h, t, rhs.plan, e.lhs, n, rhs.entry, s, s.c, 0, fuel);
    var l := Eval(h, e.lhs, s.env, s.c.trace, fuel);
    if !(l.Done? && l.completion.Normal?) { return a, ka; }
    var b, kb := SimulateOperand(h, t, store.plan, e.rhs, n + 1, store.entry, s, ka, a, fuel);
    var r := Eval(h, e.rhs, s.env, l.trace, fuel);
    if !(r.Done? && r.completion.Normal?) { return b, kb; }
    StoreStep(h, t, cx.scope, s.target, value, s.next, kb);
    RunOne(h, t, s.c, b, kb);
    steps, k := b + 1, Step(h, t, kb);
    BinaryShape(h, e.op, l.completion.value, r.completion.value);
    FinishStore(h, s, kb, BinaryResult(h, e.op, l.completion.value, r.completion.value), fuel, steps, k);
  }

  lemma BinaryShape(h: Host, op: string, l: Value, r: Value)
    ensures BinaryResult(h, op, l, r).Normal? || BinaryResult(h, op, l, r).Threw?
  {}

  lemma MeaningOfLogical(h: Host, e: Expr, env: Env, tr: Trace, fuel: nat)
    requires e.Logical?
    ensures var l := Eval(h, e.lhs, env, tr, fuel);
            Eval(h, e, env, tr, fuel) ==
              if !(l.Done? && l.completion.Normal?) then l else
              if Truthy(l.completion.value) == e.both then Eval(h, e.rhs, env, l.trace, fuel) else l
  {}

  function LogicalJump(e: Expr, slot: nat, rhs: nat, short: nat): Terminal
    requires e.Logical?
  {
    if e.both then Branch(slot, rhs, short) else Branch(slot, short, rhs)
  }

  lemma PlanOfLogical(p: Plan, cx: Ctx, e: Expr, target: nat, next: nat)
    requires e.Logical? && !Atomic(e)
    ensures var r := CompileExpr(p, cx, e.rhs, target, next);
            var l := r.plan.nextSlot;
            var short := StoreState(Slots(r.plan, 1), cx, target, Slot(l), next);
            var branch := Emit(short.plan, cx, cx.depth, [], LogicalJump(e, l, r.entry, short.entry));
            CompileExpr(p, cx, e, target, next) == CompileExpr(branch.plan, cx, e.lhs, l, branch.entry)
  {}

  lemma SimulateLogical(h: Host, t: Table, p: Plan, e: Expr, s: Spot, fuel: nat) returns (steps: nat, k: Config)
    requires e.Logical? && !Atomic(e)
    requires Scoped(e, s) && Enters(t, p, CompileExpr(p, s.cx, e, s.target, s.next), s)
    ensures k == Run(h, t, s.c, steps) && Simulates(h, s, Eval(h, e, s.env, s.c.trace, fuel), fuel, steps, k)
    decreases fuel, e, 2
  {
    hide Eval, CompileExpr, Scoped, Run, Covers, Simulates, Ready, Step, Atomic;
    var cx := s.cx;
    PartsOfOperator(e, s);
    PlanOfLogical(p, cx, e, s.target, s.next);
    MeaningOfLogical(h, e, s.env, s.c.trace, fuel);
    var r := CompileExpr(p, cx, e.rhs, s.target, s.next);
    var l := r.plan.nextSlot;
    var short := StoreState(Slots(r.plan, 1), cx, s.target, Slot(l), s.next);
    var jump := LogicalJump(e, l, r.entry, short.entry);
    var branch := Emit(short.plan, cx, cx.depth, [], jump);
    var whole := CompileExpr(branch.plan, cx, e.lhs, l, branch.entry);
    Emitted(t, short.plan, cx, cx.depth, [], jump, whole.plan);
    Emitted(t, Slots(r.plan, 1), cx, cx.depth, [Store(s.target, Slot(l))], Goto(s.next), short.plan);
    CoversPrefix(t, r.plan, short.plan);
    Starts(h, t, s);
    var a, ka := SimulateOperand(h, t, branch.plan, e.lhs, l, branch.entry, s, s.c, 0, fuel);
    var v := Eval(h, e.lhs, s.env, s.c.trace, fuel);
    if !(v.Done? && v.completion.Normal?) { return a, ka; }
    JumpStep(h, t, cx.scope, jump, ka);
    RunOne(h, t, s.c, a, ka);
    var kb := Step(h, t, ka);
    if Truthy(v.completion.value) == e.both {
      steps, k := SimulateRest(h, t, p, e.rhs, s, kb, a + 1, fuel);
    } else {
      StoreStep(h, t, cx.scope, s.target, Slot(l), s.next, kb);
      RunOne(h, t, s.c, a + 1, kb);
      steps, k := a + 2, Step(h, t, kb);
      FinishStore(h, s, kb, v.completion, fuel, steps, k);
    }
  }

  // ----- if -----

  lemma PlanOfIf(p: Plan, cx: Ctx, e: Expr, target: nat, next: nat)
    requires e.If?
    ensures var thn := CompileExpr(p, cx, e.thn, target, next);
            var els := CompileExpr(thn.plan, cx, Otherwise(e), target, next);
            var c := els.plan.nextSlot;
            var branch := Emit(Slots(els.plan, 1), cx, cx.depth, [], Branch(c, thn.entry, els.entry));
            CompileExpr(p, cx, e, target, next) == CompileExpr(branch.plan, cx, e.cond, c, branch.entry)
  {}

  function Otherwise(e: Expr): Expr
    requires e.If?
    ensures e.els.Some? ==> Otherwise(e) == e.els.value
  {
    if e.els.Some? then e.els.value else UNIT
  }

  lemma MeaningOfIf(h: Host, e: Expr, env: Env, tr: Trace, fuel: nat)
    requires e.If?
    ensures var c := Eval(h, e.cond, env, tr, fuel);
            Eval(h, e, env, tr, fuel) ==
              if !(c.Done? && c.completion.Normal?) then c
              else Eval(h, if Truthy(c.completion.value) then e.thn else Otherwise(e), env, c.trace, fuel)
  {}

  lemma PartsOfIf(e: Expr, s: Spot)
    requires e.If? && Scoped(e, s)
    ensures Scoped(e.cond, s) && Scoped(e.thn, s) && Scoped(Otherwise(e), s)
  {}

  lemma SimulateIf(h: Host, t: Table, p: Plan, e: Expr, s: Spot, fuel: nat) returns (steps: nat, k: Config)
    requires e.If?
    requires Scoped(e, s) && Enters(t, p, CompileExpr(p, s.cx, e, s.target, s.next), s)
    ensures k == Run(h, t, s.c, steps) && Simulates(h, s, Eval(h, e, s.env, s.c.trace, fuel), fuel, steps, k)
    decreases fuel, e, 2
  {
    hide Eval, CompileExpr, Scoped, Run, Covers, Simulates, Ready, Step;
    var cx := s.cx;
    PartsOfIf(e, s);
    PlanOfIf(p, cx, e, s.target, s.next);
    MeaningOfIf(h, e, s.env, s.c.trace, fuel);
    var thn := CompileExpr(p, cx, e.thn, s.target, s.next);
    var els := CompileExpr(thn.plan, cx, Otherwise(e), s.target, s.next);
    var c := els.plan.nextSlot;
    var jump := Branch(c, thn.entry, els.entry);
    var branch := Emit(Slots(els.plan, 1), cx, cx.depth, [], jump);
    var whole := CompileExpr(branch.plan, cx, e.cond, c, branch.entry);
    Emitted(t, Slots(els.plan, 1), cx, cx.depth, [], jump, whole.plan);
    CoversPrefix(t, els.plan, Slots(els.plan, 1));
    CoversPrefix(t, thn.plan, els.plan);
    Starts(h, t, s);
    var a, ka := SimulateOperand(h, t, branch.plan, e.cond, c, branch.entry, s, s.c, 0, fuel);
    var r := Eval(h, e.cond, s.env, s.c.trace, fuel);
    if !(r.Done? && r.completion.Normal?) { return a, ka; }
    JumpStep(h, t, cx.scope, jump, ka);
    RunOne(h, t, s.c, a, ka);
    var kb := Step(h, t, ka);
    if Truthy(r.completion.value) {
      steps, k := SimulateRest(h, t, p, e.thn, s, kb, a + 1, fuel);
    } else if e.els.Some? {
      steps, k := SimulateRest(h, t, thn.plan, e.els.value, s, kb, a + 1, fuel);
    } else {
      steps, k := SimulateUnit(h, t, thn.plan, s, kb, a + 1, fuel);
    }
  }

  /** Leaving `undefined` as the value. */
  lemma SimulateUnit(h: Host, t: Table, p: Plan, s: Spot, c: Config, a: nat, fuel: nat) returns (steps: nat, k: Config)
    requires Ready(s) && Within(s, c) && c == Run(h, t, s.c, a)
    requires s.n <= p.nextSlot && s.target < p.nextSlot && s.target in s.w && s.d == s.cx.depth
    requires var code := CompileExpr(p, s.cx, UNIT, s.target, s.next); Covers(t, code.plan) && c.pc == code.entry
    ensures k == Run(h, t, s.c, steps) && Simulates(h, s, Eval(h, UNIT, s.env, c.trace, fuel), fuel, steps, k)
  {
    hide Run, Covers, Transferred, Simulates, CtxReady, EnvReady, ScopesReady, Owes;
    var s1 := s.(n := p.nextSlot, w := iset{s.target}, c := c);
    ReadyLater(s, s1);
    var b;
    b, k := SimulateAtomic(h, t, p, UNIT, s1, fuel);
    RunAdds(h, t, s.c, a, b);
    steps := a + b;
    SimulatesFrom(h, s, s1, Eval(h, UNIT, s.env, c.trace, fuel), fuel, a, b, k);
  }

  // ----- calls -----

  lemma MeaningOfCall(h: Host, e: Expr, env: Env, tr: Trace, fuel: nat)
    requires e.Call?
    ensures var r := EvalAll(h, e.values, env, tr, fuel);
            Eval(h, e, env, tr, fuel) == if r.Stopped? then r.result else CallResult(h, r.values, r.trace)
  {}

  function CallResult(h: Host, vs: seq<Value>, tr: Trace): Result {
    var answer := h.answer(tr, CallOf(vs));
    Done(if answer.Answered? then Normal(answer.value) else Threw([answer.defect]), tr + [Event(CallOf(vs), answer)])
  }

  lemma SimulateCall(h: Host, t: Table, p: Plan, e: Expr, s: Spot, fuel: nat) returns (steps: nat, k: Config)
    requires e.Call?
    requires Scoped(e, s) && Enters(t, p, CompileExpr(p, s.cx, e, s.target, s.next), s)
    ensures k == Run(h, t, s.c, steps) && Simulates(h, s, Eval(h, e, s.env, s.c.trace, fuel), fuel, steps, k)
    decreases fuel, e, 2
  {
    hide Eval, EvalAll, CompileAll, Run, Covers, Ready, Step, WellFormed, ExprsWellFormed;
    var n, size, cx := p.nextSlot, Size(e.values), s.cx;
    var jump := Transfer(n, size, s.next, s.target);
    var call := Emit(Slots(p, size), cx, cx.depth, [], jump);
    var whole := CompileAll(call.plan, cx, e.values, n, call.entry);
    Emitted(t, Slots(p, size), cx, cx.depth, [], jump, whole.plan);
    MeaningOfCall(h, e, s.env, s.c.trace, fuel);
    Starts(h, t, s);
    var s1 := s.(n := n + size, w := Span(n, size), target := n, next := call.entry);
    ReadyLater(s, s1);
    PartsOfCall(e, s);
    var a, ka := SimulateAll(h, t, call.plan, e.values, s1, fuel);
    var r := EvalAll(h, e.values, s.env, s.c.trace, fuel);
    if r.Stopped? {
      if r.result.Done? { TransferredFrom(h, s, s1, r.result, ka); }
      return a, ka;
    }
    FrameChain(s.c.locals, s.c.locals, s.n, s.w, ka.locals, s1.n, s1.w, s.w);
    JumpStep(h, t, cx.scope, jump, ka);
    RunOne(h, t, s.c, a, ka);
    steps, k := a + 1, Step(h, t, ka);
    assert SlotRange(ka.locals, n, size) == r.values;
    var answer := h.answer(r.trace, CallOf(r.values));
    if answer.Answered? {
      Arrives(h, s, fuel, steps, answer.value, k);
    } else {
      Raises(h, s, ka, [answer.defect], r.trace + [Event(CallOf(r.values), answer)]);
    }
  }

  lemma PartsOfCall(e: Expr, s: Spot)
    requires e.Call? && Scoped(e, s)
    ensures ExprsWellFormed(e.values, s.env.Keys, Sigs(s.cx.loops), BlockTargets(s.cx.blocks))
  {}

  /** The first operand is still held when the later ones are. */
  lemma HeldFirst(h: Host, s: Spot, s2: Spot, v: Value, count: nat, r: Listed, fuel: nat, a: nat, b: nat, k: Config)
    requires Later(s, s2) && s2.next == s.next && s2.target == s.target + 1 && s.target < s.n
    requires s.w == Span(s.target, count + 1) && s2.w == Span(s.target + 1, count) && Read(s2.c.locals, s.target) == v
    requires SimulatesAll(h, s2, r, fuel, b, k)
    ensures SimulatesAll(h, s, if r.Values? then Values([v] + r.values, r.trace) else r, fuel, a + b, k)
  {
    hide Transferred, Read;
    if r.Values? {
      assert s.target !in s2.w;
      forall i | 0 <= i < 1 + |r.values| ensures Read(k.locals, s.target + i) == ([v] + r.values)[i] {
        if i > 0 { assert Read(k.locals, s2.target + (i - 1)) == r.values[i - 1]; }
      }
    } else if r.result.Done? {
      TransferredFrom(h, s, s2, r.result, k);
    }
  }

  lemma SimulateAll(h: Host, t: Table, p: Plan, es: Exprs, s: Spot, fuel: nat) returns (steps: nat, k: Config)
    requires ExprsWellFormed(es, s.env.Keys, Sigs(s.cx.loops), BlockTargets(s.cx.blocks))
    requires Ready(s) && s.n == p.nextSlot && s.target + Size(es) <= s.n && s.w == Span(s.target, Size(es))
    requires var code := CompileAll(p, s.cx, es, s.target, s.next); Covers(t, code.plan) && s.c.pc == code.entry
    ensures k == Run(h, t, s.c, steps) && SimulatesAll(h, s, EvalAll(h, es, s.env, s.c.trace, fuel), fuel, steps, k)
    decreases fuel, es, 0
  {
    hide Eval, CompileExpr, Run, Covers, Ready, WellFormed, CtxReady, EnvReady, ScopesReady, Owes, Transferred, Leaves, Read;
    Starts(h, t, s);
    if es.NoExprs? {
      return 0, s.c;
    }
    var first, cx := s.target, s.cx;
    var rest := CompileAll(p, cx, es.tail, first + 1, s.next);
    var whole := CompileExpr(rest.plan, cx, es.head, first, rest.entry);
    CoversPrefix(t, rest.plan, whole.plan);
    var s1 := s.(n := rest.plan.nextSlot, w := iset{first}, next := rest.entry, d := cx.depth);
    ReadyLater(s, s1);
    var a, ka := SimulateExpr(h, t, rest.plan, es.head, s1, fuel);
    var v := Eval(h, es.head, s.env, s.c.trace, fuel);
    if !(v.Done? && v.completion.Normal?) {
      if v.Done? { TransferredFrom(h, s, s1, v, ka); }
      return a, ka;
    }
    Arrived(h, s1, v, fuel, a, ka);
    var s2 := s.(w := Span(first + 1, Size(es.tail)), target := first + 1, c := ka);
    ReadyLater(s, s2);
    var b, kb := SimulateAll(h, t, p, es.tail, s2, fuel);
    RunAdds(h, t, s.c, a, b);
    steps, k := a + b, kb;
    HeldFirst(h, s, s2, v.completion.value, Size(es.tail), EvalAll(h, es.tail, s.env, v.trace, fuel), fuel, a, b, kb);
  }

  // ----- labelled blocks -----

  function BlockSpot(s: Spot, mark: nat): Spot {
    s.(cx := s.cx.(blocks := s.cx.blocks + [BlockExit(mark, s.target, s.next, s.cx.depth)]))
  }

  lemma BlockSpotReady(s: Spot, mark: nat)
    requires Ready(s) && s.target in s.w && s.target < s.n
    ensures Ready(BlockSpot(s, mark))
  {
    var cx1 := BlockSpot(s, mark).cx;
    forall i | 0 <= i < |cx1.loops| ensures LoopReady(cx1, cx1.loops[i], s.env, s.n) {
      assert LoopReady(s.cx, s.cx.loops[i], s.env, s.n);
    }
  }

  lemma MeaningOfLabeledBlock(h: Host, e: Expr, env: Env, tr: Trace, fuel: nat)
    requires e.LabeledBlock?
    ensures Eval(h, e, env, tr, fuel) == CatchBlock(e.target, Eval(h, e.body, env, tr, fuel))
  {}

  function CatchBlock(mark: nat, r: Result): Result {
    if r.Done? && r.completion.LeftBlock? && r.completion.block == mark then Done(Normal(r.completion.value), r.trace) else r
  }

  lemma PlanOfLabeledBlock(p: Plan, e: Expr, s: Spot)
    requires e.LabeledBlock?
    ensures CompileExpr(p, s.cx, e, s.target, s.next) == CompileExpr(p, BlockSpot(s, e.target).cx, e.body, s.target, s.next)
    ensures Scoped(e, s) ==> Scoped(e.body, BlockSpot(s, e.target))
  {
    assert BlockTargets(BlockSpot(s, e.target).cx.blocks) == BlockTargets(s.cx.blocks) + [e.target];
  }

  lemma CaughtBlock(h: Host, s: Spot, mark: nat, r: Result, fuel: nat, steps: nat, k: Config)
    requires Ready(s) && s.d == s.cx.depth && s.w == iset{s.target}
    requires Simulates(h, BlockSpot(s, mark), r, fuel, steps, k)
    ensures Simulates(h, s, CatchBlock(mark, r), fuel, steps, k)
  {
    if r.Done? && r.completion.LeftBlock? {
      BlockPushed(s.cx.blocks, BlockExit(mark, s.target, s.next, s.cx.depth), r.completion.block);
      assert s.w + iset{s.target} == s.w + iset{};
    }
  }

  lemma SimulateLabeledBlock(h: Host, t: Table, p: Plan, e: Expr, s: Spot, fuel: nat) returns (steps: nat, k: Config)
    requires e.LabeledBlock?
    requires Scoped(e, s) && Enters(t, p, CompileExpr(p, s.cx, e, s.target, s.next), s)
    ensures k == Run(h, t, s.c, steps) && Simulates(h, s, Eval(h, e, s.env, s.c.trace, fuel), fuel, steps, k)
    decreases fuel, e, 2
  {
    hide Eval, CompileExpr, Scoped, Run, Covers, Simulates, Ready;
    PlanOfLabeledBlock(p, e, s);
    MeaningOfLabeledBlock(h, e, s.env, s.c.trace, fuel);
    BlockSpotReady(s, e.target);
    steps, k := SimulateExpr(h, t, p, e.body, BlockSpot(s, e.target), fuel);
    CaughtBlock(h, s, e.target, Eval(h, e.body, s.env, s.c.trace, fuel), fuel, steps, k);
  }

  // ----- break and continue -----

  function LoopOf(s: Spot, target: nat): Loop
    requires FindLoop(Sigs(s.cx.loops), target).Some?
  {
    s.cx.loops[FindLoop(Sigs(s.cx.loops), target).value]
  }

  lemma LoopOfReady(s: Spot, target: nat)
    requires Ready(s) && FindLoop(Sigs(s.cx.loops), target).Some?
    ensures LoopReady(s.cx, LoopOf(s, target), s.env, s.n) && ResultSlot(s.cx, LoopOf(s, target).result)
  {}

  lemma PlanOfBreak(p: Plan, e: Expr, s: Spot)
    requires e.Break? && Scoped(e, s)
    ensures FindLoop(Sigs(s.cx.loops), e.target).Some? && Scoped(e.value, s)
    ensures var loop := LoopOf(s, e.target);
            var leave := Emit(Slots(p, 1), s.cx, s.cx.depth,
              [Store(loop.result, SomeSlot(loop.option, p.nextSlot)), UnwindCleanupScopes(loop.depth)], Goto(loop.exit));
            CompileExpr(p, s.cx, e, s.target, s.next) == CompileExpr(leave.plan, s.cx, e.value, p.nextSlot, leave.entry)
  {}

  lemma MeaningOfBreak(h: Host, e: Expr, env: Env, tr: Trace, fuel: nat)
    requires e.Break?
    ensures var v := Eval(h, e.value, env, tr, fuel);
            Eval(h, e, env, tr, fuel) ==
              if !(v.Done? && v.completion.Normal?) then v else Done(Broke(e.target, v.completion.value), v.trace)
  {}

  lemma SimulateBreak(h: Host, t: Table, p: Plan, e: Expr, s: Spot, fuel: nat) returns (steps: nat, k: Config)
    requires e.Break?
    requires Scoped(e, s) && Enters(t, p, CompileExpr(p, s.cx, e, s.target, s.next), s)
    ensures k == Run(h, t, s.c, steps) && Simulates(h, s, Eval(h, e, s.env, s.c.trace, fuel), fuel, steps, k)
    decreases fuel, e, 2
  {
    hide Eval, CompileExpr, Scoped, Run, Covers, Ready, Step;
    var n, cx := p.nextSlot, s.cx;
    PlanOfBreak(p, e, s);
    MeaningOfBreak(h, e, s.env, s.c.trace, fuel);
    LoopOfReady(s, e.target);
    var loop := LoopOf(s, e.target);
    var actions := [Store(loop.result, SomeSlot(loop.option, n)), UnwindCleanupScopes(loop.depth)];
    var leave := Emit(Slots(p, 1), cx, cx.depth, actions, Goto(loop.exit));
    var whole := CompileExpr(leave.plan, cx, e.value, n, leave.entry);
    Emitted(t, Slots(p, 1), cx, cx.depth, actions, Goto(loop.exit), whole.plan);
    Starts(h, t, s);
    var a, ka := SimulateOperand(h, t, leave.plan, e.value, n, leave.entry, s, s.c, 0, fuel);
    var v := Eval(h, e.value, s.env, s.c.trace, fuel);
    if !(v.Done? && v.completion.Normal?) { return a, ka; }
    ExitStep(h, t, s, ka, loop.result, SomeSlot(loop.option, n), WrapSome(loop.option, v.completion.value),
             loop.depth, loop.exit, Broke(e.target, v.completion.value), cx.scope);
    RunOne(h, t, s.c, a, ka);
    steps, k := a + 1, Step(h, t, ka);
  }

  lemma SimulateContinue(h: Host, t: Table, p: Plan, e: Expr, s: Spot, fuel: nat) returns (steps: nat, k: Config)
    requires e.Continue?
    requires Scoped(e, s) && Enters(t, p, CompileExpr(p, s.cx, e, s.target, s.next), s)
    ensures k == Run(h, t, s.c, steps) && Simulates(h, s, Eval(h, e, s.env, s.c.trace, fuel), fuel, steps, k)
  {
    hide Covers, Ready, Step, Run;
    LoopOfReady(s, e.target);
    var loop := LoopOf(s, e.target);
    var code := CompileExpr(p, s.cx, e, s.target, s.next);
    Emitted(t, p, s.cx, s.cx.depth, [UnwindCleanupScopes(loop.depth)], Goto(loop.resume), code.plan);
    Starts(h, t, s);
    UnwindStep(h, t, s, s.c, loop.depth, loop.head, Continued(e.target, map[]), s.cx.scope);
    RunOne(h, t, s.c, 0, s.c);
    steps, k := 1, Step(h, t, s.c);
  }

  // ----- blocks and statements -----

  /** How a block's statements continue: either straight on, or through the state that unwinds the block's scope. */
  ghost predicate Bridge(t: Table, mid: nat, s: Spot) {
    if s.d == s.cx.depth then mid == s.next
    else s.d < s.cx.depth && mid < |t| && t[mid].actions == [UnwindCleanupScopes(s.d)] && t[mid].terminal == Goto(s.next)
  }

  /** Every enclosing construct was entered before the block's own scope. */
  ghost predicate Outside(cx: Ctx, d: nat) {
    && (forall i | 0 <= i < |cx.loops| :: cx.loops[i].depth <= d && cx.loops[i].continueDepth <= d)
    && (forall i | 0 <= i < |cx.blocks| :: cx.blocks[i].depth <= d)
  }

  ghost predicate StmtsScoped(ss: Stmts, s: Spot) {
    StmtsWellFormed(ss, s.env.Keys, Sigs(s.cx.loops), BlockTargets(s.cx.blocks))
  }

  ghost predicate EntersStmts(t: Table, p: Plan, ss: Stmts, mid: nat, s: Spot) {
    && Ready(s) && s.n == p.nextSlot && s.w == iset{s.target} && s.target < p.nextSlot
    && Bridge(t, mid, s) && Outside(s.cx, s.d) && (Managed(ss) ==> s.d < s.cx.depth)
    && Covers(t, CompileStmts(p, s.cx, ss, s.target, mid).plan)
    && s.c.pc == CompileStmts(p, s.cx, ss, s.target, mid).entry
  }

  /** From the end of the statements over the bridge. */
  lemma Bridged(h: Host, t: Table, s: Spot, mid: nat, r: Result, fuel: nat, a: nat, m: Config) returns (steps: nat, k: Config)
    requires Ready(s) && Bridge(t, mid, s) && m == Run(h, t, s.c, a)
    requires Simulates(h, s.(next := mid, d := s.cx.depth), r, fuel, a, m)
    ensures k == Run(h, t, s.c, steps) && Simulates(h, s, r, fuel, steps, k)
  {
    hide Run, Step;
    var s1 := s.(next := mid, d := s.cx.depth);
    if r.Done? && r.completion.Normal? && s.d < s.cx.depth {
      Arrived(h, s1, r, fuel, a, m);
      UnwindStep(h, t, s, m, s.d, s.next, r.completion, t[mid].environment);
      RunOne(h, t, s.c, a, m);
      steps, k := a + 1, Step(h, t, m);
      assert s.w + iset{} == s.w;
    } else {
      steps, k := a, m;
      if r.Done? && !r.completion.Normal? { TransferredFrom(h, s, s1, r, k); }
    }
  }

  lemma SimulateStmts(h: Host, t: Table, p: Plan, ss: Stmts, mid: nat, s: Spot, fuel: nat) returns (steps: nat, k: Config)
    requires StmtsScoped(ss, s) && EntersStmts(t, p, ss, mid, s)
    ensures k == Run(h, t, s.c, steps) && Simulates(h, s, EvalStmts(h, ss, s.env, s.c.trace, fuel), fuel, steps, k)
    decreases fuel, ss, 1
  {
    hide Eval, CompileExpr, CompileStmts;
    match ss
    case Tail(_) => steps, k := SimulateTail(h, t, p, ss, mid, s, fuel);
    case Let(_, _, _, _) => steps, k := SimulateLet(h, t, p, ss, mid, s, fuel);
    case Do(_, _) => steps, k := SimulateDo(h, t, p, ss, mid, s, fuel);
    case Return(_, _, _) => steps, k := SimulateReturn(h, t, p, ss, mid, s, fuel);
  }

  lemma SimulateTail(h: Host, t: Table, p: Plan, ss: Stmts, mid: nat, s: Spot, fuel: nat) returns (steps: nat, k: Config)
    requires ss.Tail? && StmtsScoped(ss, s) && EntersStmts(t, p, ss, mid, s)
    ensures k == Run(h, t, s.c, steps) && Simulates(h, s, EvalStmts(h, ss, s.env, s.c.trace, fuel), fuel, steps, k)
    decreases fuel, ss, 0
  {
    hide Eval, CompileExpr, Run, Covers, Simulates, Ready, WellFormed;
    var s1 := s.(next := mid, d := s.cx.depth);
    Starts(h, t, s);
    ReadyLater(s, s1);
    var a, m;
    if ss.tail.Some? {
      a, m := SimulateExpr(h, t, p, ss.tail.value, s1, fuel);
      steps, k := Bridged(h, t, s, mid, Eval(h, ss.tail.value, s.env, s.c.trace, fuel), fuel, a, m);
    } else {
      UnitPlan(p, s.cx, s.target, mid);
      a, m := SimulateUnit(h, t, p, s1, s.c, 0, fuel);
      UnitMeaning(h, s.env, s.c.trace, fuel);
      steps, k := Bridged(h, t, s, mid, Eval(h, UNIT, s.env, s.c.trace, fuel), fuel, a, m);
    }
  }

  lemma UnitPlan(p: Plan, cx: Ctx, target: nat, next: nat)
    ensures CompileExpr(p, cx, UNIT, target, next) == StoreState(p, cx, target, Direct(UNIT), next)
  {}

  lemma UnitMeaning(h: Host, env: Env, tr: Trace, fuel: nat)
    ensures Eval(h, UNIT, env, tr, fuel) == Done(Normal(Undefined), tr)
  {}

  // An expression statement is planned after the later lets of its block are in scope; since no binder shadows a
  // name in scope, the names it uses still resolve to the same slots.
  lemma {:induction false} LaterLetsKeepScope(p: Plan, cx: Ctx, ss: Stmts, target: nat, next: nat, names: set<string>, loops: seq<LoopSig>, blocks: seq<nat>)
    requires StmtsWellFormed(ss, names, loops, blocks)
    ensures var sc := CompileStmts(p, cx, ss, target, next).scope;
            forall x | x in names && x in cx.scope :: x in sc && sc[x] == cx.scope[x]
    decreases ss
  {
    match ss
    case Tail(_) | Return(_, _, _) =>
    case Let(name, _, _, rest) =>
      LaterLetsKeepScope(Slots(p, 1), cx.(scope := cx.scope[name := p.nextSlot]), rest, target, next, names + {name}, loops, blocks);
    case Do(_, rest) => LaterLetsKeepScope(p, cx, rest, target, next, names, loops, blocks);
  }

  lemma WiderScopeReady(s: Spot, scope: Scope)
    requires Ready(s)
    requires forall x | x in s.env && x in s.cx.scope :: x in scope && scope[x] == s.cx.scope[x]
    ensures Ready(s.(cx := s.cx.(scope := scope)))
  {
    var cx1 := s.cx.(scope := scope);
    forall i | 0 <= i < |cx1.loops| ensures LoopReady(cx1, cx1.loops[i], s.env, s.n) {
      assert LoopReady(s.cx, s.cx.loops[i], s.env, s.n);
    }
  }

  /** The scope an expression is planned under does not show in where its code ends up. */
  lemma WiderScopeSimulates(h: Host, s: Spot, scope: Scope, r: Result, fuel: nat, steps: nat, k: Config)
    requires Simulates(h, s.(cx := s.cx.(scope := scope)), r, fuel, steps, k)
    ensures Simulates(h, s, r, fuel, steps, k)
  {}

  lemma MeaningOfDo(h: Host, ss: Stmts, env: Env, tr: Trace, fuel: nat)
    requires ss.Do?
    ensures var v := Eval(h, ss.value, env, tr, fuel);
            EvalStmts(h, ss, env, tr, fuel) ==
              if !(v.Done? && v.completion.Normal?) then v else EvalStmts(h, ss.rest, env, v.trace, fuel)
  {}

  lemma PlanOfDo(p: Plan, cx: Ctx, ss: Stmts, target: nat, next: nat)
    requires ss.Do?
    ensures var rest := CompileStmts(p, cx, ss.rest, target, next);
            var code := CompileExpr(Slots(rest.plan, 1), cx.(scope := rest.scope), ss.value, rest.plan.nextSlot, rest.entry);
            CompileStmts(p, cx, ss, target, next) == StmtCode(code.plan, code.entry, rest.scope)
  {}

  lemma PartsOfStmts(ss: Stmts, s: Spot)
    requires StmtsScoped(ss, s)
    ensures ss.Do? ==> Scoped(ss.value, s) && StmtsScoped(ss.rest, s)
    ensures ss.Let? ==> Scoped(ss.value, s) && ss.name !in s.env
    ensures ss.Let? ==> StmtsWellFormed(ss.rest, s.env.Keys + {ss.name}, Sigs(s.cx.loops), BlockTargets(s.cx.blocks))
    ensures ss.Return? && ss.result.Some? ==> Scoped(ss.result.value, s)
    ensures ss.Return? && ss.target.FromBlock? ==> Innermost(BlockTargets(s.cx.blocks), ss.target.block).Some?
  {}

  lemma SimulateDo(h: Host, t: Table, p: Plan, ss: Stmts, mid: nat, s: Spot, fuel: nat) returns (steps: nat, k: Config)
    requires ss.Do? && StmtsScoped(ss, s) && EntersStmts(t, p, ss, mid, s)
    ensures k == Run(h, t, s.c, steps) && Simulates(h, s, EvalStmts(h, ss, s.env, s.c.trace, fuel), fuel, steps, k)
    decreases fuel, ss, 0
  {
    hide Eval, EvalStmts, CompileExpr, CompileStmts, Run, Covers, Simulates, Ready;
    var cx := s.cx;
    MeaningOfDo(h, ss, s.env, s.c.trace, fuel);
    PlanOfDo(p, cx, ss, s.target, mid);
    PartsOfStmts(ss, s);
    var rest := CompileStmts(p, cx, ss.rest, s.target, mid);
    var d := rest.plan.nextSlot;
    var whole := CompileExpr(Slots(rest.plan, 1), cx.(scope := rest.scope), ss.value, d, rest.entry);
    CoversPrefix(t, rest.plan, whole.plan);
    ScopeAfter(p, ss.rest, mid, s);
    WiderScopeReady(s, rest.scope);
    var wide := s.(cx := cx.(scope := rest.scope));
    Starts(h, t, wide);
    var a, ka := SimulateOperand(h, t, Slots(rest.plan, 1), ss.value, d, rest.entry, wide, s.c, 0, fuel);
    var v := Eval(h, ss.value, s.env, s.c.trace, fuel);
    if !(v.Done? && v.completion.Normal?) {
      WiderScopeSimulates(h, s, rest.scope, v, fuel, a, ka);
      return a, ka;
    }
    var s1 := s.(c := ka);
    ReadyLater(s, s1);
    var b, kb := SimulateStmts(h, t, p, ss.rest, mid, s1, fuel);
    RunAdds(h, t, s.c, a, b);
    SimulatesFrom(h, s, s1, EvalStmts(h, ss.rest, s.env, v.trace, fuel), fuel, a, b, kb);
    return a + b, kb;
  }

  lemma ScopeAfter(p: Plan, ss: Stmts, mid: nat, s: Spot)
    requires StmtsScoped(ss, s) && Ready(s)
    ensures var sc := CompileStmts(p, s.cx, ss, s.target, mid).scope;
            forall x | x in s.env && x in s.cx.scope :: x in sc && sc[x] == s.cx.scope[x]
  {
    LaterLetsKeepScope(p, s.cx, ss, s.target, mid, s.env.Keys, Sigs(s.cx.loops), BlockTargets(s.cx.blocks));
  }

  // ----- return -----

  lemma MeaningOfReturn(h: Host, ss: Stmts, env: Env, tr: Trace, fuel: nat)
    requires ss.Return?
    ensures var v := Eval(h, ReturnValue(ss), env, tr, fuel);
            EvalStmts(h, ss, env, tr, fuel) ==
              if !(v.Done? && v.completion.Normal?) then v else Done(ReturnCompletion(ss, v.completion.value), v.trace)
  {}

  function ReturnValue(ss: Stmts): Expr
    requires ss.Return?
    ensures ss.result.Some? ==> ReturnValue(ss) == ss.result.value
  {
    if ss.result.Some? then ss.result.value else UNIT
  }

  function ReturnCompletion(ss: Stmts, v: Value): Completion
    requires ss.Return?
  {
    if ss.target.FromCallable? then Returned(v) else LeftBlock(ss.target.block, v)
  }

  function BlockOf(s: Spot, target: nat): BlockExit
    requires Innermost(BlockTargets(s.cx.blocks), target).Some?
  {
    s.cx.blocks[Innermost(BlockTargets(s.cx.blocks), target).value]
  }

  lemma BlockOfReady(s: Spot, target: nat)
    requires Ready(s) && Innermost(BlockTargets(s.cx.blocks), target).Some?
    ensures BlockOf(s, target).depth <= s.cx.depth && ResultSlot(s.cx, BlockOf(s, target).result)
  {}

  function ReturnActions(ss: Stmts, s: Spot, slot: nat): seq<Action>
    requires ss.Return? && (ss.target.FromBlock? ==> Innermost(BlockTargets(s.cx.blocks), ss.target.block).Some?)
  {
    if ss.target.FromCallable? then []
    else [Store(BlockOf(s, ss.target.block).result, Slot(slot)), UnwindCleanupScopes(BlockOf(s, ss.target.block).depth)]
  }

  function ReturnJump(ss: Stmts, s: Spot, slot: nat): Terminal
    requires ss.Return? && (ss.target.FromBlock? ==> Innermost(BlockTargets(s.cx.blocks), ss.target.block).Some?)
  {
    if ss.target.FromCallable? then ReturnSlot(slot) else Goto(BlockOf(s, ss.target.block).exit)
  }

  lemma PlanOfReturn(p: Plan, ss: Stmts, s: Spot, mid: nat)
    requires ss.Return? && (ss.target.FromBlock? ==> Innermost(BlockTargets(s.cx.blocks), ss.target.block).Some?)
    ensures var r := p.nextSlot;
            var leave := Emit(Slots(p, 1), s.cx, s.cx.depth, ReturnActions(ss, s, r), ReturnJump(ss, s, r));
            var code := CompileExpr(leave.plan, s.cx, ReturnValue(ss), r, leave.entry);
            CompileStmts(p, s.cx, ss, s.target, mid) == StmtCode(code.plan, code.entry, s.cx.scope)
  {
    UnitPlan(Emit(Slots(p, 1), s.cx, s.cx.depth, ReturnActions(ss, s, p.nextSlot), ReturnJump(ss, s, p.nextSlot)).plan,
             s.cx, p.nextSlot, |p.entries|);
  }

  lemma SimulateReturn(h: Host, t: Table, p: Plan, ss: Stmts, mid: nat, s: Spot, fuel: nat) returns (steps: nat, k: Config)
    requires ss.Return? && StmtsScoped(ss, s) && EntersStmts(t, p, ss, mid, s)
    ensures k == Run(h, t, s.c, steps) && Simulates(h, s, EvalStmts(h, ss, s.env, s.c.trace, fuel), fuel, steps, k)
    decreases fuel, ss, 0
  {
    hide Eval, EvalStmts, CompileExpr, CompileStmts, Run, Covers, Ready, StmtsScoped, Step, Scoped, Leaves, HaltOwed;
    var n, cx := p.nextSlot, s.cx;
    PartsOfStmts(ss, s);
    MeaningOfReturn(h, ss, s.env, s.c.trace, fuel);
    PlanOfReturn(p, ss, s, mid);
    var actions, jump := ReturnActions(ss, s, n), ReturnJump(ss, s, n);
    var leave := Emit(Slots(p, 1), cx, cx.depth, actions, jump);
    var whole := CompileExpr(leave.plan, cx, ReturnValue(ss), n, leave.entry);
    Emitted(t, Slots(p, 1), cx, cx.depth, actions, jump, whole.plan);
    Starts(h, t, s);
    var a, ka;
    var v := Eval(h, ReturnValue(ss), s.env, s.c.trace, fuel);
    if ss.result.Some? {
      a, ka := SimulateOperand(h, t, leave.plan, ss.result.value, n, leave.entry, s, s.c, 0, fuel);
      if !(v.Done? && v.completion.Normal?) { return a, ka; }
    } else {
      a, ka := UnitOperand(h, t, leave.plan, n, leave.entry, s, fuel);
    }
    RunOne(h, t, s.c, a, ka);
    steps, k := a + 1, Step(h, t, ka);
    if ss.target.FromCallable? {
      JumpStep(h, t, cx.scope, jump, ka);
      ReturnsHere(h, s, ka, v.completion.value);
    } else {
      BlockOfReady(s, ss.target.block);
      var block := BlockOf(s, ss.target.block);
      ExitStep(h, t, s, ka, block.result, Slot(n), v.completion.value, block.depth, block.exit,
               LeftBlock(ss.target.block, v.completion.value), cx.scope);
    }
  }

  lemma UnitOperand(h: Host, t: Table, p: Plan, slot: nat, mid: nat, s: Spot, fuel: nat) returns (steps: nat, k: Config)
    requires Ready(s) && s.n <= slot < p.nextSlot
    requires var code := CompileExpr(p, s.cx, UNIT, slot, mid); Covers(t, code.plan) && s.c.pc == code.entry
    ensures k == Run(h, t, s.c, steps)
    ensures Eval(h, UNIT, s.env, s.c.trace, fuel) == Done(Normal(Undefined), s.c.trace)
    ensures Within(s, k) && k.pc == mid && k.trace == s.c.trace && Read(k.locals, slot) == Undefined
  {
    hide Eval, CompileFor;
    var s1 := s.(n := p.nextSlot, w := iset{slot}, target := slot, next := mid, d := s.cx.depth);
    ReadyLater(s, s1);
    steps, k := SimulateAtomic(h, t, p, UNIT, s1, fuel);
    UnitMeaning(h, s.env, s.c.trace, fuel);
    Arrived(h, s1, Done(Normal(Undefined), s.c.trace), fuel, steps, k);
  }

  lemma ReturnsHere(h: Host, s: Spot, m: Config, v: Value)
    requires Ready(s) && Within(s, m)
    ensures Halt(h, m.scopes, m.locals, Done(Returned(v), m.trace)) == HaltOwed(h, s.owed, Done(Returned(v), m.trace))
  {
    OwesKept(s.c.scopes, s.c.locals, m.locals, s.owed, s.n, s.w);
    HaltIsOwed(h, m.scopes, m.locals, s.owed, Done(Returned(v), m.trace));
  }

  // ----- let -----

  /** What is owed once a cleanup has been added to the innermost scope. */
  function Owing(owed: seq<seq<Owed>>, o: Owed): seq<seq<Owed>>
    requires |owed| > 0
  {
    owed[..|owed| - 1] + [owed[|owed| - 1] + [o]]
  }

  /** Unwinding a scope runs the newest cleanup first. */
  lemma NewestFirst(h: Host, owed: seq<seq<Owed>>, o: Owed, d: nat, r: Result)
    requires |owed| > 0 && d < |owed|
    ensures UnwindOwed(h, Owing(owed, o), d, r) == UnwindOwed(h, owed, d, Close(h, o.closer, o.value, r))
  {
    var last := |owed| - 1;
    assert Owing(owed, o)[..last] == owed[..last];
    assert (owed[last] + [o])[..|owed[last]|] == owed[last];
  }

  /** `s1` is a later piece of the code of `s` that may have more names in scope. */
  ghost predicate Inner(s: Spot, s1: Spot) {
    && s1.cx == s.cx.(scope := s1.cx.scope) && Agrees(s.env, s1.env)
    && s1.target == s.target && s1.next == s.next && s1.d == s.d
    && s.c.Running? && s1.c.Running? && Frame(s.c.locals, s1.c.locals, s.n, s.w)
    && s.n <= s1.n && forall x: nat | x < s.n && x in s1.w :: x in s.w
  }

  lemma InnerWrites(s: Spot, s1: Spot, k: Config, extra: iset<nat>)
    requires Inner(s, s1) && Writes(s1, k, extra)
    ensures Writes(s, k, extra)
  {
    FrameChain(s.c.locals, s1.c.locals, s.n, s.w, k.locals, s1.n, s1.w + extra, s.w + extra);
  }

  lemma SimulatesInner(h: Host, s: Spot, s1: Spot, r: Result, fuel: nat, a: nat, b: nat, k: Config)
    requires Ready(s) && Inner(s, s1) && s1.owed == s.owed && s1.c.scopes == s.c.scopes
    requires Simulates(h, s1, r, fuel, b, k)
    ensures Simulates(h, s, r, fuel, a + b, k)
  {
    if r.Done? && k.Running? {
      match r.completion
      case Normal(_) => InnerWrites(s, s1, k, iset{});
      case Broke(target, v) => InnerWrites(s, s1, k, iset{LoopOf(s, target).result});
      case Continued(target, updates) =>
        LoopOfReady(s, target);
        InnerWrites(s, s1, k, Span(LoopOf(s, target).first, |LoopOf(s, target).sig.names|));
      case LeftBlock(target, v) => InnerWrites(s, s1, k, iset{BlockOf(s, target).result});
      case _ =>
    }
  }

  /** Leaving to a depth below the innermost scope, the newest cleanup of that scope has run first. */
  lemma LeavesOwing(h: Host, s: Spot, s1: Spot, o: Owed, p: Pending, d: nat, pc: nat, r: Result, k: Config)
    requires Ready(s) && s1.owed == Owing(s.owed, o) && s1.c.Running? && s1.c.scopes == Top(s.c.scopes, p)
    requires d < s.cx.depth && r.Done?
    requires Leaves(h, s1, d, pc, r, k)
    ensures Leaves(h, s, d, pc, Close(h, o.closer, o.value, r), k)
    ensures Close(h, o.closer, o.value, r).completion.Threw? ==> k == HaltOwed(h, s.owed, Close(h, o.closer, o.value, r))
  {
    var r1 := Close(h, o.closer, o.value, r);
    NewestFirst(h, s.owed, o, d, r);
    assert Keep(s1.owed, d) == Keep(s.owed, d);
    assert Keep(s1.c.scopes, d) == Keep(s.c.scopes, d);
    UnwindOwedShape(h, s.owed, d, r1);
    UnwindOwedSplits(h, s.owed, d, 0, r1);
  }

  lemma OwedAsOpen(s: Spot)
    requires Ready(s)
    ensures |s.owed| == s.cx.depth > 0
  {}

  /** `s1` is inside the scope in which `s` has just registered the cleanup `p`. */
  ghost predicate NewlyOwing(s: Spot, s1: Spot, o: Owed, p: Pending) {
    && Ready(s) && Inner(s, s1) && s1.owed == Owing(s.owed, o) && s1.c.scopes == Top(s.c.scopes, p)
    && s.d < s.cx.depth && Outside(s.cx, s.d)
  }

  lemma OwingLeft(h: Host, s: Spot, s1: Spot, o: Owed, p: Pending, r: Result, k: Config)
    requires NewlyOwing(s, s1, o, p)
    requires r.Done? && r.completion.Normal? && Simulates(h, s1, r, 0, 0, k)
    ensures Simulates(h, s, Close(h, o.closer, o.value, r), 0, 0, k)
  {
    hide Leaves, UnwindOwed, Ready, Writes;
    LeavesOwing(h, s, s1, o, p, s.d, s.next, r, k);
    if k.Running? { InnerWrites(s, s1, k, iset{}); }
  }

  lemma OwingBroke(h: Host, s: Spot, s1: Spot, o: Owed, p: Pending, r: Result, k: Config)
    requires NewlyOwing(s, s1, o, p)
    requires r.Done? && r.completion.Broke? && Simulates(h, s1, r, 0, 0, k)
    ensures Simulates(h, s, Close(h, o.closer, o.value, r), 0, 0, k)
  {
    hide Leaves, UnwindOwed, Ready, Writes;
    var loop := LoopOf(s, r.completion.loop);
    LeavesOwing(h, s, s1, o, p, loop.depth, loop.exit, r, k);
    if k.Running? { InnerWrites(s, s1, k, iset{loop.result}); }
  }

  lemma OwingContinued(h: Host, s: Spot, s1: Spot, o: Owed, p: Pending, r: Result, k: Config)
    requires NewlyOwing(s, s1, o, p)
    requires r.Done? && r.completion.Continued? && Simulates(h, s1, r, 0, 0, k)
    ensures Simulates(h, s, Close(h, o.closer, o.value, r), 0, 0, k)
  {
    hide Leaves, UnwindOwed, Ready, Writes;
    LoopOfReady(s, r.completion.loop);
    var loop := LoopOf(s, r.completion.loop);
    LeavesOwing(h, s, s1, o, p, loop.continueDepth, loop.head, r, k);
    if k.Running? { InnerWrites(s, s1, k, Span(loop.first, |loop.sig.names|)); }
  }

  lemma OwingExited(h: Host, s: Spot, s1: Spot, o: Owed, p: Pending, r: Result, k: Config)
    requires NewlyOwing(s, s1, o, p)
    requires r.Done? && r.completion.LeftBlock? && Simulates(h, s1, r, 0, 0, k)
    ensures Simulates(h, s, Close(h, o.closer, o.value, r), 0, 0, k)
  {
    hide Leaves, UnwindOwed, Ready, Writes;
    var block := BlockOf(s, r.completion.block);
    LeavesOwing(h, s, s1, o, p, block.depth, block.exit, r, k);
    if k.Running? { InnerWrites(s, s1, k, iset{block.result}); }
  }

  lemma SimulatesOwing(h: Host, s: Spot, s1: Spot, o: Owed, p: Pending, r: Result, fuel: nat, a: nat, b: nat, k: Config)
    requires NewlyOwing(s, s1, o, p) && Simulates(h, s1, r, fuel, b, k)
    ensures Simulates(h, s, Close(h, o.closer, o.value, r), fuel, a + b, k)
  {
    hide NormallyLeft, BreaksTo, ContinuesTo, ExitsTo, UnwindOwed, Ready, Outside;
    if r.Done? {
      match r.completion
      case Normal(_) => OwingLeft(h, s, s1, o, p, r, k);
      case Broke(_, _) => OwingBroke(h, s, s1, o, p, r, k);
      case Continued(_, _) => OwingContinued(h, s, s1, o, p, r, k);
      case LeftBlock(_, _) => OwingExited(h, s, s1, o, p, r, k);
      case Returned(_) => OwedAsOpen(s); NewestFirst(h, s.owed, o, 0, r);
      case Threw(_) => OwedAsOpen(s); NewestFirst(h, s.owed, o, 0, r);
    }
  }

  function LetOwed(s: Spot, closer: Option<string>, v: Value): seq<seq<Owed>>
    requires closer.Some? ==> |s.owed| > 0
  {
    if closer.None? then s.owed else Owing(s.owed, Owed(closer.value, v))
  }

  function LetScopes(s: Spot, closer: Option<string>, slot: nat): seq<seq<Pending>>
    requires s.c.Running? && (closer.Some? ==> |s.c.scopes| > 0)
  {
    if closer.None? then s.c.scopes else Top(s.c.scopes, Pending(closer.value, slot))
  }

  /** The statements after a let, entered with its value in its slot and its cleanup registered. */
  function LetSpot(s: Spot, name: string, closer: Option<string>, v: Value, m: Config, entry: nat): Spot
    requires s.c.Running? && m.Running? && (closer.Some? ==> |s.c.scopes| > 0 && |s.owed| > 0)
  {
    s.(cx := s.cx.(scope := s.cx.scope[name := s.n]), env := s.env[name := v], n := s.n + 1,
       c := Running(entry, m.locals[s.n := v], LetScopes(s, closer, s.n), m.trace), owed := LetOwed(s, closer, v))
  }

  lemma OwesOneMore(scopes: seq<seq<Pending>>, l: Locals, owed: seq<seq<Owed>>, p: Pending)
    requires |scopes| > 0 && Owes(scopes, l, owed)
    ensures Owes(Top(scopes, p), l, Owing(owed, Owed(p.closer, Read(l, p.slot))))
  {
    var scopes1, owed1 := Top(scopes, p), Owing(owed, Owed(p.closer, Read(l, p.slot)));
    forall i | 0 <= i < |scopes1| ensures OwesScope(scopes1[i], l, owed1[i]) {
      assert OwesScope(scopes[i], l, owed[i]);
    }
  }

  lemma LetSpotReady(s: Spot, name: string, closer: Option<string>, v: Value, m: Config, entry: nat)
    requires Ready(s) && Within(s, m) && name !in s.env && s.w == iset{s.target} && s.target < s.n
    ensures Ready(LetSpot(s, name, closer, v, m, entry)) && Inner(s, LetSpot(s, name, closer, v, m, entry))
  {
    var s1 := LetSpot(s, name, closer, v, m, entry);
    forall i | 0 <= i < |s1.cx.loops| ensures LoopReady(s1.cx, s1.cx.loops[i], s1.env, s1.n) {
      assert LoopReady(s.cx, s.cx.loops[i], s.env, s.n);
    }
    OwesAfterStore(s, m, s.n, v);
    if closer.Some? { OwesOneMore(m.scopes, s1.c.locals, s.owed, Pending(closer.value, s.n)); }
    LetScopesReady(s, s1, closer);
  }

  lemma LetScopesReady(s: Spot, s1: Spot, closer: Option<string>)
    requires Ready(s) && s1.n == s.n + 1 && s1.w == s.w == iset{s.target} && s.target < s.n
    requires s1.cx == s.cx.(scope := s1.cx.scope)
    ensures ScopesReady(s1.cx, s1.n, s1.w, LetScopes(s, closer, s.n))
  {
    forall i | 0 <= i < |s.cx.loops| ensures s.cx.loops[i].result < s.n {
      assert LoopReady(s.cx, s.cx.loops[i], s.env, s.n);
    }
    assert !ResultSlot(s1.cx, s.n);
    forall x | ResultSlot(s1.cx, x) ensures ResultSlot(s.cx, x) {}
  }

  function LetActions(closer: Option<string>, slot: nat, temporary: nat): seq<Action> {
    [Store(slot, Slot(temporary))] + if closer.Some? then [RegisterCleanup(closer.value, slot)] else []
  }

  lemma LetStep(h: Host, t: Table, sc: Scope, s: Spot, name: string, closer: Option<string>, v: Value, temporary: nat, entry: nat, m: Config)
    requires Ready(s) && Within(s, m) && Read(m.locals, temporary) == v
    requires m.pc < |t| && t[m.pc] == State(sc, LetActions(closer, s.n, temporary), Goto(entry))
    ensures Step(h, t, m) == LetSpot(s, name, closer, v, m, entry).c
  {
    if closer.None? {
      assert LetActions(closer, s.n, temporary) == [Store(s.n, Slot(temporary))];
      ActOne(h, sc, Store(s.n, Slot(temporary)), m.locals, m.scopes, m.trace);
    } else {
      assert LetActions(closer, s.n, temporary) == [Store(s.n, Slot(temporary)), RegisterCleanup(closer.value, s.n)];
      ActTwo(h, sc, Store(s.n, Slot(temporary)), RegisterCleanup(closer.value, s.n), m.locals, m.scopes, m.trace);
    }
  }

  lemma MeaningOfLet(h: Host, ss: Stmts, env: Env, tr: Trace, fuel: nat)
    requires ss.Let?
    ensures var v := Eval(h, ss.value, env, tr, fuel);
            EvalStmts(h, ss, env, tr, fuel) ==
              if !(v.Done? && v.completion.Normal?) then v else
              CloseLet(h, ss.closer, v.completion.value, EvalStmts(h, ss.rest, env[ss.name := v.completion.value], v.trace, fuel))
  {}

  function CloseLet(h: Host, closer: Option<string>, v: Value, r: Result): Result {
    if closer.None? then r else Close(h, closer.value, v, r)
  }

  lemma PlanOfLet(p: Plan, cx: Ctx, ss: Stmts, target: nat, next: nat)
    requires ss.Let?
    ensures var rest := CompileStmts(Slots(p, 1), cx.(scope := cx.scope[ss.name := p.nextSlot]), ss.rest, target, next);
            var v := rest.plan.nextSlot;
            var init := Emit(Slots(rest.plan, 1), cx.(scope := rest.scope), cx.depth, LetActions(ss.closer, p.nextSlot, v), Goto(rest.entry));
            var code := CompileExpr(init.plan, cx, ss.value, v, init.entry);
            CompileStmts(p, cx, ss, target, next) == StmtCode(code.plan, code.entry, rest.scope)
  {}

  lemma SimulateLet(h: Host, t: Table, p: Plan, ss: Stmts, mid: nat, s: Spot, fuel: nat) returns (steps: nat, k: Config)
    requires ss.Let? && StmtsScoped(ss, s) && EntersStmts(t, p, ss, mid, s)
    ensures k == Run(h, t, s.c, steps) && Simulates(h, s, EvalStmts(h, ss, s.env, s.c.trace, fuel), fuel, steps, k)
    decreases fuel, ss, 0
  {
    hide Eval, EvalStmts, CompileExpr, CompileStmts, Run, Covers, Simulates, Ready, StmtsScoped, Step, Scoped, StmtsWellFormed, Inner;
    var n, cx := p.nextSlot, s.cx;
    MeaningOfLet(h, ss, s.env, s.c.trace, fuel);
    PlanOfLet(p, cx, ss, s.target, mid);
    PartsOfStmts(ss, s);
    var rest := CompileStmts(Slots(p, 1), cx.(scope := cx.scope[ss.name := n]), ss.rest, s.target, mid);
    var v := rest.plan.nextSlot;
    var actions := LetActions(ss.closer, n, v);
    var init := Emit(Slots(rest.plan, 1), cx.(scope := rest.scope), cx.depth, actions, Goto(rest.entry));
    var whole := CompileExpr(init.plan, cx, ss.value, v, init.entry);
    Emitted(t, Slots(rest.plan, 1), cx.(scope := rest.scope), cx.depth, actions, Goto(rest.entry), whole.plan);
    CoversPrefix(t, rest.plan, Slots(rest.plan, 1));
    Starts(h, t, s);
    var a, ka := SimulateOperand(h, t, init.plan, ss.value, v, init.entry, s, s.c, 0, fuel);
    var r := Eval(h, ss.value, s.env, s.c.trace, fuel);
    if !(r.Done? && r.completion.Normal?) { return a, ka; }
    var value := r.completion.value;
    Deep(s);
    LetStep(h, t, rest.scope, s, ss.name, ss.closer, value, v, rest.entry, ka);
    RunOne(h, t, s.c, a, ka);
    LetSpotReady(s, ss.name, ss.closer, value, ka, rest.entry);
    var s1 := LetSpot(s, ss.name, ss.closer, value, ka, rest.entry);
    LetStmtsScoped(ss, s, s1);
    var b, kb := SimulateStmts(h, t, Slots(p, 1), ss.rest, mid, s1, fuel);
    RunAdds(h, t, s.c, a + 1, b);
    var inner := EvalStmts(h, ss.rest, s1.env, r.trace, fuel);
    if ss.closer.None? {
      SimulatesInner(h, s, s1, inner, fuel, a + 1, b, kb);
    } else {
      SimulatesOwing(h, s, s1, Owed(ss.closer.value, value), Pending(ss.closer.value, n), inner, fuel, a + 1, b, kb);
    }
    return a + 1 + b, kb;
  }

  lemma Deep(s: Spot)
    requires Ready(s)
    ensures s.c.Running? && |s.c.scopes| == |s.owed| == s.cx.depth > 0
  {}

  lemma LetStmtsScoped(ss: Stmts, s: Spot, s1: Spot)
    requires ss.Let? && s1.env.Keys == s.env.Keys + {ss.name} && s1.cx.loops == s.cx.loops && s1.cx.blocks == s.cx.blocks
    requires StmtsWellFormed(ss.rest, s.env.Keys + {ss.name}, Sigs(s.cx.loops), BlockTargets(s.cx.blocks))
    ensures StmtsScoped(ss.rest, s1)
  {}

  // ----- a block as an expression -----

  /** The body of a managed block, entered with a scope of its own. */
  function ManagedSpot(s: Spot, entry: nat): Spot
    requires s.c.Running?
  {
    s.(cx := s.cx.(depth := s.cx.depth + 1), c := s.c.(pc := entry, scopes := s.c.scopes + [[]]), owed := s.owed + [[]])
  }

  lemma ManagedSpotReady(s: Spot, entry: nat)
    requires Ready(s)
    ensures Ready(ManagedSpot(s, entry)) && Outside(s.cx, s.cx.depth)
  {
    var s1 := ManagedSpot(s, entry);
    forall i | 0 <= i < |s1.cx.loops| ensures LoopReady(s1.cx, s1.cx.loops[i], s1.env, s1.n) {
      assert LoopReady(s.cx, s.cx.loops[i], s.env, s.n);
    }
    forall i | 0 <= i < |s1.c.scopes| ensures OwesScope(s1.c.scopes[i], s1.c.locals, s1.owed[i]) {
      if i < |s.c.scopes| { assert OwesScope(s.c.scopes[i], s.c.locals, s.owed[i]); }
    }
    assert forall x | ResultSlot(s1.cx, x) :: ResultSlot(s.cx, x);
  }

  /** An empty scope owes nothing. */
  lemma EmptyScopeOwes(h: Host, owed: seq<seq<Owed>>, d: nat, r: Result)
    requires d <= |owed|
    ensures UnwindOwed(h, owed + [[]], d, r) == UnwindOwed(h, owed, d, r)
  {
    assert (owed + [[]])[..|owed|] == owed;
  }

  lemma LeavesManaged(h: Host, s: Spot, entry: nat, d: nat, pc: nat, r: Result, k: Config)
    requires Ready(s) && d <= s.cx.depth && Leaves(h, ManagedSpot(s, entry), d, pc, r, k)
    ensures Leaves(h, s, d, pc, r, k)
  {
    EmptyScopeOwes(h, s.owed, d, r);
    assert Keep(s.owed + [[]], d) == Keep(s.owed, d);
    assert Keep(s.c.scopes + [[]], d) == Keep(s.c.scopes, d);
  }

  lemma SimulatesManaged(h: Host, s: Spot, entry: nat, r: Result, fuel: nat, a: nat, b: nat, k: Config)
    requires Ready(s) && s.d == s.cx.depth && Simulates(h, ManagedSpot(s, entry), r, fuel, b, k)
    ensures Simulates(h, s, r, fuel, a + b, k)
  {
    hide Leaves;
    if r.Done? {
      match r.completion
      case Normal(_) => LeavesManaged(h, s, entry, s.d, s.next, r, k);
      case Broke(target, v) =>
        LoopOfReady(s, target);
        LeavesManaged(h, s, entry, LoopOf(s, target).depth, LoopOf(s, target).exit, r, k);
      case Continued(target, updates) =>
        LoopOfReady(s, target);
        LeavesManaged(h, s, entry, LoopOf(s, target).continueDepth, LoopOf(s, target).head, r, k);
      case LeftBlock(target, v) =>
        BlockOfReady(s, target);
        LeavesManaged(h, s, entry, BlockOf(s, target).depth, BlockOf(s, target).exit, r, k);
      case Returned(_) => EmptyScopeOwes(h, s.owed, 0, r);
      case Threw(_) => EmptyScopeOwes(h, s.owed, 0, r);
    }
  }

  lemma MeaningOfBlock(h: Host, e: Expr, env: Env, tr: Trace, fuel: nat)
    requires e.Block?
    ensures Eval(h, e, env, tr, fuel) == EvalStmts(h, e.stmts, env, tr, fuel)
  {}

  lemma PlanOfBlock(p: Plan, cx: Ctx, e: Expr, target: nat, next: nat)
    requires e.Block?
    ensures !Managed(e.stmts) ==>
              var body := CompileStmts(p, cx, e.stmts, target, next);
              CompileExpr(p, cx, e, target, next) == Code(body.plan, body.entry)
    ensures Managed(e.stmts) ==>
              var leave := Emit(p, cx, cx.depth + 1, [UnwindCleanupScopes(cx.depth)], Goto(next));
              var body := CompileStmts(leave.plan, cx.(depth := cx.depth + 1), e.stmts, target, leave.entry);
              CompileExpr(p, cx, e, target, next) == Emit(body.plan, cx, cx.depth, [EnterCleanupScope], Goto(body.entry))
  {}

  lemma PartsOfBlock(e: Expr, s: Spot)
    requires e.Block? && Scoped(e, s)
    ensures StmtsWellFormed(e.stmts, s.env.Keys, Sigs(s.cx.loops), BlockTargets(s.cx.blocks))
  {}

  lemma EnterStep(h: Host, t: Table, sc: Scope, s: Spot, entry: nat)
    requires s.c.Running? && s.c.pc < |t| && t[s.c.pc] == State(sc, [EnterCleanupScope], Goto(entry))
    ensures Step(h, t, s.c) == ManagedSpot(s, entry).c
  {
    ActOne(h, sc, EnterCleanupScope, s.c.locals, s.c.scopes, s.c.trace);
  }

  lemma SimulateBlock(h: Host, t: Table, p: Plan, e: Expr, s: Spot, fuel: nat) returns (steps: nat, k: Config)
    requires e.Block?
    requires Scoped(e, s) && Enters(t, p, CompileExpr(p, s.cx, e, s.target, s.next), s)
    ensures k == Run(h, t, s.c, steps) && Simulates(h, s, Eval(h, e, s.env, s.c.trace, fuel), fuel, steps, k)
    decreases fuel, e, 2
  {
    hide Eval, EvalStmts, CompileExpr, CompileStmts, Run, Covers, Simulates, Ready, Scoped, Step, StmtsWellFormed, Managed;
    var cx := s.cx;
    PartsOfBlock(e, s);
    MeaningOfBlock(h, e, s.env, s.c.trace, fuel);
    PlanOfBlock(p, cx, e, s.target, s.next);
    Deep(s);
    ManagedSpotReady(s, 0);
    if !Managed(e.stmts) {
      steps, k := SimulateStmts(h, t, p, e.stmts, s.next, s, fuel);
    } else {
      var leave := Emit(p, cx, cx.depth + 1, [UnwindCleanupScopes(cx.depth)], Goto(s.next));
      var body := CompileStmts(leave.plan, cx.(depth := cx.depth + 1), e.stmts, s.target, leave.entry);
      Emitted(t, body.plan, cx, cx.depth, [EnterCleanupScope], Goto(body.entry), CompileExpr(p, cx, e, s.target, s.next).plan);
      Emitted(t, p, cx, cx.depth + 1, [UnwindCleanupScopes(cx.depth)], Goto(s.next), body.plan);
      EnterStep(h, t, cx.scope, s, body.entry);
      Starts(h, t, s);
      RunOne(h, t, s.c, 0, s.c);
      ManagedSpotReady(s, body.entry);
      var b, kb := SimulateStmts(h, t, leave.plan, e.stmts, leave.entry, ManagedSpot(s, body.entry), fuel);
      RunAdds(h, t, s.c, 1, b);
      SimulatesManaged(h, s, body.entry, EvalStmts(h, e.stmts, s.env, s.c.trace, fuel), fuel, 1, b, kb);
      steps, k := 1 + b, kb;
    }
  }

  // ----- match -----

  lemma {:induction false} BindAllLookup(scope: Scope, names: seq<string>, first: nat)
    requires Distinct(names)
    ensures var r := BindAll(scope, names, first);
            && (forall j | 0 <= j < |names| :: names[j] in r && r[names[j]] == first + j)
            && (forall x | x !in names && x in scope :: x in r && r[x] == scope[x])
    decreases |names|
  {
    if |names| > 0 {
      var scope1 := scope[names[0] := first];
      BindAllLookup(scope1, names[1..], first + 1);
      assert names[0] !in names[1..];
      var r := BindAll(scope, names, first);
      forall j | 0 <= j < |names| ensures names[j] in r && r[names[j]] == first + j {
        if j > 0 { assert names[j] == names[1..][j - 1]; }
      }
    }
  }

  lemma {:induction false} BindSlotsRead(l: Locals, names: seq<string>, first: nat, bound: Env)
    requires forall j | 0 <= j < |names| :: names[j] in bound
    ensures var r := BindSlots(l, names, first, bound);
            && (forall j | 0 <= j < |names| :: Read(r, first + j) == bound[names[j]])
            && (forall x: nat | !InSpan(first, |names|, x) :: Read(r, x) == Read(l, x))
    decreases |names|
  {
    if |names| > 0 {
      var l1 := l[first := bound[names[0]]];
      BindSlotsRead(l1, names[1..], first + 1, bound);
      var r := BindSlots(l, names, first, bound);
      forall j | 0 <= j < |names| ensures Read(r, first + j) == bound[names[j]] {
        if j > 0 { assert Read(r, first + 1 + (j - 1)) == bound[names[1..][j - 1]]; }
        else { assert !InSpan(first + 1, |names[1..]|, first); }
      }
      forall x: nat | !InSpan(first, |names|, x) ensures Read(r, x) == Read(l, x) {
        assert !InSpan(first + 1, |names[1..]|, x);
      }
    }
  }

  function ArmLocals(l: Locals, pat: Pat, first: nat, bound: Env, flag: nat): Locals {
    BindSlots(l, Names(pat), first, bound)[flag := TRUE]
  }

  /** An arm entered with the names of its pattern bound. */
  function ArmSpot(s: Spot, pat: Pat, first: nat, bound: Env, c: Config): Spot {
    s.(cx := s.cx.(scope := BindAll(s.cx.scope, Names(pat), first)), env := s.env + bound, n := first + |Names(pat)|, c := c)
  }

  ghost predicate ArmBinds(pat: Pat, env: Env, bound: Env) {
    Distinct(Names(pat)) && bound.Keys == NameSet(Names(pat)) && NameSet(Names(pat)) !! env.Keys
  }

  lemma ArmCtxReady(s: Spot, names: seq<string>, first: nat, bound: Env)
    requires CtxReady(s.cx, s.env, s.n) && Distinct(names) && bound.Keys == NameSet(names) && NameSet(names) !! s.env.Keys
    requires s.n <= first
    ensures CtxReady(s.cx.(scope := BindAll(s.cx.scope, names, first)), s.env + bound, first + |names|)
  {
    var cx1 := s.cx.(scope := BindAll(s.cx.scope, names, first));
    BindAllLookup(s.cx.scope, names, first);
    forall i | 0 <= i < |cx1.loops| ensures LoopReady(cx1, cx1.loops[i], s.env + bound, first + |names|) {
      var loop := s.cx.loops[i];
      assert LoopReady(s.cx, loop, s.env, s.n);
      forall j | 0 <= j < |loop.sig.names| ensures loop.sig.names[j] !in NameSet(names) {
        assert loop.sig.names[j] in s.env;
      }
    }
  }

  lemma ArmEnvReady(cx: Ctx, env: Env, n: nat, w: iset<nat>, names: seq<string>, first: nat, bound: Env, l: Locals, l1: Locals)
    requires EnvReady(cx, env, n, w, l) && Distinct(names) && bound.Keys == NameSet(names) && NameSet(names) !! env.Keys
    requires n <= first && forall x | x in w :: x < n
    requires forall x: nat | x < n && x !in w :: Read(l1, x) == Read(l, x)
    requires forall j | 0 <= j < |names| :: Read(l1, first + j) == bound[names[j]]
    ensures EnvReady(cx.(scope := BindAll(cx.scope, names, first)), env + bound, first + |names|, w, l1)
  {
    BindAllLookup(cx.scope, names, first);
    var scope1 := BindAll(cx.scope, names, first);
    forall x | x in env + bound
      ensures x in scope1 && scope1[x] < first + |names| && scope1[x] !in w && Read(l1, scope1[x]) == (env + bound)[x]
    {
      if x in bound {
        assert x in NameSet(names);
        var j :| 0 <= j < |names| && names[j] == x;
        assert scope1[x] == first + j;
      } else {
        assert x !in NameSet(names);
        assert x !in names;
      }
    }
  }

  lemma ArmSpotReady(s: Spot, pat: Pat, first: nat, bound: Env, m: Config, flag: nat, entry: nat)
    requires Ready(s) && Within(s, m) && ArmBinds(pat, s.env, bound) && s.n <= first && s.w == iset{s.target} && s.target < s.n
    requires flag >= first + |Names(pat)|
    ensures var c := Running(entry, ArmLocals(m.locals, pat, first, bound, flag), m.scopes, m.trace);
            Ready(ArmSpot(s, pat, first, bound, c)) && Inner(s, ArmSpot(s, pat, first, bound, c))
  {
    hide CtxReady, EnvReady, BindAll, BindSlots, Owes;
    var names := Names(pat);
    var l := ArmLocals(m.locals, pat, first, bound, flag);
    var c := Running(entry, l, m.scopes, m.trace);
    var s1 := ArmSpot(s, pat, first, bound, c);
    BindSlotsRead(m.locals, names, first, bound);
    forall x: nat | x < s.n ensures Read(l, x) == Read(m.locals, x) {
      assert !InSpan(first, |names|, x);
    }
    ArmCtxReady(s, names, first, bound);
    ArmEnvReady(s.cx, s.env, s.n, s.w, names, first, bound, s.c.locals, l);
    OwesKept(s.c.scopes, s.c.locals, l, s.owed, s.n, s.w);
    assert forall x | ResultSlot(s1.cx, x) :: ResultSlot(s.cx, x);
  }

  /** The code of one arm once its pattern has matched. */
  function Committed(rest: Code, cx: Ctx, arms: Arms, target: nat, next: nat): Code
    requires arms.Arm?
  {
    var inner := cx.(scope := BindAll(cx.scope, Names(arms.pat), rest.plan.nextSlot));
    var body := CompileExpr(Slots(rest.plan, |Names(arms.pat)|), inner, arms.body, target, next);
    if arms.guard.None? then body else
    var g := body.plan.nextSlot;
    var branch := Emit(Slots(body.plan, 1), inner, cx.depth, [], Branch(g, body.entry, rest.entry));
    CompileExpr(branch.plan, inner, arms.guard.value, g, branch.entry)
  }

  lemma PlanOfArms(p: Plan, cx: Ctx, arms: Arms, scrutinee: nat, target: nat, next: nat, fallback: nat)
    requires arms.Arm?
    ensures var rest := CompileArms(p, cx, arms.rest, scrutinee, target, next, fallback);
            var first := rest.plan.nextSlot;
            var inner := cx.(scope := BindAll(cx.scope, Names(arms.pat), first));
            var committed := Committed(rest, cx, arms, target, next);
            CompileArms(p, cx, arms, scrutinee, target, next, fallback) == TestArm(committed, inner, scrutinee, arms.pat, first, rest.entry)
            && Grows(Slots(rest.plan, |Names(arms.pat)|), committed.plan)
  {}

  ghost predicate ArmsScoped(arms: Arms, s: Spot) {
    ArmsWellFormed(arms, s.env.Keys, Sigs(s.cx.loops), BlockTargets(s.cx.blocks))
  }

  lemma PartsOfArms(arms: Arms, v: Value, s: Spot)
    requires arms.Arm? && ArmsScoped(arms, s)
    ensures ArmsScoped(arms.rest, s)
    ensures Matches(arms.pat, v).Some? ==>
      && ArmBinds(arms.pat, s.env, Matches(arms.pat, v).value)
      && var keys := (s.env + Matches(arms.pat, v).value).Keys;
         WellFormed(arms.body, keys, Sigs(s.cx.loops), BlockTargets(s.cx.blocks)) &&
         (arms.guard.Some? ==> WellFormed(arms.guard.value, keys, Sigs(s.cx.loops), BlockTargets(s.cx.blocks)))
  {
    if Matches(arms.pat, v).Some? {
      MatchBindsNames(arms.pat, v);
      assert (s.env + Matches(arms.pat, v).value).Keys == s.env.Keys + NameSet(Names(arms.pat));
    }
  }

  /** The two states that test a pattern: bind and go on to the arm, or fall back. */
  lemma TestStepsAt(h: Host, t: Table, sc: Scope, flag: nat, scrutinee: nat, pat: Pat, first: nat, branch: nat, matched: nat, fallback: nat, m: Config)
    requires m.Running? && m.pc < |t| && branch < |t|
    requires t[m.pc] == State(sc, [StoreMatch(flag, scrutinee, pat, first)], Goto(branch))
    requires t[branch] == State(sc, [], Branch(flag, matched, fallback))
    ensures var r := Matches(pat, Read(m.locals, scrutinee));
            Step(h, t, Step(h, t, m)) ==
              if r.None? then Running(fallback, m.locals[flag := FALSE], m.scopes, m.trace)
              else Running(matched, ArmLocals(m.locals, pat, first, r.value, flag), m.scopes, m.trace)
  {
    ActOne(h, sc, StoreMatch(flag, scrutinee, pat, first), m.locals, m.scopes, m.trace);
    JumpStep(h, t, sc, Branch(flag, matched, fallback), Step(h, t, m));
  }

  lemma TestSteps(h: Host, t: Table, matched: Code, cx: Ctx, scrutinee: nat, pat: Pat, first: nat, fallback: nat, m: Config)
    requires m.Running? && Covers(t, TestArm(matched, cx, scrutinee, pat, first, fallback).plan)
    requires m.pc == TestArm(matched, cx, scrutinee, pat, first, fallback).entry
    ensures var r := Matches(pat, Read(m.locals, scrutinee));
            var flag := matched.plan.nextSlot;
            Step(h, t, Step(h, t, m)) ==
              if r.None? then Running(fallback, m.locals[flag := FALSE], m.scopes, m.trace)
              else Running(matched.entry, ArmLocals(m.locals, pat, first, r.value, flag), m.scopes, m.trace)
    ensures Covers(t, matched.plan)
  {
    var flag := matched.plan.nextSlot;
    var branch := Emit(Slots(matched.plan, 1), cx, cx.depth, [], Branch(flag, matched.entry, fallback));
    var whole := TestArm(matched, cx, scrutinee, pat, first, fallback);
    Emitted(t, branch.plan, cx, cx.depth, [StoreMatch(flag, scrutinee, pat, first)], Goto(branch.entry), whole.plan);
    Emitted(t, Slots(matched.plan, 1), cx, cx.depth, [], Branch(flag, matched.entry, fallback), branch.plan);
    CoversPrefix(t, matched.plan, Slots(matched.plan, 1));
    TestStepsAt(h, t, cx.scope, flag, scrutinee, pat, first, branch.entry, matched.entry, fallback, m);
  }

  lemma TwoSteps(h: Host, t: Table, c: Config, a: nat, m: Config)
    requires m == Run(h, t, c, a)
    ensures Run(h, t, c, a + 2) == Step(h, t, Step(h, t, m))
  {
    RunOne(h, t, c, a, m);
    RunOne(h, t, c, a + 1, Step(h, t, m));
  }

  lemma SimulateMatch(h: Host, t: Table, p: Plan, e: Expr, s: Spot, fuel: nat) returns (steps: nat, k: Config)
    requires e.MatchOn?
    requires Scoped(e, s) && Enters(t, p, CompileExpr(p, s.cx, e, s.target, s.next), s)
    ensures k == Run(h, t, s.c, steps) && Simulates(h, s, Eval(h, e, s.env, s.c.trace, fuel), fuel, steps, k)
    decreases fuel, e, 2
  {
    hide Eval, EvalArms, CompileExpr, CompileArms, Run, Covers, Simulates, Ready, Scoped, Step;
    var n, cx := p.nextSlot, s.cx;
    PartsOfMatch(e, s);
    MeaningOfMatch(h, e, s.env, s.c.trace, fuel);
    PlanOfMatch(p, cx, e, s.target, s.next);
    var fallback := StoreState(Slots(p, 1), cx, s.target, Direct(UNIT), s.next);
    var chain := CompileArms(fallback.plan, cx, e.arms, n, s.target, s.next, fallback.entry);
    var whole := CompileExpr(chain.plan, cx, e.scrutinee, n, chain.entry);
    CoversPrefix(t, chain.plan, whole.plan);
    Emitted(t, Slots(p, 1), cx, cx.depth, [Store(s.target, Direct(UNIT))], Goto(s.next), chain.plan);
    Starts(h, t, s);
    var a, ka := SimulateOperand(h, t, chain.plan, e.scrutinee, n, chain.entry, s, s.c, 0, fuel);
    var r := Eval(h, e.scrutinee, s.env, s.c.trace, fuel);
    if !(r.Done? && r.completion.Normal?) { return a, ka; }
    var s1 := s.(n := n + 1, c := ka);
    ReadyLater(s, s1);
    var b, kb := SimulateArms(h, t, fallback.plan, e.arms, n, fallback.entry, r.completion.value, s1, fuel);
    RunAdds(h, t, s.c, a, b);
    SimulatesFrom(h, s, s1, EvalArms(h, e.arms, r.completion.value, s.env, r.trace, fuel), fuel, a, b, kb);
    return a + b, kb;
  }

  lemma MeaningOfMatch(h: Host, e: Expr, env: Env, tr: Trace, fuel: nat)
    requires e.MatchOn?
    ensures var v := Eval(h, e.scrutinee, env, tr, fuel);
            Eval(h, e, env, tr, fuel) ==
              if !(v.Done? && v.completion.Normal?) then v else EvalArms(h, e.arms, v.completion.value, env, v.trace, fuel)
  {}

  lemma PlanOfMatch(p: Plan, cx: Ctx, e: Expr, target: nat, next: nat)
    requires e.MatchOn?
    ensures var fallback := StoreState(Slots(p, 1), cx, target, Direct(UNIT), next);
            var chain := CompileArms(fallback.plan, cx, e.arms, p.nextSlot, target, next, fallback.entry);
            CompileExpr(p, cx, e, target, next) == CompileExpr(chain.plan, cx, e.scrutinee, p.nextSlot, chain.entry)
  {}

  lemma PartsOfMatch(e: Expr, s: Spot)
    requires e.MatchOn? && Scoped(e, s)
    ensures Scoped(e.scrutinee, s) && ArmsScoped(e.arms, s)
  {}

  /** The state every arm falls back to in the end. */
  ghost predicate FallsBack(t: Table, fallback: nat, sc: Scope, target: nat, next: nat) {
    fallback < |t| && t[fallback] == State(sc, [Store(target, Direct(UNIT))], Goto(next))
  }

  ghost predicate EntersArms(t: Table, p: Plan, arms: Arms, scrutinee: nat, fallback: nat, v: Value, s: Spot) {
    && Ready(s) && s.n == p.nextSlot && s.w == iset{s.target} && s.target < s.n && s.d == s.cx.depth
    && scrutinee < s.n && scrutinee != s.target && Read(s.c.locals, scrutinee) == v
    && FallsBack(t, fallback, s.cx.scope, s.target, s.next)
    && Covers(t, CompileArms(p, s.cx, arms, scrutinee, s.target, s.next, fallback).plan)
    && s.c.pc == CompileArms(p, s.cx, arms, scrutinee, s.target, s.next, fallback).entry
  }

  lemma NoArmLeft(h: Host, t: Table, p: Plan, scrutinee: nat, fallback: nat, v: Value, s: Spot, fuel: nat) returns (steps: nat, k: Config)
    requires EntersArms(t, p, NoArms, scrutinee, fallback, v, s)
    ensures k == Run(h, t, s.c, steps) && Simulates(h, s, EvalArms(h, NoArms, v, s.env, s.c.trace, fuel), fuel, steps, k)
  {
    StoreStep(h, t, s.cx.scope, s.target, Direct(UNIT), s.next, s.c);
    Starts(h, t, s);
    RunOne(h, t, s.c, 0, s.c);
    steps, k := 1, Step(h, t, s.c);
    FinishStore(h, s, s.c, Normal(Undefined), fuel, steps, k);
  }

  lemma SimulateArms(h: Host, t: Table, p: Plan, arms: Arms, scrutinee: nat, fallback: nat, v: Value, s: Spot, fuel: nat)
      returns (steps: nat, k: Config)
    requires ArmsScoped(arms, s) && EntersArms(t, p, arms, scrutinee, fallback, v, s)
    ensures k == Run(h, t, s.c, steps) && Simulates(h, s, EvalArms(h, arms, v, s.env, s.c.trace, fuel), fuel, steps, k)
    decreases fuel, arms, 1
  {
    hide Eval, EvalArms, CompileExpr, CompileArms, Run, Covers, Simulates, Ready, ArmsScoped, Step, Inner, Matches, WellFormed, ArmBinds;
    if arms.NoArms? {
      steps, k := NoArmLeft(h, t, p, scrutinee, fallback, v, s, fuel);
      return;
    }
    var cx := s.cx;
    PartsOfArms(arms, v, s);
    MeaningOfArms(h, arms, v, s.env, s.c.trace, fuel);
    PlanOfArms(p, cx, arms, scrutinee, s.target, s.next, fallback);
    var rest := CompileArms(p, cx, arms.rest, scrutinee, s.target, s.next, fallback);
    var first := rest.plan.nextSlot;
    var inner := cx.(scope := BindAll(cx.scope, Names(arms.pat), first));
    var committed := Committed(rest, cx, arms, s.target, s.next);
    Starts(h, t, s);
    TestSteps(h, t, committed, inner, scrutinee, arms.pat, first, rest.entry, s.c);
    TwoSteps(h, t, s.c, 0, s.c);
    CoversPrefix(t, Slots(rest.plan, |Names(arms.pat)|), committed.plan);
    CoversPrefix(t, rest.plan, Slots(rest.plan, |Names(arms.pat)|));
    var ka := Step(h, t, Step(h, t, s.c));
    var matched := Matches(arms.pat, v);
    if matched.None? {
      steps, k := NextArm(h, t, p, arms.rest, scrutinee, fallback, v, s, ka, 2, fuel);
    } else {
      ArmSpotReady(s, arms.pat, first, matched.value, s.c, committed.plan.nextSlot, committed.entry);
      steps, k := SimulateArm(h, t, p, arms, scrutinee, fallback, v, s, ka, fuel);
    }
  }

  /** Falling through to the arms that are left, at a later point of the same code. */
  lemma NextArm(h: Host, t: Table, p: Plan, arms: Arms, scrutinee: nat, fallback: nat, v: Value, s: Spot, c: Config, a: nat, fuel: nat)
      returns (steps: nat, k: Config)
    requires ArmsScoped(arms, s)
    requires Ready(s) && s.n == p.nextSlot && s.w == iset{s.target} && s.target < s.n && s.d == s.cx.depth
    requires Within(s, c) && c == Run(h, t, s.c, a)
    requires scrutinee < s.n && scrutinee != s.target && Read(s.c.locals, scrutinee) == v
    requires FallsBack(t, fallback, s.cx.scope, s.target, s.next)
    requires Covers(t, CompileArms(p, s.cx, arms, scrutinee, s.target, s.next, fallback).plan)
    requires c.pc == CompileArms(p, s.cx, arms, scrutinee, s.target, s.next, fallback).entry
    ensures k == Run(h, t, s.c, steps) && Simulates(h, s, EvalArms(h, arms, v, s.env, c.trace, fuel), fuel, steps, k)
    decreases fuel, arms, 2
  {
    hide Eval, EvalArms, CompileExpr, CompileArms, Run, Covers, Simulates, Ready, ArmsScoped, Matches;
    var s1 := s.(c := c);
    ReadyLater(s, s1);
    SameScope(arms, s, s1);
    var b, kb := SimulateArms(h, t, p, arms, scrutinee, fallback, v, s1, fuel);
    RunAdds(h, t, s.c, a, b);
    SimulatesFrom(h, s, s1, EvalArms(h, arms, v, s.env, c.trace, fuel), fuel, a, b, kb);
    return a + b, kb;
  }

  lemma SameScope(arms: Arms, s: Spot, s1: Spot)
    requires ArmsScoped(arms, s) && s1.env == s.env && s1.cx == s.cx
    ensures ArmsScoped(arms, s1)
  {}

  /** An arm whose pattern has matched: its guard, if any, then its body. */
  lemma SimulateArm(h: Host, t: Table, p: Plan, arms: Arms, scrutinee: nat, fallback: nat, v: Value, s: Spot, c: Config, fuel: nat)
      returns (steps: nat, k: Config)
    requires arms.Arm? && ArmsScoped(arms, s) && EntersArms(t, p, arms, scrutinee, fallback, v, s)
    requires Matches(arms.pat, v).Some? && c == Run(h, t, s.c, 2)
    requires var rest := CompileArms(p, s.cx, arms.rest, scrutinee, s.target, s.next, fallback);
             var s1 := ArmSpot(s, arms.pat, rest.plan.nextSlot, Matches(arms.pat, v).value, c);
             var committed := Committed(rest, s.cx, arms, s.target, s.next);
             Ready(s1) && Inner(s, s1) && c.scopes == s.c.scopes && c.trace == s.c.trace &&
             Covers(t, committed.plan) && c.pc == committed.entry
    ensures k == Run(h, t, s.c, steps) && Simulates(h, s, EvalArms(h, arms, v, s.env, s.c.trace, fuel), fuel, steps, k)
    decreases fuel, arms, 0
  {
    hide Eval, EvalArms, CompileExpr, CompileArms, Run, Covers, Simulates, Ready, ArmsScoped, Step, Matches, WellFormed, ArmBinds;
    var cx, bound := s.cx, Matches(arms.pat, v).value;
    PartsOfArms(arms, v, s);
    MeaningOfArms(h, arms, v, s.env, s.c.trace, fuel);
    PlanOfArms(p, cx, arms, scrutinee, s.target, s.next, fallback);
    var rest := CompileArms(p, cx, arms.rest, scrutinee, s.target, s.next, fallback);
    var names := Names(arms.pat);
    var s1 := ArmSpot(s, arms.pat, rest.plan.nextSlot, bound, c);
    var inner := s1.cx;
    var body := CompileExpr(Slots(rest.plan, |names|), inner, arms.body, s.target, s.next);
    Starts(h, t, s1);
    var r, b, kb;
    if arms.guard.None? {
      b, kb := SimulateRest(h, t, Slots(rest.plan, |names|), arms.body, s1, c, 0, fuel);
      r := Eval(h, arms.body, s1.env, c.trace, fuel);
    } else {
      var g := body.plan.nextSlot;
      var jump := Branch(g, body.entry, rest.entry);
      var branch := Emit(Slots(body.plan, 1), inner, cx.depth, [], jump);
      var whole := CompileExpr(branch.plan, inner, arms.guard.value, g, branch.entry);
      Emitted(t, Slots(body.plan, 1), inner, cx.depth, [], jump, whole.plan);
      CoversPrefix(t, body.plan, Slots(body.plan, 1));
      CoversPrefix(t, rest.plan, body.plan);
      var d, kd := SimulateOperand(h, t, branch.plan, arms.guard.value, g, branch.entry, s1, c, 0, fuel);
      r := Eval(h, arms.guard.value, s1.env, c.trace, fuel);
      b, kb := d, kd;
      if r.Done? && r.completion.Normal? {
        JumpStep(h, t, inner.scope, jump, kd);
        RunOne(h, t, c, d, kd);
        var ke := Step(h, t, kd);
        if Truthy(r.completion.value) {
          b, kb := SimulateRest(h, t, Slots(rest.plan, |names|), arms.body, s1, ke, d + 1, fuel);
          r := Eval(h, arms.body, s1.env, ke.trace, fuel);
        } else {
          RunAdds(h, t, s.c, 2, d + 1);
          FrameChain(s.c.locals, c.locals, s.n, s.w, ke.locals, s1.n, s1.w, s.w);
          steps, k := NextArm(h, t, p, arms.rest, scrutinee, fallback, v, s, ke, d + 3, fuel);
          return;
        }
      }
    }
    RunAdds(h, t, s.c, 2, b);
    SimulatesInner(h, s, s1, r, fuel, 2, b, kb);
    steps, k := 2 + b, kb;
  }

  // ----- state transitions -----

  lemma LocalStored(h: Host, sc: Scope, slot: nat, name: string, rest: seq<Action>, l: Locals, scopes: seq<seq<Pending>>, tr: Trace)
    requires name in sc
    ensures Acts(h, sc, [Store(slot, Direct(Local(name)))] + rest, l, scopes, tr)
         == Acts(h, sc, rest, l[slot := Read(l, sc[name])], scopes, tr)
  {
    hide Acts;
    ActsCons(h, sc, Store(slot, Direct(Local(name))), rest, l, scopes, tr);
  }

  lemma SlotStored(h: Host, sc: Scope, slot: nat, from: nat, rest: seq<Action>, l: Locals, scopes: seq<seq<Pending>>, tr: Trace)
    ensures Acts(h, sc, [Store(slot, Slot(from))] + rest, l, scopes, tr) == Acts(h, sc, rest, l[slot := Read(l, from)], scopes, tr)
  {
    hide Acts;
    ActsCons(h, sc, Store(slot, Slot(from)), rest, l, scopes, tr);
  }

  lemma {:induction false} SnapshotActs(h: Host, sc: Scope, names: seq<string>, scratch: nat, l: Locals, scopes: seq<seq<Pending>>, tr: Trace)
      returns (m: Locals)
    requires forall j | 0 <= j < |names| :: names[j] in sc && !InSpan(scratch, |names|, sc[names[j]])
    ensures Acts(h, sc, Snapshots(names, scratch), l, scopes, tr) == Proceed(m, scopes, tr)
    ensures forall j | 0 <= j < |names| :: Read(m, scratch + j) == Read(l, sc[names[j]])
    ensures forall x: nat | !InSpan(scratch, |names|, x) :: Read(m, x) == Read(l, x)
    decreases |names|
  {
    if |names| == 0 { return l; }
    hide Acts, Act, Operate, Read;
    var rest := Snapshots(names[1..], scratch + 1);
    LocalStored(h, sc, scratch, names[0], rest, l, scopes, tr);
    var l1 := l[scratch := Read(l, sc[names[0]])];
    forall j | 0 <= j < |names[1..]| ensures names[1..][j] in sc && !InSpan(scratch + 1, |names[1..]|, sc[names[1..][j]]) {
      assert names[1..][j] == names[j + 1];
    }
    m := SnapshotActs(h, sc, names[1..], scratch + 1, l1, scopes, tr);
    SnapshotReads(sc, names, scratch, l, m);
  }

  /** The rest of the names were read after the first had been stored. */
  lemma SnapshotReads(sc: Scope, names: seq<string>, scratch: nat, l: Locals, m: Locals)
    requires |names| > 0 && forall j | 0 <= j < |names| :: names[j] in sc && !InSpan(scratch, |names|, sc[names[j]])
    requires var l1 := l[scratch := Read(l, sc[names[0]])];
             && (forall j | 0 <= j < |names[1..]| :: Read(m, scratch + 1 + j) == Read(l1, sc[names[1..][j]]))
             && forall x: nat | !InSpan(scratch + 1, |names[1..]|, x) :: Read(m, x) == Read(l1, x)
    ensures forall j | 0 <= j < |names| :: Read(m, scratch + j) == Read(l, sc[names[j]])
    ensures forall x: nat | !InSpan(scratch, |names|, x) :: Read(m, x) == Read(l, x)
  {
    var l1 := l[scratch := Read(l, sc[names[0]])];
    forall j | 0 <= j < |names| ensures Read(m, scratch + j) == Read(l, sc[names[j]]) {
      if j == 0 {
        assert !InSpan(scratch + 1, |names[1..]|, scratch);
      } else {
        assert Read(m, scratch + 1 + (j - 1)) == Read(l1, sc[names[1..][j - 1]]);
        assert names[1..][j - 1] == names[j];
      }
    }
    forall x: nat | !InSpan(scratch, |names|, x) ensures Read(m, x) == Read(l, x) {
      assert !InSpan(scratch + 1, |names[1..]|, x);
    }
  }

  lemma {:induction false} CommitActs(h: Host, sc: Scope, count: nat, first: nat, scratch: nat, l: Locals, scopes: seq<seq<Pending>>, tr: Trace)
      returns (m: Locals)
    requires first + count <= scratch
    ensures Acts(h, sc, Commits(count, first, scratch), l, scopes, tr) == Proceed(m, scopes, tr)
    ensures forall x: nat | InSpan(first, count, x) :: Read(m, x) == Read(l, scratch + (x - first))
    ensures forall x: nat | !InSpan(first, count, x) :: Read(m, x) == Read(l, x)
    decreases count
  {
    if count == 0 { return l; }
    hide Acts, Act, Operate, Read;
    SlotStored(h, sc, first, scratch, Commits(count - 1, first + 1, scratch + 1), l, scopes, tr);
    var l1 := l[first := Read(l, scratch)];
    m := CommitActs(h, sc, count - 1, first + 1, scratch + 1, l1, scopes, tr);
    CommitReads(count, first, scratch, l, m);
  }

  lemma CommitReads(count: nat, first: nat, scratch: nat, l: Locals, m: Locals)
    requires count > 0 && first + count <= scratch
    requires var l1 := l[first := Read(l, scratch)];
             && (forall x: nat | InSpan(first + 1, count - 1, x) :: Read(m, x) == Read(l1, scratch + 1 + (x - (first + 1))))
             && forall x: nat | !InSpan(first + 1, count - 1, x) :: Read(m, x) == Read(l1, x)
    ensures forall x: nat | InSpan(first, count, x) :: Read(m, x) == Read(l, scratch + (x - first))
    ensures forall x: nat | !InSpan(first, count, x) :: Read(m, x) == Read(l, x)
  {
    forall x: nat | InSpan(first, count, x) ensures Read(m, x) == Read(l, scratch + (x - first)) {
      if x == first {
        assert !InSpan(first + 1, count - 1, x);
      } else {
        assert InSpan(first + 1, count - 1, x);
        assert scratch + 1 + (x - (first + 1)) == scratch + (x - first);
      }
    }
    forall x: nat | !InSpan(first, count, x) ensures Read(m, x) == Read(l, x) {
      assert !InSpan(first + 1, count - 1, x);
    }
  }

  /** The scratch slots hold what the bindings are to become. */
  ghost predicate Scratched(s: Spot, loop: Loop, scratch: nat, updates: Env, m: Config) {
    m.Running? && updates.Keys <= NameSet(loop.sig.names) &&
    forall j | 0 <= j < |loop.sig.names| :: Read(m.locals, scratch + j) == Updated(s.env, updates, loop.sig.names[j])
  }

  lemma SnapshotStep(h: Host, t: Table, s: Spot, loop: Loop, scratch: nat, entry: nat, m: Config)
    requires Ready(s) && Within(s, m) && LoopReady(s.cx, loop, s.env, s.n) && s.n <= scratch
    requires m.pc < |t| && t[m.pc] == State(s.cx.scope, Snapshots(loop.sig.names, scratch), Goto(entry))
    ensures var k := Step(h, t, m);
            Within(s, k) && k.pc == entry && k.trace == m.trace && Scratched(s, loop, scratch, map[], k)
  {
    hide CtxReady, Owes, ScopesReady;
    var names, sc := loop.sig.names, s.cx.scope;
    forall j | 0 <= j < |names|
      ensures names[j] in sc && !InSpan(scratch, |names|, sc[names[j]]) && Read(m.locals, sc[names[j]]) == s.env[names[j]]
    {
      assert names[j] in s.env;
    }
    var l := SnapshotActs(h, sc, names, scratch, m.locals, m.scopes, m.trace);
    var k := Step(h, t, m);
    forall x: nat | x < s.n && x !in s.w ensures Read(k.locals, x) == Read(s.c.locals, x) {
      assert !InSpan(scratch, |names|, x);
    }
  }

  lemma CommitStep(h: Host, t: Table, sc: Scope, s: Spot, loop: Loop, scratch: nat, target: nat, updates: Env, m: Config)
    requires Ready(s) && Within(s, m) && LoopReady(s.cx, loop, s.env, s.n) && s.n <= scratch
    requires Scratched(s, loop, scratch, updates, m)
    requires m.pc < |t|
    requires t[m.pc] == State(sc, [UnwindCleanupScopes(loop.continueDepth)] + Commits(|loop.sig.names|, loop.first, scratch), Goto(loop.head))
    ensures ContinuesTo(h, s, loop, updates, Done(Continued(target, updates), m.trace), Step(h, t, m))
  {
    hide Act, Acts, CtxReady, EnvReady, ScopesReady, Owes, Scratched, LoopReady, UnwindOwed, HaltOwed, Frame;
    var names := loop.sig.names;
    LoopInside(s, loop);
    StillOwed(s, m);
    UnwindAct(h, sc, s, m, loop.continueDepth, Continued(target, updates));
    ActsCons(h, sc, UnwindCleanupScopes(loop.continueDepth), Commits(|names|, loop.first, scratch), m.locals, m.scopes, m.trace);
    var e := Act(h, sc, UnwindCleanupScopes(loop.continueDepth), m.locals, m.scopes, m.trace);
    if e.Proceed? {
      SlotsInside(s, loop);
      var l := CommitActs(h, sc, |names|, loop.first, scratch, e.locals, e.scopes, e.trace);
      CommitWrites(s, m, loop, l);
      CommittedReads(s, loop, scratch, updates, m, l);
    }
    UpdatesOwn(s, loop, scratch, updates, m);
  }

  lemma SlotsInside(s: Spot, loop: Loop)
    requires LoopReady(s.cx, loop, s.env, s.n)
    ensures loop.first + |loop.sig.names| <= s.n
  {}

  lemma UpdatesOwn(s: Spot, loop: Loop, scratch: nat, updates: Env, m: Config)
    requires Scratched(s, loop, scratch, updates, m)
    ensures updates.Keys <= NameSet(loop.sig.names)
  {}

  lemma CommittedReads(s: Spot, loop: Loop, scratch: nat, updates: Env, m: Config, l: Locals)
    requires Scratched(s, loop, scratch, updates, m)
    requires forall x: nat | InSpan(loop.first, |loop.sig.names|, x) :: Read(l, x) == Read(m.locals, scratch + (x - loop.first))
    ensures forall j | 0 <= j < |loop.sig.names| :: Read(l, loop.first + j) == Updated(s.env, updates, loop.sig.names[j])
  {
    hide Read, Updated;
    forall j | 0 <= j < |loop.sig.names| ensures Read(l, loop.first + j) == Updated(s.env, updates, loop.sig.names[j]) {
      assert InSpan(loop.first, |loop.sig.names|, loop.first + j);
    }
  }

  lemma CommitWrites(s: Spot, m: Config, loop: Loop, l: Locals)
    requires Within(s, m)
    requires forall x: nat | !InSpan(loop.first, |loop.sig.names|, x) :: Read(l, x) == Read(m.locals, x)
    ensures Frame(s.c.locals, l, s.n, s.w + Span(loop.first, |loop.sig.names|))
  {
    var span := Span(loop.first, |loop.sig.names|);
    forall x: nat | x < s.n && x !in s.w + span ensures Read(l, x) == Read(s.c.locals, x) {
      assert x !in span;
      assert !InSpan(loop.first, |loop.sig.names|, x);
    }
  }

  lemma {:induction false} IndexOfUnique(names: seq<string>, j: nat)
    requires Distinct(names) && j < |names|
    ensures IndexOf(names, names[j]) == j
    decreases |names|
  {
    if j > 0 { IndexOfUnique(names[1..], j - 1); }
  }

  ghost predicate ReplacementsScoped(bs: BindList, s: Spot) {
    ReplacementsWellFormed(bs, s.env.Keys, Sigs(s.cx.loops), BlockTargets(s.cx.blocks))
  }

  lemma PartsOfReplacements(bs: BindList, names: seq<string>, s: Spot)
    requires bs.Bind? && ReplacementsScoped(bs, s) && NameSet(BoundNames(bs)) <= NameSet(names)
    ensures Scoped(bs.value, s) && ReplacementsScoped(bs.rest, s) && bs.name in names && NameSet(BoundNames(bs.rest)) <= NameSet(names)
  {
    assert BoundNames(bs)[0] == bs.name && bs.name in NameSet(BoundNames(bs));
    forall x | x in NameSet(BoundNames(bs.rest)) ensures x in NameSet(names) {
      assert x in BoundNames(bs);
      assert x in NameSet(BoundNames(bs));
    }
  }

  /** One more replacement has been computed into its scratch slot. */
  lemma ScratchedMore(s: Spot, loop: Loop, scratch: nat, updates: Env, name: string, v: Value, m: Config, k: Config, n1: nat)
    requires Scratched(s, loop, scratch, updates, m) && k.Running? && Distinct(loop.sig.names) && name in loop.sig.names
    requires Frame(m.locals, k.locals, n1, iset{scratch + IndexOf(loop.sig.names, name)}) && scratch + |loop.sig.names| <= n1
    requires Read(k.locals, scratch + IndexOf(loop.sig.names, name)) == v
    ensures Scratched(s, loop, scratch, updates[name := v], k)
  {
    hide Read, IndexOf;
    var names := loop.sig.names;
    forall j | 0 <= j < |names| ensures Read(k.locals, scratch + j) == Updated(s.env, updates[name := v], names[j]) {
      IndexOfUnique(names, j);
      if names[j] != name {
        assert names[IndexOf(names, name)] == name;
        assert Read(k.locals, scratch + j) == Read(m.locals, scratch + j);
      }
    }
    assert name in NameSet(names);
  }

  lemma MeaningOfReplacements(h: Host, bs: BindList, env: Env, updates: Env, tr: Trace, fuel: nat)
    requires bs.Bind?
    ensures var v := Eval(h, bs.value, env, tr, fuel);
            EvalReplacements(h, bs, env, updates, tr, fuel) ==
              if !(v.Done? && v.completion.Normal?) then Interrupted(v)
              else EvalReplacements(h, bs.rest, env, updates[bs.name := v.completion.value], v.trace, fuel)
  {}

  lemma PlanOfReplacements(p: Plan, cx: Ctx, bs: BindList, names: seq<string>, scratch: nat, next: nat)
    requires bs.Bind?
    ensures var rest := CompileReplacements(p, cx, bs.rest, names, scratch, next);
            CompileReplacements(p, cx, bs, names, scratch, next) == CompileExpr(rest.plan, cx, bs.value, scratch + IndexOf(names, bs.name), rest.entry)
  {}

  lemma SimulateReplacements(h: Host, t: Table, p: Plan, bs: BindList, loop: Loop, scratch: nat, mid: nat, updates: Env,
                             s: Spot, c: Config, a: nat, fuel: nat) returns (steps: nat, k: Config)
    requires Ready(s) && Within(s, c) && c == Run(h, t, s.c, a)
    requires ReplacementsScoped(bs, s) && NameSet(BoundNames(bs)) <= NameSet(loop.sig.names) && Distinct(loop.sig.names)
    requires Scratched(s, loop, scratch, updates, c) && s.n <= scratch && scratch + |loop.sig.names| <= p.nextSlot
    requires var code := CompileReplacements(p, s.cx, bs, loop.sig.names, scratch, mid); Covers(t, code.plan) && c.pc == code.entry
    ensures k == Run(h, t, s.c, steps) && steps >= a
    ensures var r := EvalReplacements(h, bs, s.env, updates, c.trace, fuel);
            if r.Replaced? then Within(s, k) && k.pc == mid && k.trace == r.trace && Scratched(s, loop, scratch, r.updates, k)
            else !(r.result.Done? && r.result.completion.Normal?) && Simulates(h, s, r.result, fuel, steps, k)
    decreases fuel, bs
  {
    hide Eval, EvalReplacements, CompileExpr, CompileReplacements, Run, Covers, Simulates, Ready, ReplacementsScoped, Scratched, BoundNames, Scoped, NameSet, Distinct;
    if bs.NoBindings? {
      NothingReplaced(h, p, s.cx, loop, scratch, mid, s.env, updates, c.trace, fuel);
      return a, c;
    }
    PartsOfReplacements(bs, loop.sig.names, s);
    MeaningOfReplacements(h, bs, s.env, updates, c.trace, fuel);
    PlanOfReplacements(p, s.cx, bs, loop.sig.names, scratch, mid);
    var rest := CompileReplacements(p, s.cx, bs.rest, loop.sig.names, scratch, mid);
    var slot := scratch + IndexOf(loop.sig.names, bs.name);
    CoversPrefix(t, rest.plan, CompileExpr(rest.plan, s.cx, bs.value, slot, rest.entry).plan);
    var b, kb := SimulateOperand(h, t, rest.plan, bs.value, slot, rest.entry, s, c, a, fuel);
    var v := Eval(h, bs.value, s.env, c.trace, fuel);
    if !(v.Done? && v.completion.Normal?) { return b, kb; }
    ScratchedMore(s, loop, scratch, updates, bs.name, v.completion.value, c, kb, rest.plan.nextSlot);
    steps, k := SimulateReplacements(h, t, p, bs.rest, loop, scratch, mid, updates[bs.name := v.completion.value], s, kb, b, fuel);
  }

  lemma NothingReplaced(h: Host, p: Plan, cx: Ctx, loop: Loop, scratch: nat, mid: nat, env: Env, updates: Env, tr: Trace, fuel: nat)
    ensures EvalReplacements(h, NoBindings, env, updates, tr, fuel) == Replaced(updates, tr)
    ensures CompileReplacements(p, cx, NoBindings, loop.sig.names, scratch, mid) == Code(p, mid)
  {}

  lemma PlanOfTransition(p: Plan, e: Expr, s: Spot)
    requires e.ContinueTransition? && Scoped(e, s)
    ensures FindLoop(Sigs(s.cx.loops), e.target).Some?
    ensures var loop := LoopOf(s, e.target);
            var commit := CommitState(p, s.cx, loop);
            var evaluate := CompileReplacements(commit.plan, s.cx, e.replacements, loop.sig.names, p.nextSlot, commit.entry);
            CompileExpr(p, s.cx, e, s.target, s.next) == SnapshotState(evaluate, s.cx, loop, p.nextSlot) &&
            NameSet(BoundNames(e.replacements)) <= NameSet(loop.sig.names) && ReplacementsScoped(e.replacements, s)
  {}

  lemma MeaningOfTransition(h: Host, e: Expr, env: Env, tr: Trace, fuel: nat)
    requires e.ContinueTransition?
    ensures var r := EvalReplacements(h, e.replacements, env, map[], tr, fuel);
            Eval(h, e, env, tr, fuel) == if r.Interrupted? then r.result else Done(Continued(e.target, r.updates), r.trace)
  {}

  lemma SimulateTransition(h: Host, t: Table, p: Plan, e: Expr, s: Spot, fuel: nat) returns (steps: nat, k: Config)
    requires e.ContinueTransition?
    requires Scoped(e, s) && Enters(t, p, CompileExpr(p, s.cx, e, s.target, s.next), s)
    ensures k == Run(h, t, s.c, steps) && Simulates(h, s, Eval(h, e, s.env, s.c.trace, fuel), fuel, steps, k)
    decreases fuel, e, 2
  {
    hide Eval, EvalReplacements, CompileExpr, CompileReplacements, Run, Covers, Ready, Scoped, ReplacementsScoped, Step, Scratched, NameSet, BoundNames, ContinuesTo;
    var n, cx := p.nextSlot, s.cx;
    PlanOfTransition(p, e, s);
    MeaningOfTransition(h, e, s.env, s.c.trace, fuel);
    LoopOfReady(s, e.target);
    var loop := LoopOf(s, e.target);
    var names := loop.sig.names;
    var commit := CommitState(p, cx, loop);
    var evaluate := CompileReplacements(commit.plan, cx, e.replacements, names, n, commit.entry);
    Emitted(t, evaluate.plan, cx, cx.depth, Snapshots(names, n), Goto(evaluate.entry), SnapshotState(evaluate, cx, loop, n).plan);
    Emitted(t, Slots(p, |names|), cx, cx.depth, [UnwindCleanupScopes(loop.continueDepth)] + Commits(|names|, loop.first, n), Goto(loop.head), evaluate.plan);
    Starts(h, t, s);
    SnapshotStep(h, t, s, loop, n, evaluate.entry, s.c);
    RunOne(h, t, s.c, 0, s.c);
    var a, ka := SimulateReplacements(h, t, commit.plan, e.replacements, loop, n, commit.entry, map[], s, Step(h, t, s.c), 1, fuel);
    var r := EvalReplacements(h, e.replacements, s.env, map[], s.c.trace, fuel);
    if r.Interrupted? { return a, ka; }
    CommitStep(h, t, cx.scope, s, loop, n, e.target, r.updates, ka);
    RunOne(h, t, s.c, a, ka);
    steps, k := a + 1, Step(h, t, ka);
  }

  // ----- code nested in a loop -----

  /** `b` is code inside the construct entered at `s`: possibly one loop and one (so far empty) cleanup scope deeper. */
  ghost predicate Nested(s: Spot, b: Spot) {
    && b.cx.blocks == s.cx.blocks && Agrees(s.env, b.env)
    && (b.cx.loops == s.cx.loops || (|b.cx.loops| == |s.cx.loops| + 1 && b.cx.loops[..|s.cx.loops|] == s.cx.loops))
    && s.c.Running? && b.c.Running? && Frame(s.c.locals, b.c.locals, s.n, s.w)
    && ((b.owed == s.owed && b.c.scopes == s.c.scopes) || (b.owed == s.owed + [[]] && b.c.scopes == s.c.scopes + [[]]))
    && s.n <= b.n && forall x: nat | x < s.n && x in b.w :: x in s.w
  }

  /** The transfer is addressed to the loop that only `b` is inside of. */
  ghost predicate Own(s: Spot, b: Spot, r: Result) {
    && r.Done? && |b.cx.loops| > |s.cx.loops|
    && ((r.completion.Broke? && r.completion.loop == b.cx.loops[|s.cx.loops|].sig.target)
        || (r.completion.Continued? && r.completion.loop == b.cx.loops[|s.cx.loops|].sig.target))
  }

  lemma NestedLoop(s: Spot, b: Spot, target: nat)
    requires Nested(s, b) && (|b.cx.loops| > |s.cx.loops| ==> b.cx.loops[|s.cx.loops|].sig.target != target)
    ensures FindLoop(Sigs(b.cx.loops), target) == FindLoop(Sigs(s.cx.loops), target)
  {
    if |b.cx.loops| > |s.cx.loops| {
      assert b.cx.loops == s.cx.loops + [b.cx.loops[|s.cx.loops|]];
      LoopPushed(s.cx.loops, b.cx.loops[|s.cx.loops|], target);
    }
  }

  lemma OwnLoop(s: Spot, b: Spot, target: nat)
    requires Nested(s, b) && |b.cx.loops| > |s.cx.loops| && b.cx.loops[|s.cx.loops|].sig.target == target
    ensures FindLoop(Sigs(b.cx.loops), target) == Some(|s.cx.loops|)
  {
    assert b.cx.loops == s.cx.loops + [b.cx.loops[|s.cx.loops|]];
    LoopPushed(s.cx.loops, b.cx.loops[|s.cx.loops|], target);
  }

  lemma NestedLeaves(h: Host, s: Spot, b: Spot, d: nat, pc: nat, r: Result, k: Config)
    requires Ready(s) && Nested(s, b) && d <= s.cx.depth && Leaves(h, b, d, pc, r, k)
    ensures Leaves(h, s, d, pc, r, k)
  {
    if b.owed != s.owed {
      EmptyScopeOwes(h, s.owed, d, r);
      assert Keep(s.owed + [[]], d) == Keep(s.owed, d);
      assert Keep(s.c.scopes + [[]], d) == Keep(s.c.scopes, d);
    }
  }

  lemma NestedWrites(s: Spot, b: Spot, k: Config, extra: iset<nat>)
    requires Nested(s, b) && Writes(b, k, extra)
    ensures Writes(s, k, extra)
  {
    FrameChain(s.c.locals, b.c.locals, s.n, s.w, k.locals, b.n, b.w + extra, s.w + extra);
  }

  lemma NestedHalts(h: Host, s: Spot, b: Spot, r: Result)
    requires Nested(s, b)
    ensures HaltOwed(h, b.owed, r) == HaltOwed(h, s.owed, r)
  {
    if b.owed != s.owed { EmptyScopeOwes(h, s.owed, 0, r); }
  }

  lemma NestedBroke(h: Host, s: Spot, b: Spot, r: Result, k: Config)
    requires Ready(s) && Nested(s, b) && Transferred(h, b, r, k) && !Own(s, b, r) && r.completion.Broke?
    ensures Transferred(h, s, r, k)
  {
    hide Leaves, HaltOwed, Ready, Nested, Writes, LoopReady;
    var target := r.completion.loop;
    NestedLoops(s, b);
    NestedLoop(s, b, target);
    LoopOfReady(s, target);
    LoopInside(s, LoopOf(s, target));
    NestedLeaves(h, s, b, LoopOf(s, target).depth, LoopOf(s, target).exit, r, k);
    if k.Running? { NestedWrites(s, b, k, iset{LoopOf(s, target).result}); }
  }

  lemma NestedContinued(h: Host, s: Spot, b: Spot, r: Result, k: Config)
    requires Ready(s) && Nested(s, b) && Transferred(h, b, r, k) && !Own(s, b, r) && r.completion.Continued?
    ensures Transferred(h, s, r, k)
  {
    hide Leaves, HaltOwed, Ready, Writes, LoopReady;
    var target := r.completion.loop;
    NestedLoops(s, b);
    NestedLoop(s, b, target);
    LoopOfReady(s, target);
    LoopInside(s, LoopOf(s, target));
    NestedLeaves(h, s, b, LoopOf(s, target).continueDepth, LoopOf(s, target).head, r, k);
    if k.Running? {
      NestedWrites(s, b, k, Span(LoopOf(s, target).first, |LoopOf(s, target).sig.names|));
      NestedUpdates(s, b, LoopOf(s, target), r.completion.updates);
    }
  }

  lemma LoopInside(s: Spot, loop: Loop)
    requires LoopReady(s.cx, loop, s.env, s.n)
    ensures loop.depth <= s.cx.depth && loop.continueDepth <= s.cx.depth
  {}

  lemma NestedLoops(s: Spot, b: Spot)
    requires Nested(s, b)
    ensures b.cx.blocks == s.cx.blocks && |b.cx.loops| >= |s.cx.loops| && b.cx.loops[..|s.cx.loops|] == s.cx.loops
    ensures |b.cx.loops| <= |s.cx.loops| + 1
  {
    hide Frame, Agrees;
  }

  /** A name of a loop outside means the same inside. */
  lemma NestedUpdates(s: Spot, b: Spot, loop: Loop, updates: Env)
    requires Nested(s, b) && LoopReady(s.cx, loop, s.env, s.n)
    ensures forall j | 0 <= j < |loop.sig.names| :: Updated(b.env, updates, loop.sig.names[j]) == Updated(s.env, updates, loop.sig.names[j])
  {
    hide Frame;
  }

  lemma NestedTransfer(h: Host, s: Spot, b: Spot, r: Result, k: Config)
    requires Ready(s) && Nested(s, b) && Transferred(h, b, r, k) && !Own(s, b, r)
    ensures Transferred(h, s, r, k)
  {
    hide Leaves, HaltOwed, Ready, BreaksTo, ContinuesTo, LoopReady, Writes;
    match r.completion
    case Broke(_, _) => NestedBroke(h, s, b, r, k);
    case Continued(_, _) => NestedContinued(h, s, b, r, k);
    case LeftBlock(target, v) => NestedBlock(h, s, b, r, k);
    case Returned(_) => NestedHalts(h, s, b, r);
    case Threw(_) => NestedHalts(h, s, b, r);
  }

  lemma NestedBlock(h: Host, s: Spot, b: Spot, r: Result, k: Config)
    requires Ready(s) && Nested(s, b) && Transferred(h, b, r, k) && r.completion.LeftBlock?
    ensures Transferred(h, s, r, k)
  {
    hide Leaves, HaltOwed, EnvReady, ScopesReady, Owes, Writes, LoopReady;
    var target := r.completion.block;
    NestedLoops(s, b);
    BlockOfReady(s, target);
    NestedLeaves(h, s, b, BlockOf(s, target).depth, BlockOf(s, target).exit, r, k);
    if k.Running? { NestedWrites(s, b, k, iset{BlockOf(s, target).result}); }
  }

  /** The loop only `b` is inside of leaves its value where the construct at `s` is to leave it. */
  ghost predicate LoopAt(s: Spot, loop: Loop) {
    loop.result == s.target && loop.exit == s.next && loop.depth == s.cx.depth == s.d && s.w == iset{s.target}
  }

  function CatchBreak(loop: Loop, r: Result): Result {
    if r.Done? && r.completion.Broke? && r.completion.loop == loop.sig.target
    then Done(Normal(WrapSome(loop.option, r.completion.value)), r.trace) else r
  }

  lemma UnwindValueFree(h: Host, s: Spot, d: nat, pc: nat, c1: Completion, c2: Completion, tr: Trace, k: Config)
    requires !c1.Threw? && !c2.Threw? && Leaves(h, s, d, pc, Done(c1, tr), k)
    ensures Leaves(h, s, d, pc, Done(c2, tr), k)
  {
    UnwindOwedTrace(h, s.owed, d, c1, c2, tr);
  }

  lemma CaughtBreak(h: Host, s: Spot, b: Spot, loop: Loop, r: Result, fuel: nat, a: nat, steps: nat, k: Config)
    requires Ready(s) && Nested(s, b) && b.cx.loops == s.cx.loops + [loop] && LoopAt(s, loop)
    requires Simulates(h, b, r, fuel, steps, k)
    requires r.Done? ==> !r.completion.Normal? && !(r.completion.Continued? && r.completion.loop == loop.sig.target)
    ensures Simulates(h, s, CatchBreak(loop, r), fuel, a + steps, k)
  {
    if r.Done? {
      if r.completion.Broke? && r.completion.loop == loop.sig.target {
        OwnLoop(s, b, loop.sig.target);
        var v := WrapSome(loop.option, r.completion.value);
        NestedLeaves(h, s, b, loop.depth, loop.exit, r, k);
        UnwindValueFree(h, s, loop.depth, loop.exit, r.completion, Normal(v), r.trace, k);
        if k.Running? {
          NestedWrites(s, b, k, iset{loop.result});
          assert s.w + iset{s.target} == s.w + iset{};
        }
      } else {
        NestedTransfer(h, s, b, r, k);
      }
    }
  }

  // ----- state loops -----

  function HeaderCx(p: Plan, cx: Ctx, e: Expr): Ctx
    requires e.StateLoop?
  {
    cx.(scope := BindAll(cx.scope, BoundNames(e.bindings), p.nextSlot), depth := cx.depth + 1)
  }

  function StateLoopOf(p: Plan, cx: Ctx, e: Expr, target: nat, next: nat): Loop
    requires e.StateLoop?
  {
    Loop(LoopSig(e.target, BoundNames(e.bindings), true), target, next, cx.depth, None, |p.entries|, |p.entries| + 2, cx.depth + 1, p.nextSlot)
  }

  function AgainPlan(p: Plan, cx: Ctx, e: Expr, target: nat, next: nat): Code
    requires e.StateLoop?
  {
    var k := |BoundNames(e.bindings)|;
    var loop := StateLoopOf(p, cx, e, target, next);
    SnapshotState(CommitState(Slots(Reserve(p, cx.depth + 1).plan, k), HeaderCx(p, cx, e), loop), HeaderCx(p, cx, e), loop, p.nextSlot + k)
  }

  function StateBodyCx(p: Plan, cx: Ctx, e: Expr, target: nat, next: nat): Ctx
    requires e.StateLoop?
  {
    HeaderCx(p, cx, e).(loops := cx.loops + [StateLoopOf(p, cx, e, target, next)])
  }

  function StateBodyCode(p: Plan, cx: Ctx, e: Expr, target: nat, next: nat): Code
    requires e.StateLoop?
  {
    var again := AgainPlan(p, cx, e, target, next);
    CompileExpr(Slots(again.plan, 1), StateBodyCx(p, cx, e, target, next), e.body, again.plan.nextSlot, again.entry)
  }

  function FilledPlan(p: Plan, cx: Ctx, e: Expr, target: nat, next: nat): Plan
    requires e.StateLoop?
  {
    var body := StateBodyCode(p, cx, e, target, next);
    Fill(body.plan, HeaderCx(p, cx, e), |p.entries|, cx.depth + 1, Goto(body.entry))
  }

  lemma PlanOfStateLoop(p: Plan, cx: Ctx, e: Expr, target: nat, next: nat)
    requires e.StateLoop?
    ensures var inits := CompileInits(FilledPlan(p, cx, e, target, next), HeaderCx(p, cx, e), e.bindings, p.nextSlot, |p.entries|);
            CompileExpr(p, cx, e, target, next) == Emit(inits.plan, cx, cx.depth, [EnterCleanupScope], Goto(inits.entry))
  {
    hide CompileArms, CompileInits, CompileStateLoop, CompileFor, CompileStmts;
    assert !Atomic(e);
    assert CompileExpr(p, cx, e, target, next) == CompileStateLoop(p, cx, e, target, next);
    StateLoopIs(p, cx, e, target, next);
  }

  lemma StateLoopIs(p: Plan, cx: Ctx, e: Expr, target: nat, next: nat)
    requires e.StateLoop?
    ensures var inits := CompileInits(FilledPlan(p, cx, e, target, next), HeaderCx(p, cx, e), e.bindings, p.nextSlot, |p.entries|);
            CompileStateLoop(p, cx, e, target, next) == Emit(inits.plan, cx, cx.depth, [EnterCleanupScope], Goto(inits.entry))
  {
    hide CompileExpr, CompileInits, CompileStmts, CompileArms;
  }

  /** Everything the iterations of a state loop rely on, given the table covers the whole plan. */
  ghost predicate StatePlanned(t: Table, p: Plan, e: Expr, s: Spot)
    requires e.StateLoop?
  {
    var names := BoundNames(e.bindings);
    var loop := StateLoopOf(p, s.cx, e, s.target, s.next);
    var cx1 := HeaderCx(p, s.cx, e);
    var again := AgainPlan(p, s.cx, e, s.target, s.next);
    var body := StateBodyCode(p, s.cx, e, s.target, s.next);
    var scratch := p.nextSlot + |names|;
    && Covers(t, body.plan)
    && |p.entries| < |t| && t[|p.entries|] == State(cx1.scope, [], Goto(body.entry))
    && again.entry < |t| && t[again.entry] == State(cx1.scope, Snapshots(names, scratch), Goto(|p.entries| + 1))
    && |p.entries| + 1 < |t|
    && t[|p.entries| + 1] == State(cx1.scope, [UnwindCleanupScopes(s.cx.depth + 1)] + Commits(|names|, p.nextSlot, scratch), Goto(|p.entries|))
    && again.plan.nextSlot == scratch + |names|
  }

  lemma StateLoopPlanned(t: Table, p: Plan, e: Expr, s: Spot, q: Plan)
    requires e.StateLoop? && Covers(t, q) && Grows(FilledPlan(p, s.cx, e, s.target, s.next), q)
    ensures StatePlanned(t, p, e, s)
  {
    hide CompileExpr;
    var names := BoundNames(e.bindings);
    var loop := StateLoopOf(p, s.cx, e, s.target, s.next);
    var cx1 := HeaderCx(p, s.cx, e);
    var scratch := p.nextSlot + |names|;
    var head := Reserve(p, s.cx.depth + 1);
    var commit := CommitState(Slots(head.plan, |names|), cx1, loop);
    var again := AgainPlan(p, s.cx, e, s.target, s.next);
    var body := StateBodyCode(p, s.cx, e, s.target, s.next);
    var filled := FilledPlan(p, s.cx, e, s.target, s.next);
    CoversPrefix(t, filled, q);
    assert filled.entries[|p.entries|].Filled?;
    assert body.plan.entries[|p.entries|] == Reserved(s.cx.depth + 1);
    forall i | 0 <= i < |body.plan.entries| && body.plan.entries[i].Filled? ensures i < |t| && t[i] == body.plan.entries[i].state {
      assert filled.entries[i] == body.plan.entries[i];
    }
    Emitted(t, commit.plan, cx1, cx1.depth, Snapshots(names, scratch), Goto(commit.entry), body.plan);
    Emitted(t, Slots(Slots(head.plan, |names|), |names|), cx1, cx1.depth,
            [UnwindCleanupScopes(loop.continueDepth)] + Commits(|names|, loop.first, scratch), Goto(loop.head), commit.plan);
  }

  /** One pass through the body of a state loop, with the bindings holding `env`. */
  function StateBodySpot(p: Plan, e: Expr, s: Spot, env: Env, c: Config): Spot
    requires e.StateLoop?
  {
    var again := AgainPlan(p, s.cx, e, s.target, s.next);
    var d := again.plan.nextSlot;
    Spot(StateBodyCx(p, s.cx, e, s.target, s.next), env, p.nextSlot + |BoundNames(e.bindings)|, iset{d}, d, again.entry, s.cx.depth + 1, c, s.owed + [[]])
  }

  ghost predicate AtStateHead(t: Table, p: Plan, e: Expr, s: Spot, env: Env, c: Config)
    requires e.StateLoop?
  {
    && Ready(s) && StatePlanned(t, p, e, s) && LoopAt(s, StateLoopOf(p, s.cx, e, s.target, s.next)) && s.n == p.nextSlot
    && Ready(StateBodySpot(p, e, s, env, c)) && Nested(s, StateBodySpot(p, e, s, env, c))
    && Distinct(BoundNames(e.bindings)) && NameSet(BoundNames(e.bindings)) !! s.env.Keys
    && env.Keys == s.env.Keys + NameSet(BoundNames(e.bindings))
    && c.Running? && c.pc == |p.entries|
  }

  lemma OuterSlots(p: Plan, e: Expr, s: Spot, env: Env)
    requires e.StateLoop? && Ready(s) && s.n == p.nextSlot
    requires Distinct(BoundNames(e.bindings)) && NameSet(BoundNames(e.bindings)) !! s.env.Keys
    requires env.Keys == s.env.Keys + NameSet(BoundNames(e.bindings))
    ensures var sc := BindAll(s.cx.scope, BoundNames(e.bindings), p.nextSlot);
            forall x | x in env && x !in BoundNames(e.bindings) && x in sc :: !InSpan(p.nextSlot, |BoundNames(e.bindings)|, sc[x])
  {
    var names := BoundNames(e.bindings);
    BindAllLookup(s.cx.scope, names, p.nextSlot);
    var sc := BindAll(s.cx.scope, names, p.nextSlot);
    forall x | x in env && x !in names && x in sc ensures !InSpan(p.nextSlot, |names|, sc[x]) {
      assert x !in NameSet(names);
      assert x in s.env;
    }
  }

  /** Back at the head with the bindings replaced, everything is as it was. */
  lemma BackAtHead(h: Host, t: Table, p: Plan, e: Expr, s: Spot, env: Env, c: Config, updates: Env, r: Result, k: Config)
    requires e.StateLoop? && AtStateHead(t, p, e, s, env, c)
    requires r.Done? && !r.completion.Threw?
    requires ContinuesTo(h, StateBodySpot(p, e, s, env, c), StateLoopOf(p, s.cx, e, s.target, s.next), updates, r, k)
    ensures AtStateHead(t, p, e, s, env + updates, k) && k.trace == r.trace
  {
    hide StatePlanned, AgainPlan, EnvReady, CtxReady, ScopesReady, Owes, BindAll, Updated, CompileExpr, Agrees, Distinct, ContinuesTo, OwesScope, NameSet;
    var b := StateBodySpot(p, e, s, env, c);
    var loop := StateLoopOf(p, s.cx, e, s.target, s.next);
    var b1 := StateBodySpot(p, e, s, env + updates, k);
    AgainSlots(p, s.cx, e, s.target, s.next);
    ContinuedHere(h, b, loop, updates, r, k);
    StateLoopReady(p, e, s, env, c);
    OuterSlots(p, e, s, env);
    UpdatesFit(h, b, loop, updates, r, k);
    StateEnvBack(s, b, loop, env + updates, updates, k);
    StateCtxBack(b, updates);
    StateScopesBack(s, b, loop, k);
    AgreesAfter(s.env, env, updates, BoundNames(e.bindings));
  }

  lemma UpdatesFit(h: Host, b: Spot, loop: Loop, updates: Env, r: Result, k: Config)
    requires ContinuesTo(h, b, loop, updates, r, k) && k.Running?
    ensures updates.Keys <= NameSet(loop.sig.names)
    ensures forall j | 0 <= j < |loop.sig.names| :: Read(k.locals, loop.first + j) == Updated(b.env, updates, loop.sig.names[j])
  {}

  lemma StateCtxBack(b: Spot, updates: Env)
    requires CtxReady(b.cx, b.env, b.n)
    ensures CtxReady(b.cx, b.env + updates, b.n)
  {
    forall i | 0 <= i < |b.cx.loops| ensures LoopReady(b.cx, b.cx.loops[i], b.env + updates, b.n) {
      assert LoopReady(b.cx, b.cx.loops[i], b.env, b.n);
    }
  }

  lemma AgreesAfter(env: Env, big: Env, updates: Env, names: seq<string>)
    requires Agrees(env, big) && updates.Keys <= NameSet(names) && NameSet(names) !! env.Keys
    ensures Agrees(env, big + updates)
    ensures big.Keys == env.Keys + NameSet(names) ==> (big + updates).Keys == env.Keys + NameSet(names)
  {}

  /** A transition back to the head of the loop the code is directly inside of unwinds nothing owed. */
  lemma ContinuedHere(h: Host, b: Spot, loop: Loop, updates: Env, r: Result, k: Config)
    requires Ready(b) && loop.continueDepth == b.cx.depth && r.Done? && !r.completion.Threw?
    requires ContinuesTo(h, b, loop, updates, r, k)
    ensures k.Running? && k.pc == loop.head && k.scopes == b.c.scopes && k.trace == r.trace
    ensures Writes(b, k, Span(loop.first, |loop.sig.names|))
  {
    assert Keep(b.c.scopes, b.cx.depth) == b.c.scopes;
  }

  lemma AgainSlots(p: Plan, cx: Ctx, e: Expr, target: nat, next: nat)
    requires e.StateLoop?
    ensures AgainPlan(p, cx, e, target, next).plan.nextSlot == p.nextSlot + |BoundNames(e.bindings)| + |BoundNames(e.bindings)|
  {}

  lemma StateEnvBack(s: Spot, b: Spot, loop: Loop, env1: Env, updates: Env, k: Config)
    requires Ready(b) && LoopReady(b.cx, loop, b.env, b.n) && Writes(b, k, Span(loop.first, |loop.sig.names|))
    requires updates.Keys <= NameSet(loop.sig.names) && env1 == b.env + updates
    requires forall j | 0 <= j < |loop.sig.names| :: Read(k.locals, loop.first + j) == Updated(b.env, updates, loop.sig.names[j])
    requires forall x | x in b.env && x !in loop.sig.names && x in b.cx.scope :: !InSpan(loop.first, |loop.sig.names|, b.cx.scope[x])
    ensures EnvReady(b.cx, env1, b.n, b.w, k.locals)
  {
    hide CtxReady, ScopesReady, Owes, Read;
    forall x | x in env1
      ensures x in b.cx.scope && b.cx.scope[x] < b.n && b.cx.scope[x] !in b.w && Read(k.locals, b.cx.scope[x]) == env1[x]
    {
      if x in loop.sig.names {
        CarriedBack(b, loop, updates, k, x);
      } else {
        assert x !in NameSet(loop.sig.names);
        assert b.cx.scope[x] !in Span(loop.first, |loop.sig.names|);
      }
    }
  }

  lemma CarriedBack(b: Spot, loop: Loop, updates: Env, k: Config, x: string)
    requires k.Running? && b.c.Running? && EnvReady(b.cx, b.env, b.n, b.w, b.c.locals) && LoopReady(b.cx, loop, b.env, b.n)
    requires updates.Keys <= NameSet(loop.sig.names) && x in loop.sig.names
    requires forall j | 0 <= j < |loop.sig.names| :: Read(k.locals, loop.first + j) == Updated(b.env, updates, loop.sig.names[j])
    ensures x in b.env && x in b.cx.scope && b.cx.scope[x] < b.n && b.cx.scope[x] !in b.w
    ensures Read(k.locals, b.cx.scope[x]) == (b.env + updates)[x]
  {
    hide Read;
    var j :| 0 <= j < |loop.sig.names| && loop.sig.names[j] == x;
    assert b.cx.scope[x] == loop.first + j;
  }

  lemma StateScopesBack(s: Spot, b: Spot, loop: Loop, k: Config)
    requires Ready(s) && Ready(b) && Nested(s, b) && b.c.Running? && k.Running? && k.scopes == b.c.scopes == s.c.scopes + [[]]
    requires b.owed == s.owed + [[]]
    requires Writes(b, k, Span(loop.first, |loop.sig.names|)) && s.n <= loop.first && loop.first + |loop.sig.names| <= b.n
    requires forall x: nat | x in b.w :: x >= s.n
    ensures Owes(k.scopes, k.locals, b.owed) && Frame(s.c.locals, k.locals, s.n, s.w)
  {
    forall x: nat | x < s.n ensures Read(k.locals, x) == Read(b.c.locals, x) {
      assert !InSpan(loop.first, |loop.sig.names|, x);
      assert x !in b.w + Span(loop.first, |loop.sig.names|);
    }
    forall i | 0 <= i < |k.scopes| ensures OwesScope(k.scopes[i], k.locals, b.owed[i]) {
      assert OwesScope(b.c.scopes[i], b.c.locals, b.owed[i]);
      if i < |s.c.scopes| {
        forall j | 0 <= j < |k.scopes[i]| ensures k.scopes[i][j].slot < s.n {
          assert s.c.scopes[i][j] == k.scopes[i][j];
        }
      }
    }
  }

  /** Falling off the end of the body is a transition that replaces nothing. */
  lemma FallsThrough(h: Host, t: Table, p: Plan, e: Expr, s: Spot, env: Env, c: Config, m: Config)
    requires e.StateLoop? && AtStateHead(t, p, e, s, env, c)
    requires Within(StateBodySpot(p, e, s, env, c), m) && m.pc == AgainPlan(p, s.cx, e, s.target, s.next).entry
    ensures ContinuesTo(h, StateBodySpot(p, e, s, env, c), StateLoopOf(p, s.cx, e, s.target, s.next), map[],
                        Done(Continued(e.target, map[]), m.trace), Step(h, t, Step(h, t, m)))
  {
    hide CompileExpr, Ready, Covers, Snapshots, Commits, Step, Within, Nested, BindAll, ContinuesTo, AgainPlan, Distinct, NameSet;
    var b := StateBodySpot(p, e, s, env, c);
    var loop := StateLoopOf(p, s.cx, e, s.target, s.next);
    var scratch := p.nextSlot + |BoundNames(e.bindings)|;
    StateLoopReady(p, e, s, env, c);
    SnapshotStep(h, t, b, loop, scratch, |p.entries| + 1, m);
    CommitStep(h, t, b.cx.scope, b, loop, scratch, e.target, map[], Step(h, t, m));
  }

  lemma StateLoopReady(p: Plan, e: Expr, s: Spot, env: Env, c: Config)
    requires e.StateLoop? && Ready(StateBodySpot(p, e, s, env, c))
    ensures LoopReady(StateBodyCx(p, s.cx, e, s.target, s.next), StateLoopOf(p, s.cx, e, s.target, s.next), env, StateBodySpot(p, e, s, env, c).n)
  {
    var b := StateBodySpot(p, e, s, env, c);
    assert b.cx.loops[|s.cx.loops|] == StateLoopOf(p, s.cx, e, s.target, s.next);
  }

  lemma MeaningOfLoop(h: Host, target: nat, body: Expr, env: Env, tr: Trace, fuel: nat)
    requires fuel > 0
    ensures var r := Eval(h, body, env, tr, fuel - 1);
            EvalLoop(h, target, body, env, tr, fuel) ==
              if r.Done? && r.completion.Normal? then EvalLoop(h, target, body, env, r.trace, fuel - 1)
              else if r.Done? && r.completion.Continued? && r.completion.loop == target
                then EvalLoop(h, target, body, env + r.completion.updates, r.trace, fuel - 1)
              else if r.Done? && r.completion.Broke? && r.completion.loop == target then Done(Normal(r.completion.value), r.trace)
              else r
  {}

  lemma StateBodyScoped(p: Plan, e: Expr, s: Spot, env: Env, c: Config)
    requires e.StateLoop? && Scoped(e, s) && env.Keys == s.env.Keys + NameSet(BoundNames(e.bindings))
    ensures Scoped(e.body, StateBodySpot(p, e, s, env, c))
  {
    var b := StateBodySpot(p, e, s, env, c);
    assert Sigs(b.cx.loops) == Sigs(s.cx.loops) + [LoopSig(e.target, BoundNames(e.bindings), true)];
  }

  lemma SameHead(t: Table, p: Plan, e: Expr, s: Spot, env: Env, c: Config, m: Config)
    requires e.StateLoop? && AtStateHead(t, p, e, s, env, c) && m == c.(pc := StateBodyCode(p, s.cx, e, s.target, s.next).entry)
    ensures Within(StateBodySpot(p, e, s, env, c), m)
  {}

  /** From the head, the body of one pass. */
  lemma SimulateBody(h: Host, t: Table, p: Plan, e: Expr, s: Spot, env: Env, c: Config, a: nat, fuel: nat) returns (steps: nat, k: Config)
    requires e.StateLoop? && Scoped(e, s) && AtStateHead(t, p, e, s, env, c) && c == Run(h, t, s.c, a)
    ensures k == Run(h, t, s.c, a + steps) && Simulates(h, StateBodySpot(p, e, s, env, c), Eval(h, e.body, env, c.trace, fuel), fuel, steps, k)
    ensures steps >= 1 + if Eval(h, e.body, env, c.trace, fuel).Timeout? then fuel else 0
    decreases fuel, e.body, 5
  {
    hide Eval, CompileExpr, Run, Covers, Scoped, Ready, Step, AtStateHead, StatePlanned, AgainPlan, StateBodyCode, Simulates, BindAll, StateBodyCx;
    HeadFacts(t, p, e, s, env, c);
    var b := StateBodySpot(p, e, s, env, c);
    JumpStep(h, t, HeaderCx(p, s.cx, e).scope, Goto(StateBodyCode(p, s.cx, e, s.target, s.next).entry), c);
    var c1 := Step(h, t, c);
    RunOne(h, t, s.c, a, c);
    SameHead(t, p, e, s, env, c, c1);
    Starts(h, t, b);
    RunOne(h, t, c, 0, c);
    StateBodyScoped(p, e, s, env, c);
    steps, k := SimulateRest(h, t, Slots(AgainPlan(p, s.cx, e, s.target, s.next).plan, 1), e.body, b, c1, 1, fuel);
    RunAdds(h, t, s.c, a, steps);
  }

  /** The iterations of a state loop, from its head. */
  lemma SimulateIterations(h: Host, t: Table, p: Plan, e: Expr, s: Spot, env: Env, c: Config, a: nat, fuel: nat) returns (steps: nat, k: Config)
    requires e.StateLoop? && Scoped(e, s) && AtStateHead(t, p, e, s, env, c) && c == Run(h, t, s.c, a)
    ensures k == Run(h, t, s.c, steps)
    ensures Simulates(h, s, EvalLoop(h, e.target, e.body, env, c.trace, fuel), fuel, steps, k)
    ensures steps >= a + (if EvalLoop(h, e.target, e.body, env, c.trace, fuel).Timeout? then fuel else 0)
    decreases fuel, e.body, 5
  {
    hide Eval, EvalLoop, CompileExpr, Run, Covers, Scoped, Ready, Step, AtStateHead, StatePlanned, AgainPlan, StateBodyCode, Transferred, NormallyLeft, Nested, ContinuesTo, BindAll, StateBodyCx;
    HeadFacts(t, p, e, s, env, c);
    if fuel == 0 {
      OutOfFuel(h, s, e, env, c, a);
      return a, c;
    }
    MeaningOfLoop(h, e.target, e.body, env, c.trace, fuel);
    var b := StateBodySpot(p, e, s, env, c);
    var i, ki := SimulateBody(h, t, p, e, s, env, c, a, fuel - 1);
    var r := Eval(h, e.body, env, c.trace, fuel - 1);
    var updates, kj, j := map[], ki, i;
    if r.Done? && r.completion.Normal? {
      Arrived(h, b, r, fuel - 1, i, ki);
      FallsThrough(h, t, p, e, s, env, c, ki);
      TwoSteps(h, t, s.c, a + i, ki);
      kj, j := Step(h, t, Step(h, t, ki)), i + 2;
      BackAtHead(h, t, p, e, s, env, c, map[], Done(Continued(e.target, map[]), ki.trace), kj);
      assert env + map[] == env;
    } else if r.Done? && r.completion.Continued? && r.completion.loop == e.target {
      updates := r.completion.updates;
      OwnContinue(h, p, e, s, env, c, r, ki);
      BackAtHead(h, t, p, e, s, env, c, updates, r, ki);
    } else {
      Breaks(h, t, p, e, s, env, c, r, fuel, a, i, ki);
      return a + i, ki;
    }
    steps, k := SimulateIterations(h, t, p, e, s, env + updates, kj, a + j, fuel - 1);
  }

  lemma OutOfFuel(h: Host, s: Spot, e: Expr, env: Env, c: Config, a: nat)
    requires e.StateLoop? && c.Running?
    ensures EvalLoop(h, e.target, e.body, env, c.trace, 0) == Timeout
    ensures Simulates(h, s, Timeout, 0, a, c)
  {}

  lemma HeadFacts(t: Table, p: Plan, e: Expr, s: Spot, env: Env, c: Config)
    requires e.StateLoop? && AtStateHead(t, p, e, s, env, c)
    ensures var body := StateBodyCode(p, s.cx, e, s.target, s.next);
            var b := StateBodySpot(p, e, s, env, c);
            && Ready(b) && Ready(s) && Covers(t, body.plan) && c.Running? && c.pc < |t|
            && t[c.pc] == State(HeaderCx(p, s.cx, e).scope, [], Goto(body.entry))
            && b.n <= Slots(AgainPlan(p, s.cx, e, s.target, s.next).plan, 1).nextSlot && b.d == b.cx.depth
            && b.target < Slots(AgainPlan(p, s.cx, e, s.target, s.next).plan, 1).nextSlot && b.target in b.w
            && Nested(s, b) && env.Keys == s.env.Keys + NameSet(BoundNames(e.bindings))
            && body == CompileExpr(Slots(AgainPlan(p, s.cx, e, s.target, s.next).plan, 1), b.cx, e.body, b.target, b.next)
  {}

  lemma OwnContinue(h: Host, p: Plan, e: Expr, s: Spot, env: Env, c: Config, r: Result, k: Config)
    requires e.StateLoop? && Nested(s, StateBodySpot(p, e, s, env, c)) && Transferred(h, StateBodySpot(p, e, s, env, c), r, k)
    requires r.completion.Continued? && r.completion.loop == e.target
    ensures ContinuesTo(h, StateBodySpot(p, e, s, env, c), StateLoopOf(p, s.cx, e, s.target, s.next), r.completion.updates, r, k)
  {
    OwnLoop(s, StateBodySpot(p, e, s, env, c), e.target);
  }

  lemma Breaks(h: Host, t: Table, p: Plan, e: Expr, s: Spot, env: Env, c: Config, r: Result, fuel: nat, a: nat, i: nat, k: Config)
    requires e.StateLoop? && AtStateHead(t, p, e, s, env, c) && fuel > 0 && i >= 1
    requires Simulates(h, StateBodySpot(p, e, s, env, c), r, fuel - 1, i, k)
    requires r.Timeout? ==> i >= fuel
    requires r.Done? ==> !r.completion.Normal? && !(r.completion.Continued? && r.completion.loop == e.target)
    ensures Simulates(h, s, if r.Done? && r.completion.Broke? && r.completion.loop == e.target
                            then Done(Normal(r.completion.value), r.trace) else r, fuel, a + i, k)
  {
    hide StatePlanned, Ready, Transferred, NormallyLeft, AgainPlan;
    var b := StateBodySpot(p, e, s, env, c);
    if r.Done? { CaughtBreak(h, s, b, StateLoopOf(p, s.cx, e, s.target, s.next), r, fuel - 1, a, i, k); }
  }

  // ----- entering a state loop -----

  ghost predicate InitsScoped(bs: BindList, s: Spot) {
    InitsWellFormed(bs, s.env.Keys, Sigs(s.cx.loops), BlockTargets(s.cx.blocks))
  }

  /** Bindings still to be initialised have the slots from `s.n` on. */
  ghost predicate Slotted(names: seq<string>, s: Spot) {
    forall j | 0 <= j < |names| :: names[j] in s.cx.scope && s.cx.scope[names[j]] == s.n + j
  }

  /** The header after one more binding has its initial value. */
  function InitSpot(s: Spot, name: string, v: Value, c: Config): Spot {
    s.(env := s.env[name := v], n := s.n + 1, c := c)
  }

  lemma InitSpotReady(s: Spot, name: string, v: Value, m: Config, k: Config)
    requires Ready(s) && s.w == iset{} && Within(s, m) && name !in s.env
    requires name in s.cx.scope && s.cx.scope[name] == s.n
    requires k.Running? && k.locals == m.locals[s.n := v] && k.scopes == m.scopes
    ensures Ready(InitSpot(s, name, v, k)) && Inner(s, InitSpot(s, name, v, k))
  {
    var s1 := InitSpot(s, name, v, k);
    forall i | 0 <= i < |s1.cx.loops| ensures LoopReady(s1.cx, s1.cx.loops[i], s1.env, s1.n) {
      assert LoopReady(s.cx, s.cx.loops[i], s.env, s.n);
    }
    OwesKept(s.c.scopes, s.c.locals, k.locals, s.owed, s.n, s.w);
  }

  lemma PartsOfInits(bs: BindList, s: Spot, v: Value, c: Config)
    requires bs.Bind? && InitsScoped(bs, s)
    ensures Scoped(bs.value, s) && bs.name !in s.env && InitsScoped(bs.rest, InitSpot(s, bs.name, v, c))
    ensures Slotted(BoundNames(bs), s) ==> Slotted(BoundNames(bs.rest), InitSpot(s, bs.name, v, c)) && bs.name in s.cx.scope && s.cx.scope[bs.name] == s.n
    ensures |BoundNames(bs)| == 1 + |BoundNames(bs.rest)|
  {
    assert s.env[bs.name := v].Keys == s.env.Keys + {bs.name};
    assert BoundNames(bs)[0] == bs.name;
    forall j | 0 <= j < |BoundNames(bs.rest)| ensures BoundNames(bs)[j + 1] == BoundNames(bs.rest)[j] {}
  }

  lemma MeaningOfInits(h: Host, bs: BindList, env: Env, tr: Trace, fuel: nat)
    requires bs.Bind?
    ensures var v := Eval(h, bs.value, env, tr, fuel);
            EvalInits(h, bs, env, tr, fuel) ==
              if !(v.Done? && v.completion.Normal?) then Stopped(v) else
              var r := EvalInits(h, bs.rest, env[bs.name := v.completion.value], v.trace, fuel);
              if r.Stopped? then r else Values([v.completion.value] + r.values, r.trace)
  {}

  lemma PlanOfInits(p: Plan, cx: Ctx, bs: BindList, first: nat, next: nat)
    requires bs.Bind?
    ensures var rest := CompileInits(p, cx, bs.rest, first + 1, next);
            var v := rest.plan.nextSlot;
            var install := Emit(Slots(rest.plan, 1), cx, cx.depth, [Store(first, Slot(v))], Goto(rest.entry));
            CompileInits(p, cx, bs, first, next) == CompileExpr(install.plan, cx, bs.value, v, install.entry)
  {}

  /** The header with all its bindings initialised. */
  function HeaderSpot(s: Spot, names: seq<string>, vs: seq<Value>, c: Config): Spot
    requires |names| == |vs|
  {
    s.(env := WithValues(s.env, names, vs), n := s.n + |names|, c := c)
  }

  lemma HeaderSpotStep(s: Spot, bs: BindList, v: Value, vs: seq<Value>, c: Config, k: Config)
    requires bs.Bind? && |BoundNames(bs.rest)| == |vs|
    ensures |BoundNames(bs)| == 1 + |vs|
    ensures HeaderSpot(InitSpot(s, bs.name, v, c), BoundNames(bs.rest), vs, k) == HeaderSpot(s, BoundNames(bs), [v] + vs, k)
  {
    assert BoundNames(bs)[1..] == BoundNames(bs.rest);
    assert ([v] + vs)[1..] == vs;
  }

  lemma SimulateInits(h: Host, t: Table, p: Plan, bs: BindList, mid: nat, s: Spot, fuel: nat) returns (steps: nat, k: Config)
    requires Ready(s) && s.w == iset{} && s.n + |BoundNames(bs)| <= p.nextSlot
    requires InitsScoped(bs, s) && Slotted(BoundNames(bs), s)
    requires var code := CompileInits(p, s.cx, bs, s.n, mid); Covers(t, code.plan) && s.c.pc == code.entry
    ensures k == Run(h, t, s.c, steps)
    ensures var r := EvalInits(h, bs, s.env, s.c.trace, fuel);
            if r.Values?
            then Ready(HeaderSpot(s, BoundNames(bs), r.values, k)) && Within(s, k) && k.pc == mid && k.trace == r.trace
            else !(r.result.Done? && r.result.completion.Normal?) && Simulates(h, s, r.result, fuel, steps, k)
    decreases fuel, bs
  {
    hide Eval, EvalInits, CompileExpr, CompileInits, Run, Covers, Simulates, Ready, InitsScoped, Scoped, Slotted, Step, BoundNames, WithValues, Inner, HeaderSpot;
    Starts(h, t, s);
    if bs.NoBindings? {
      NothingToInit(h, p, s, mid, s.c, fuel);
      return 0, s.c;
    }
    PartsOfInits(bs, s, Undefined, s.c);
    MeaningOfInits(h, bs, s.env, s.c.trace, fuel);
    PlanOfInits(p, s.cx, bs, s.n, mid);
    var rest := CompileInits(p, s.cx, bs.rest, s.n + 1, mid);
    var v := rest.plan.nextSlot;
    var install := Emit(Slots(rest.plan, 1), s.cx, s.cx.depth, [Store(s.n, Slot(v))], Goto(rest.entry));
    var whole := CompileExpr(install.plan, s.cx, bs.value, v, install.entry);
    Emitted(t, Slots(rest.plan, 1), s.cx, s.cx.depth, [Store(s.n, Slot(v))], Goto(rest.entry), whole.plan);
    CoversPrefix(t, rest.plan, Slots(rest.plan, 1));
    var a, ka := SimulateOperand(h, t, install.plan, bs.value, v, install.entry, s, s.c, 0, fuel);
    var r := Eval(h, bs.value, s.env, s.c.trace, fuel);
    if !(r.Done? && r.completion.Normal?) { return a, ka; }
    StoreStep(h, t, s.cx.scope, s.n, Slot(v), rest.entry, ka);
    RunOne(h, t, s.c, a, ka);
    var kb := Step(h, t, ka);
    InitSpotReady(s, bs.name, r.completion.value, ka, kb);
    PartsOfInits(bs, s, r.completion.value, kb);
    var s1 := InitSpot(s, bs.name, r.completion.value, kb);
    var c, kc := SimulateInits(h, t, p, bs.rest, mid, s1, fuel);
    RunAdds(h, t, s.c, a + 1, c);
    steps, k := a + 1 + c, kc;
    var q := EvalInits(h, bs.rest, s1.env, r.trace, fuel);
    if q.Stopped? {
      SimulatesInner(h, s, s1, q.result, fuel, a + 1, c, kc);
    } else {
      HeaderSpotStep(s, bs, r.completion.value, q.values, kb, kc);
      InnerWithin(s, s1, kc);
    }
  }

  lemma InnerWithin(s: Spot, s1: Spot, k: Config)
    requires Inner(s, s1) && Within(s1, k) && s1.c.scopes == s.c.scopes
    ensures Within(s, k)
  {
    FrameChain(s.c.locals, s1.c.locals, s.n, s.w, k.locals, s1.n, s1.w, s.w);
  }

  lemma NothingToInit(h: Host, p: Plan, s: Spot, mid: nat, c: Config, fuel: nat)
    requires Ready(s)
    ensures EvalInits(h, NoBindings, s.env, s.c.trace, fuel) == Values([], s.c.trace)
    ensures CompileInits(p, s.cx, NoBindings, s.n, mid) == Code(p, mid)
    ensures HeaderSpot(s, BoundNames(NoBindings), [], s.c) == s
  {}

  lemma {:induction false} WithValuesKeys(env: Env, names: seq<string>, vs: seq<Value>)
    requires |names| == |vs|
    ensures WithValues(env, names, vs).Keys == env.Keys + NameSet(names)
    ensures NameSet(names) !! env.Keys ==> Agrees(env, WithValues(env, names, vs))
    decreases |names|
  {
    if |names| > 0 {
      var env1 := env[names[0] := vs[0]];
      WithValuesKeys(env1, names[1..], vs[1..]);
      assert NameSet(names) == {names[0]} + NameSet(names[1..]);
      if NameSet(names) !! env.Keys {
        forall x | x in env ensures x in WithValues(env, names, vs) && WithValues(env, names, vs)[x] == env[x] {
          WithValuesOther(env, names, vs, x);
        }
      }
    }
  }

  lemma {:induction false} WithValuesOther(env: Env, names: seq<string>, vs: seq<Value>, x: string)
    requires |names| == |vs| && x in env && x !in names
    ensures x in WithValues(env, names, vs) && WithValues(env, names, vs)[x] == env[x]
    decreases |names|
  {
    if |names| > 0 { WithValuesOther(env[names[0] := vs[0]], names[1..], vs[1..], x); }
  }

  /** The names of a well-formed header are distinct and new. */
  lemma {:induction false} HeaderNames(bs: BindList, names: set<string>, loops: seq<LoopSig>, blocks: seq<nat>)
    requires InitsWellFormed(bs, names, loops, blocks)
    ensures Distinct(BoundNames(bs)) && NameSet(BoundNames(bs)) !! names
    decreases bs
  {
    if bs.Bind? {
      HeaderNames(bs.rest, names + {bs.name}, loops, blocks);
      forall i, j | 0 <= i < j < |BoundNames(bs)| ensures BoundNames(bs)[i] != BoundNames(bs)[j] {
        assert BoundNames(bs)[j] == BoundNames(bs.rest)[j - 1];
        if i == 0 { assert BoundNames(bs.rest)[j - 1] in NameSet(BoundNames(bs.rest)); }
      }
    }
  }

  /** The header scope of a state loop, just entered. */
  function OpenedSpot(p: Plan, e: Expr, s: Spot, entry: nat): Spot
    requires e.StateLoop? && s.c.Running?
  {
    ManagedSpot(s, entry).(cx := HeaderCx(p, s.cx, e), w := iset{})
  }

  lemma OpenedSpotReady(p: Plan, e: Expr, s: Spot, entry: nat)
    requires e.StateLoop? && Ready(s) && s.n == p.nextSlot && InitsScoped(e.bindings, s)
    ensures Ready(OpenedSpot(p, e, s, entry)) && Slotted(BoundNames(e.bindings), OpenedSpot(p, e, s, entry))
    ensures InitsScoped(e.bindings, OpenedSpot(p, e, s, entry))
  {
    var names := BoundNames(e.bindings);
    HeaderNames(e.bindings, s.env.Keys, Sigs(s.cx.loops), BlockTargets(s.cx.blocks));
    BindAllLookup(s.cx.scope, names, p.nextSlot);
    ManagedSpotReady(s, entry);
    var m := ManagedSpot(s, entry);
    var o := OpenedSpot(p, e, s, entry);
    forall x | x in s.env ensures x !in names {
      assert x !in NameSet(names);
    }
    forall i | 0 <= i < |o.cx.loops| ensures LoopReady(o.cx, o.cx.loops[i], o.env, o.n) {
      assert LoopReady(m.cx, m.cx.loops[i], m.env, m.n);
      forall j | 0 <= j < |o.cx.loops[i].sig.names| ensures o.cx.loops[i].sig.names[j] !in names {
        assert o.cx.loops[i].sig.names[j] in s.env;
      }
    }
    assert forall x | ResultSlot(o.cx, x) :: ResultSlot(m.cx, x);
  }

  lemma OpenedNested(p: Plan, e: Expr, s: Spot, entry: nat)
    requires e.StateLoop? && Ready(s)
    ensures Nested(s, OpenedSpot(p, e, s, entry)) && OpenedSpot(p, e, s, entry).cx.loops == s.cx.loops
  {}

  lemma MeaningOfStateLoop(h: Host, e: Expr, env: Env, tr: Trace, fuel: nat)
    requires e.StateLoop?
    ensures var r := EvalInits(h, e.bindings, env, tr, fuel);
            Eval(h, e, env, tr, fuel) ==
              if r.Stopped? then r.result else EvalLoop(h, e.target, e.body, WithValues(env, BoundNames(e.bindings), r.values), r.trace, fuel)
  {}

  /** The bindings have their initial values and control is at the head. */
  lemma HeadReached(t: Table, p: Plan, e: Expr, s: Spot, entry: nat, vs: seq<Value>, k: Config)
    requires e.StateLoop? && Ready(s) && s.n == p.nextSlot && s.w == iset{s.target} && s.target < s.n && s.d == s.cx.depth
    requires InitsScoped(e.bindings, s) && |vs| == |BoundNames(e.bindings)|
    requires StatePlanned(t, p, e, s)
    requires var o := OpenedSpot(p, e, s, entry);
             Ready(HeaderSpot(o, BoundNames(e.bindings), vs, k)) && Within(o, k) && k.pc == |p.entries|
    ensures AtStateHead(t, p, e, s, WithValues(s.env, BoundNames(e.bindings), vs), k)
  {
    hide StatePlanned, EnvReady, ScopesReady, CtxReady, LoopReady, Owes, CompileExpr, AgainPlan, BindAll, Frame, WithValues, Agrees, Distinct;
    var names := BoundNames(e.bindings);
    var o := OpenedSpot(p, e, s, entry);
    var hs := HeaderSpot(o, names, vs, k);
    var env := WithValues(s.env, names, vs);
    var b := StateBodySpot(p, e, s, env, k);
    HeaderNames(e.bindings, s.env.Keys, Sigs(s.cx.loops), BlockTargets(s.cx.blocks));
    WithValuesKeys(s.env, names, vs);
    AgainSlots(p, s.cx, e, s.target, s.next);
    HeadLoopReady(p, e, s, env);
    OneMoreLoop(hs, b, StateLoopOf(p, s.cx, e, s.target, s.next));
    HeadScopesReady(p, e, s, b, k);
    HeadEnvReady(hs, b);
    HeadFrame(s, o, k);
  }

  lemma HeadFrame(s: Spot, o: Spot, k: Config)
    requires s.c.Running? && o.c.Running? && o.c.locals == s.c.locals && o.w == iset{} && o.n == s.n && Within(o, k)
    ensures Frame(s.c.locals, k.locals, s.n, s.w)
  {}

  lemma HeadEnvReady(hs: Spot, b: Spot)
    requires hs.c.Running? && EnvReady(hs.cx, hs.env, hs.n, hs.w, hs.c.locals)
    requires b.cx.scope == hs.cx.scope && b.env == hs.env && b.n == hs.n && b.c == hs.c && forall x | x in b.w :: x >= hs.n
    ensures EnvReady(b.cx, b.env, b.n, b.w, b.c.locals)
  {}

  lemma HeadLoopReady(p: Plan, e: Expr, s: Spot, env: Env)
    requires e.StateLoop? && s.n == p.nextSlot && s.target < s.n && Distinct(BoundNames(e.bindings))
    requires env.Keys == s.env.Keys + NameSet(BoundNames(e.bindings))
    ensures LoopReady(StateBodyCx(p, s.cx, e, s.target, s.next), StateLoopOf(p, s.cx, e, s.target, s.next), env, s.n + |BoundNames(e.bindings)|)
  {
    var names := BoundNames(e.bindings);
    BindAllLookup(s.cx.scope, names, p.nextSlot);
    forall j | 0 <= j < |names| ensures names[j] in env {
      assert names[j] in NameSet(names);
    }
  }

  lemma OneMoreLoop(hs: Spot, b: Spot, loop: Loop)
    requires CtxReady(hs.cx, hs.env, hs.n) && b.env == hs.env && b.n == hs.n
    requires b.cx == hs.cx.(loops := hs.cx.loops + [loop]) && LoopReady(b.cx, loop, b.env, b.n)
    ensures CtxReady(b.cx, b.env, b.n)
  {
    forall i | 0 <= i < |b.cx.loops| ensures LoopReady(b.cx, b.cx.loops[i], b.env, b.n) {
      if i < |hs.cx.loops| { assert LoopReady(hs.cx, hs.cx.loops[i], hs.env, hs.n); }
    }
  }

  lemma HeadScopesReady(p: Plan, e: Expr, s: Spot, b: Spot, k: Config)
    requires e.StateLoop? && Ready(s) && s.n == p.nextSlot && s.w == iset{s.target} && k.Running? && s.c.Running?
    requires b.cx == StateBodyCx(p, s.cx, e, s.target, s.next) && b.n >= s.n && (forall x | x in b.w :: x >= s.n)
    requires k.scopes == s.c.scopes + [[]]
    ensures ScopesReady(b.cx, b.n, b.w, k.scopes)
  {
    forall x | ResultSlot(b.cx, x) ensures ResultSlot(s.cx, x) || x == s.target {
      if !(exists i | 0 <= i < |b.cx.blocks| :: b.cx.blocks[i].result == x) {
        var i :| 0 <= i < |b.cx.loops| && b.cx.loops[i].result == x;
        if i < |s.cx.loops| { assert s.cx.loops[i].result == x; }
      }
    }
    forall i, j | 0 <= i < |k.scopes| && 0 <= j < |k.scopes[i]|
      ensures k.scopes[i][j].slot < b.n && k.scopes[i][j].slot !in b.w && !ResultSlot(b.cx, k.scopes[i][j].slot)
    {
      assert k.scopes[i] == s.c.scopes[i];
    }
  }

  lemma PartsOfStateLoop(e: Expr, s: Spot)
    requires e.StateLoop? && Scoped(e, s)
    ensures InitsScoped(e.bindings, s)
  {}

  lemma SimulateStateLoop(h: Host, t: Table, p: Plan, e: Expr, s: Spot, fuel: nat) returns (steps: nat, k: Config)
    requires e.StateLoop?
    requires Scoped(e, s) && Enters(t, p, CompileExpr(p, s.cx, e, s.target, s.next), s)
    ensures k == Run(h, t, s.c, steps) && Simulates(h, s, Eval(h, e, s.env, s.c.trace, fuel), fuel, steps, k)
    decreases fuel, e, 2
  {
    hide Eval, EvalInits, EvalLoop, CompileExpr, CompileInits, Run, Covers, Simulates, Scoped, InitsScoped, Step, AtStateHead, StatePlanned, FilledPlan, HeaderCx, BoundNames, WithValues, CtxReady, EnvReady, ScopesReady, Owes, Slotted, Nested;
    var cx := s.cx;
    PartsOfStateLoop(e, s);
    MeaningOfStateLoop(h, e, s.env, s.c.trace, fuel);
    PlanOfStateLoop(p, cx, e, s.target, s.next);
    var filled := FilledPlan(p, cx, e, s.target, s.next);
    FilledSlots(p, cx, e, s.target, s.next);
    var cx1 := HeaderCx(p, cx, e);
    var inits := CompileInits(filled, cx1, e.bindings, p.nextSlot, |p.entries|);
    var whole := CompileExpr(p, cx, e, s.target, s.next);
    Emitted(t, inits.plan, cx, cx.depth, [EnterCleanupScope], Goto(inits.entry), whole.plan);
    StateLoopPlanned(t, p, e, s, inits.plan);
    Starts(h, t, s);
    EnterStep(h, t, cx.scope, s, inits.entry);
    RunOne(h, t, s.c, 0, s.c);
    OpenedSpotReady(p, e, s, inits.entry);
    OpenedNested(p, e, s, inits.entry);
    var o := OpenedSpot(p, e, s, inits.entry);
    var a, ka := SimulateInits(h, t, filled, e.bindings, |p.entries|, o, fuel);
    RunAdds(h, t, s.c, 1, a);
    var r := EvalInits(h, e.bindings, s.env, s.c.trace, fuel);
    if r.Stopped? {
      InitsStopped(h, s, o, r.result, fuel, 1, a, ka);
      return 1 + a, ka;
    }
    HeadReached(t, p, e, s, inits.entry, r.values, ka);
    steps, k := SimulateIterations(h, t, p, e, s, WithValues(s.env, BoundNames(e.bindings), r.values), ka, 1 + a, fuel);
  }

  lemma FilledSlots(p: Plan, cx: Ctx, e: Expr, target: nat, next: nat)
    requires e.StateLoop?
    ensures p.nextSlot + |BoundNames(e.bindings)| <= FilledPlan(p, cx, e, target, next).nextSlot
  {}

  lemma InitsStopped(h: Host, s: Spot, o: Spot, r: Result, fuel: nat, a: nat, b: nat, k: Config)
    requires Ready(s) && Nested(s, o) && o.cx.loops == s.cx.loops
    requires !(r.Done? && r.completion.Normal?) && Simulates(h, o, r, fuel, b, k)
    ensures Simulates(h, s, r, fuel, a + b, k)
  {
    if r.Done? { NestedTransfer(h, s, o, r, k); }
  }

  // ----- for loops -----

  function ForArm(e: Expr): Arms
    requires e.For?
  {
    Arm(e.pat, None, e.body, NoArms)
  }

  function ForChain(p: Plan, cx: Ctx, e: Expr, target: nat, next: nat): Code
    requires e.For?
  {
    var fallback := ForFallback(p, cx, e, target, next);
    var armCx := ForArmCx(p, cx, e, target, next);
    var inside := CompileExpr(Slots(fallback.plan, |Names(e.pat)|), armCx, e.body, p.nextSlot + 3, |p.entries| + 1);
    TestArm(inside, armCx, p.nextSlot + 4, e.pat, p.nextSlot + 5, fallback.entry)
  }

  lemma ForChainIsArms(p: Plan, cx: Ctx, e: Expr, target: nat, next: nat)
    requires e.For?
    ensures var fallback := ForFallback(p, cx, e, target, next);
            CompileArms(fallback.plan, ForBodyCx(p, cx, e, target, next), ForArm(e), p.nextSlot + 4, p.nextSlot + 3, |p.entries| + 1, fallback.entry)
            == ForChain(p, cx, e, target, next)
  {
    var fallback := ForFallback(p, cx, e, target, next);
    PlanOfArms(fallback.plan, ForBodyCx(p, cx, e, target, next), ForArm(e), p.nextSlot + 4, p.nextSlot + 3, |p.entries| + 1, fallback.entry);
    hide CompileExpr;
  }

  function ForStep(p: Plan, cx: Ctx, e: Expr, target: nat, next: nat): Code
    requires e.For?
  {
    var chain := ForChain(p, cx, e, target, next);
    var attempt := ForAttempt(p, cx, e, target, next, chain);
    CompileExpr(attempt.plan, ForScope(p, cx, e), e.step, chain.plan.nextSlot + 1, attempt.entry)
  }

  function ForFilled(p: Plan, cx: Ctx, e: Expr, target: nat, next: nat): Plan
    requires e.For?
  {
    var step := ForStep(p, cx, e, target, next);
    Fill(step.plan, ForScope(p, cx, e), |p.entries| + 1, cx.depth, Goto(step.entry))
  }

  lemma PlanOfFor(p: Plan, cx: Ctx, e: Expr, target: nat, next: nat)
    requires e.For?
    ensures var filled := ForFilled(p, cx, e, target, next);
            var inner := ForScope(p, cx, e);
            var initialized := Emit(Slots(filled, 1), inner, cx.depth, [Store(p.nextSlot, Slot(filled.nextSlot))], Goto(|p.entries| + 1));
            CompileExpr(p, cx, e, target, next) == CompileExpr(initialized.plan, inner, e.source, filled.nextSlot, initialized.entry)
  {
    hide CompileArms, CompileStmts, ForAttempt, ForFallback;
    ForIsPlanned(p, cx, e, target, next);
    hide CompileExpr;
  }

  lemma ForIsPlanned(p: Plan, cx: Ctx, e: Expr, target: nat, next: nat)
    requires e.For?
    ensures CompileExpr(p, cx, e, target, next) == CompileFor(p, cx, e, target, next)
  {
    hide CompileFor;
  }

  /** Everything the iterations of a `for` loop rely on, given the table covers the whole plan. */
  ghost predicate ForPlanned(t: Table, p: Plan, e: Expr, s: Spot)
    requires e.For?
  {
    var it, inner := p.nextSlot, ForScope(p, s.cx, e);
    var fallback := ForFallback(p, s.cx, e, s.target, s.next);
    var chain := ForChain(p, s.cx, e, s.target, s.next);
    var attempt := ForAttempt(p, s.cx, e, s.target, s.next, chain);
    var step := ForStep(p, s.cx, e, s.target, s.next);
    var m, b := chain.plan.nextSlot, |chain.plan.entries|;
    && Covers(t, step.plan) && Covers(t, chain.plan)
    && FallsBack(t, fallback.entry, inner.scope, it + 3, |p.entries| + 1)
    && fallback.plan.nextSlot == it + 5 && m >= it + 5
    && |p.entries| + 1 < |t|
    && t[|p.entries|] == State(inner.scope, [Store(s.target, Direct(Const(NoneOf(e.option))))], Goto(s.next))
    && t[|p.entries| + 1] == State(inner.scope, [], Goto(step.entry))
    && attempt.entry == b + 3 && attempt.plan.nextSlot == m + 2 && b + 3 < |t|
    && t[b] == State(inner.scope, [Store(it + 4, Direct(Local(e.itemName)))], Goto(chain.entry))
    && t[b + 1] == State(inner.scope, [Store(it, Direct(Local(e.successorName)))], Goto(b))
    && t[b + 2] == State(inner.scope, [], Branch(m, b + 1, |p.entries|))
    && t[b + 3] == State(inner.scope, [StoreMatch(m, m + 1, StepPattern(e.iteration, e.itemName, e.successorName), it + 1)], Goto(b + 2))
  }

  lemma ForLoopPlanned(t: Table, p: Plan, e: Expr, s: Spot, q: Plan)
    requires e.For? && Covers(t, q) && Grows(ForFilled(p, s.cx, e, s.target, s.next), q)
    ensures ForPlanned(t, p, e, s)
  {
    hide CompileExpr, StepPattern, Emit, TestArm, ForAttempt, ForChain;
    var fallback := ForFallback(p, s.cx, e, s.target, s.next);
    var chain := ForChain(p, s.cx, e, s.target, s.next);
    var step := ForStep(p, s.cx, e, s.target, s.next);
    var filled := ForFilled(p, s.cx, e, s.target, s.next);
    CoversPrefix(t, filled, q);
    ForReserves(p, s.cx, e, s.target, s.next);
    assert filled.entries[|p.entries| + 1].Filled?;
    assert step.plan.entries[|p.entries| + 1] == Reserved(s.cx.depth);
    forall i | 0 <= i < |step.plan.entries| && step.plan.entries[i].Filled? ensures i < |t| && t[i] == step.plan.entries[i].state {
      assert filled.entries[i] == step.plan.entries[i];
    }
    ForAttemptPlanned(t, p, e, s, chain, step.plan);
    CoversPrefix(t, fallback.plan, chain.plan);
    ForFallbackPlanned(t, p, e, s);
  }

  lemma ForReserves(p: Plan, cx: Ctx, e: Expr, target: nat, next: nat)
    requires e.For?
    ensures var fallback := ForFallback(p, cx, e, target, next);
            && fallback.plan.nextSlot == p.nextSlot + 5 && |p.entries| + 1 < |fallback.plan.entries|
            && fallback.plan.entries[|p.entries| + 1] == Reserved(cx.depth)
            && Grows(fallback.plan, ForChain(p, cx, e, target, next).plan)
  {
    hide CompileExpr;
  }

  lemma ForAttemptPlanned(t: Table, p: Plan, e: Expr, s: Spot, chain: Code, q: Plan)
    requires e.For? && Covers(t, q) && Grows(ForAttempt(p, s.cx, e, s.target, s.next, chain).plan, q)
    ensures var it, inner := p.nextSlot, ForScope(p, s.cx, e);
            var attempt := ForAttempt(p, s.cx, e, s.target, s.next, chain);
            var m, b := chain.plan.nextSlot, |chain.plan.entries|;
            && attempt.entry == b + 3 && attempt.plan.nextSlot == m + 2 && b + 3 < |t|
            && t[b] == State(inner.scope, [Store(it + 4, Direct(Local(e.itemName)))], Goto(chain.entry))
            && t[b + 1] == State(inner.scope, [Store(it, Direct(Local(e.successorName)))], Goto(b))
            && t[b + 2] == State(inner.scope, [], Branch(m, b + 1, |p.entries|))
            && t[b + 3] == State(inner.scope, [StoreMatch(m, m + 1, StepPattern(e.iteration, e.itemName, e.successorName), it + 1)], Goto(b + 2))
            && Covers(t, chain.plan)
  {
    hide StepPattern;
    var it, inner := p.nextSlot, ForScope(p, s.cx, e);
    var bodyCx := ForBodyCx(p, s.cx, e, s.target, s.next);
    var m, b := chain.plan.nextSlot, |chain.plan.entries|;
    var body := StoreState(chain.plan, bodyCx, it + 4, Direct(Local(e.itemName)), chain.entry);
    var advance := Emit(body.plan, inner, s.cx.depth, [Store(it, Direct(Local(e.successorName)))], Goto(body.entry));
    var branch := Emit(Slots(advance.plan, 1), inner, s.cx.depth, [], Branch(m, advance.entry, |p.entries|));
    Emitted(t, Slots(branch.plan, 1), inner, s.cx.depth, [StoreMatch(m, m + 1, StepPattern(e.iteration, e.itemName, e.successorName), it + 1)], Goto(branch.entry), q);
    CoversPrefix(t, branch.plan, Slots(branch.plan, 1));
    Emitted(t, Slots(advance.plan, 1), inner, s.cx.depth, [], Branch(m, advance.entry, |p.entries|), branch.plan);
    CoversPrefix(t, advance.plan, Slots(advance.plan, 1));
    Emitted(t, body.plan, inner, s.cx.depth, [Store(it, Direct(Local(e.successorName)))], Goto(body.entry), advance.plan);
    Emitted(t, chain.plan, bodyCx, s.cx.depth, [Store(it + 4, Direct(Local(e.itemName)))], Goto(chain.entry), body.plan);
  }

  lemma ForFallbackPlanned(t: Table, p: Plan, e: Expr, s: Spot)
    requires e.For? && Covers(t, ForFallback(p, s.cx, e, s.target, s.next).plan)
    ensures FallsBack(t, ForFallback(p, s.cx, e, s.target, s.next).entry, ForScope(p, s.cx, e).scope, p.nextSlot + 3, |p.entries| + 1)
    ensures |p.entries| < |t| && t[|p.entries|] == State(ForScope(p, s.cx, e).scope, [Store(s.target, Direct(Const(NoneOf(e.option))))], Goto(s.next))
  {
    var actions := [Store(s.target, Direct(Const(NoneOf(e.option))))];
    var finish := Emit(Slots(p, 3), ForScope(p, s.cx, e), s.cx.depth, actions, Goto(s.next));
    var head := Reserve(finish.plan, s.cx.depth);
    var fallback := ForFallback(p, s.cx, e, s.target, s.next);
    Emitted(t, Slots(head.plan, 2), ForBodyCx(p, s.cx, e, s.target, s.next), s.cx.depth, [Store(p.nextSlot + 3, Direct(UNIT))], Goto(head.entry), fallback.plan);
    CoversPrefix(t, head.plan, Slots(head.plan, 2));
    Emitted(t, Slots(p, 3), ForScope(p, s.cx, e), s.cx.depth, actions, Goto(s.next), head.plan);
  }

  ghost predicate ForNames(e: Expr, s: Spot)
    requires e.For?
  {
    && e.iteratorName != e.itemName && e.iteratorName != e.successorName && e.itemName != e.successorName
    && e.iteratorName !in s.env && e.itemName !in s.env && e.successorName !in s.env
  }

  ghost predicate AtForHead(t: Table, p: Plan, e: Expr, s: Spot, it: Value, c: Config)
    requires e.For?
  {
    && Ready(s) && ForPlanned(t, p, e, s) && LoopAt(s, ForLoopOf(p, s.cx, e, s.target, s.next))
    && s.n == p.nextSlot && s.target < s.n && ForNames(e, s)
    && Within(s, c) && c.pc == |p.entries| + 1 && Read(c.locals, s.n) == it
  }

  /** Taking a step, with the iterator name bound. */
  function ForStepSpot(p: Plan, e: Expr, s: Spot, it: Value, c: Config): Spot
    requires e.For?
  {
    s.(cx := ForScope(p, s.cx, e), env := s.env[e.iteratorName := it], n := s.n + 1, c := c)
  }

  lemma ForStepLoopsReady(p: Plan, e: Expr, s: Spot, it: Value, c: Config)
    requires e.For? && Ready(s) && s.n == p.nextSlot && ForNames(e, s)
    ensures CtxReady(ForStepSpot(p, e, s, it, c).cx, ForStepSpot(p, e, s, it, c).env, ForStepSpot(p, e, s, it, c).n)
  {
    var s1 := ForStepSpot(p, e, s, it, c);
    forall i | 0 <= i < |s1.cx.loops| ensures LoopReady(s1.cx, s1.cx.loops[i], s1.env, s1.n) {
      assert LoopReady(s.cx, s.cx.loops[i], s.env, s.n);
      forall j | 0 <= j < |s.cx.loops[i].sig.names| ensures s.cx.loops[i].sig.names[j] in s.env {}
    }
  }

  lemma ForStepSpotReady(p: Plan, e: Expr, s: Spot, it: Value, c: Config)
    requires e.For? && Ready(s) && s.n == p.nextSlot && ForNames(e, s) && s.w == iset{s.target} && s.target < s.n
    requires Within(s, c) && Read(c.locals, s.n) == it
    ensures Ready(ForStepSpot(p, e, s, it, c)) && Inner(s, ForStepSpot(p, e, s, it, c))
  {
    var s1 := ForStepSpot(p, e, s, it, c);
    ForStepLoopsReady(p, e, s, it, c);
    hide LoopReady;
    OwesKept(s.c.scopes, s.c.locals, c.locals, s.owed, s.n, s.w);
    assert forall x | ResultSlot(s1.cx, x) :: ResultSlot(s.cx, x);
  }

  /** The source of the iteration, evaluated before anything is bound. */
  lemma ForSourceReady(p: Plan, e: Expr, s: Spot)
    requires e.For? && Ready(s) && s.n == p.nextSlot && ForNames(e, s)
    ensures Ready(s.(cx := ForScope(p, s.cx, e)))
  {
    WiderScopeReady(s, ForScope(p, s.cx, e).scope);
  }

  function StepNames(e: Expr): seq<string>
    requires e.For?
  {
    [e.itemName, e.successorName]
  }

  lemma StepBinds(e: Expr, v: Value)
    requires e.For? && e.itemName != e.successorName
    ensures var pat := StepPattern(e.iteration, e.itemName, e.successorName);
            Names(pat) == StepNames(e) &&
            (Matches(pat, v).Some? ==> Matches(pat, v).value.Keys == {e.itemName, e.successorName})
  {
    var pat := StepPattern(e.iteration, e.itemName, e.successorName);
    var second := pat.fields.rest;
    assert FieldNames(second.rest) == [] && FieldUnions(second.rest);
    assert Names(second.pat) == [e.successorName] && Names(pat.fields.pat) == [e.itemName];
    assert FieldNames(second) == [e.successorName] && FieldUnions(second);
    assert Names(pat) == [e.itemName] + [e.successorName];
    if Matches(pat, v).Some? {
      MatchBindsNames(pat, v);
      assert NameSet(StepNames(e)) == {e.itemName, e.successorName};
    }
  }

  /** The body, entered with the item and the successor bound and the iterator advanced. */
  function ForBodySpot(p: Plan, e: Expr, s: Spot, bound: Env, c: Config): Spot
    requires e.For?
  {
    Spot(ForBodyCx(p, s.cx, e, s.target, s.next), ForEnv(e, s.env, bound), s.n + 5, iset{s.n + 3}, s.n + 3, |p.entries| + 1, s.cx.depth, c, s.owed)
  }

  lemma ForBodySpotReady(p: Plan, e: Expr, s: Spot, bound: Env, c: Config)
    requires e.For? && Ready(s) && s.n == p.nextSlot && ForNames(e, s) && LoopAt(s, ForLoopOf(p, s.cx, e, s.target, s.next)) && s.target < s.n
    requires bound.Keys == {e.itemName, e.successorName} && Within(s, c)
    requires Read(c.locals, s.n) == bound[e.successorName] && Read(c.locals, s.n + 1) == bound[e.itemName] && Read(c.locals, s.n + 2) == bound[e.successorName]
    ensures Ready(ForBodySpot(p, e, s, bound, c)) && Nested(s, ForBodySpot(p, e, s, bound, c))
  {
    hide LoopReady, EnvReady, ScopesReady, Owes, Frame, Distinct;
    var b := ForBodySpot(p, e, s, bound, c);
    ForLoopsReady(p, e, s, bound, c);
    ForEnvReady(p, e, s, bound, c);
    ForScopesReady(p, e, s, b, c);
    StillOwed(s, c);
    ForNested(p, e, s, bound, c);
  }

  lemma StillOwed(s: Spot, c: Config)
    requires Ready(s) && Within(s, c)
    ensures Owes(c.scopes, c.locals, s.owed)
  {
    hide CtxReady, EnvReady, Owes, Frame;
    OwesKept(s.c.scopes, s.c.locals, c.locals, s.owed, s.n, s.w);
  }

  lemma ForNested(p: Plan, e: Expr, s: Spot, bound: Env, c: Config)
    requires e.For? && Ready(s) && s.n == p.nextSlot && ForNames(e, s) && bound.Keys == {e.itemName, e.successorName} && Within(s, c)
    ensures Nested(s, ForBodySpot(p, e, s, bound, c))
  {
    hide CtxReady, EnvReady, ScopesReady, Owes, Frame;
  }

  lemma ForEnvReady(p: Plan, e: Expr, s: Spot, bound: Env, c: Config)
    requires e.For? && Ready(s) && s.n == p.nextSlot && ForNames(e, s) && bound.Keys == {e.itemName, e.successorName} && Within(s, c)
    requires Read(c.locals, s.n) == bound[e.successorName] && Read(c.locals, s.n + 1) == bound[e.itemName] && Read(c.locals, s.n + 2) == bound[e.successorName]
    ensures var b := ForBodySpot(p, e, s, bound, c); EnvReady(b.cx, b.env, b.n, b.w, c.locals)
  {
    hide CtxReady, ScopesReady, Owes, Read;
  }

  lemma ForLoopsReady(p: Plan, e: Expr, s: Spot, bound: Env, c: Config)
    requires e.For? && Ready(s) && s.n == p.nextSlot && ForNames(e, s) && s.target < s.n
    requires bound.Keys == {e.itemName, e.successorName}
    ensures var b := ForBodySpot(p, e, s, bound, c); CtxReady(b.cx, b.env, b.n)
  {
    hide EnvReady, ScopesReady, Owes;
    var b := ForBodySpot(p, e, s, bound, c);
    forall i | 0 <= i < |b.cx.loops| ensures LoopReady(b.cx, b.cx.loops[i], b.env, b.n) {
      if i < |s.cx.loops| {
        assert LoopReady(s.cx, s.cx.loops[i], s.env, s.n);
        forall j | 0 <= j < |s.cx.loops[i].sig.names| ensures s.cx.loops[i].sig.names[j] in s.env {}
      }
    }
  }

  lemma ForScopesReady(p: Plan, e: Expr, s: Spot, b: Spot, c: Config)
    requires e.For? && Ready(s) && s.w == iset{s.target} && c.Running? && s.c.Running? && c.scopes == s.c.scopes
    requires b.cx == ForBodyCx(p, s.cx, e, s.target, s.next) && b.n >= s.n && (forall x | x in b.w :: x >= s.n)
    ensures ScopesReady(b.cx, b.n, b.w, c.scopes)
  {
    forall x | ResultSlot(b.cx, x) ensures ResultSlot(s.cx, x) || x == s.target {
      if !(exists i | 0 <= i < |b.cx.blocks| :: b.cx.blocks[i].result == x) {
        var i :| 0 <= i < |b.cx.loops| && b.cx.loops[i].result == x;
        if i < |s.cx.loops| { assert s.cx.loops[i].result == x; }
      }
    }
  }

  lemma MeaningOfFor(h: Host, e: Expr, env: Env, it: Value, tr: Trace, fuel: nat)
    requires e.For? && fuel > 0
    ensures var s := Eval(h, e.step, env[e.iteratorName := it], tr, fuel - 1);
            EvalFor(h, e, env, it, tr, fuel) ==
              if !(s.Done? && s.completion.Normal?) then s else
              var matched := Matches(StepPattern(e.iteration, e.itemName, e.successorName), s.completion.value);
              if matched.None? then Done(Normal(NoneOf(e.option)), s.trace) else
              var after := BoundTo(matched.value, e.successorName);
              var r := EvalArms(h, ForArm(e), BoundTo(matched.value, e.itemName), ForEnv(e, env, matched.value), s.trace, fuel - 1);
              if r.Done? && (r.completion.Normal? || (r.completion.Continued? && r.completion.loop == e.target))
              then EvalFor(h, e, env, after, r.trace, fuel - 1)
              else if r.Done? && r.completion.Broke? && r.completion.loop == e.target
              then Done(Normal(WrapSome(e.option, r.completion.value)), r.trace)
              else r
  {}

  /** The two states that move the iterator on and keep the item for the pattern. */
  lemma AdvanceStates(t: Table, p: Plan, e: Expr, s: Spot)
    requires e.For? && ForPlanned(t, p, e, s) && s.n == p.nextSlot && ForNames(e, s)
    ensures var chain, sc := ForChain(p, s.cx, e, s.target, s.next), ForScope(p, s.cx, e).scope; var b := |chain.plan.entries|;
            && b + 1 < |t| && t[b] == State(sc, [Store(s.n + 4, Direct(Local(e.itemName)))], Goto(chain.entry))
            && t[b + 1] == State(sc, [Store(s.n, Direct(Local(e.successorName)))], Goto(b))
            && e.successorName in sc && sc[e.successorName] == s.n + 2 && e.itemName in sc && sc[e.itemName] == s.n + 1
  {
    hide CompileExpr, CompileArms, Covers, ForChain, ForFallback, ForAttempt, ForStep, FallsBack;
  }

  lemma StoreLocal(h: Host, t: Table, sc: Scope, target: nat, name: string, slot: nat, next: nat, c: Config)
    requires c.Running? && c.pc < |t| && t[c.pc] == State(sc, [Store(target, Direct(Local(name)))], Goto(next))
    requires name in sc && sc[name] == slot
    ensures Step(h, t, c) == Running(next, c.locals[target := Read(c.locals, slot)], c.scopes, c.trace)
  {
    StoreStep(h, t, sc, target, Direct(Local(name)), next, c);
  }

  /** A step was taken and yielded: item and successor bound, iterator advanced, item handed to the pattern. */
  lemma AdvanceSteps(h: Host, t: Table, p: Plan, e: Expr, s: Spot, bound: Env, m: Config)
    requires e.For? && Ready(s) && ForPlanned(t, p, e, s) && s.n == p.nextSlot && ForNames(e, s)
    requires bound.Keys == {e.itemName, e.successorName} && Within(s, m)
    requires m.pc == |ForChain(p, s.cx, e, s.target, s.next).plan.entries| + 1
    requires Read(m.locals, s.n + 1) == bound[e.itemName] && Read(m.locals, s.n + 2) == bound[e.successorName]
    ensures var k := Step(h, t, Step(h, t, m));
            && Within(s, k) && k.pc == ForChain(p, s.cx, e, s.target, s.next).entry && k.trace == m.trace
            && Read(k.locals, s.n) == bound[e.successorName] && Read(k.locals, s.n + 1) == bound[e.itemName]
            && Read(k.locals, s.n + 2) == bound[e.successorName] && Read(k.locals, s.n + 4) == bound[e.itemName]
  {
    hide Ready, ForPlanned, ForNames, ForChain, ForScope, Step;
    var sc := ForScope(p, s.cx, e).scope;
    AdvanceStates(t, p, e, s);
    StoreLocal(h, t, sc, s.n, e.successorName, s.n + 2, m.pc - 1, m);
    var m1 := Step(h, t, m);
    StoreLocal(h, t, sc, s.n + 4, e.itemName, s.n + 1, ForChain(p, s.cx, e, s.target, s.next).entry, m1);
  }

  lemma PartsOfFor(e: Expr, s: Spot)
    requires e.For? && Scoped(e, s)
    ensures ForNames(e, s) && Scoped(e.source, s)
    ensures WellFormed(e.step, s.env.Keys + {e.iteratorName}, Sigs(s.cx.loops), BlockTargets(s.cx.blocks))
  {
    var all := [e.iteratorName, e.itemName, e.successorName] + Names(e.pat);
    assert all[0] == e.iteratorName && all[1] == e.itemName && all[2] == e.successorName;
    assert e.iteratorName in NameSet(all) && e.itemName in NameSet(all) && e.successorName in NameSet(all);
  }

  lemma ForStepScoped(p: Plan, e: Expr, s: Spot, it: Value, c: Config)
    requires e.For? && WellFormed(e.step, s.env.Keys + {e.iteratorName}, Sigs(s.cx.loops), BlockTargets(s.cx.blocks))
    ensures Scoped(e.step, ForStepSpot(p, e, s, it, c))
  {
    assert ForStepSpot(p, e, s, it, c).env.Keys == s.env.Keys + {e.iteratorName};
  }

  lemma ForArmScoped(p: Plan, e: Expr, s: Spot, bound: Env, c: Config)
    requires e.For? && Scoped(e, s) && bound.Keys == {e.itemName, e.successorName}
    ensures ArmsScoped(ForArm(e), ForBodySpot(p, e, s, bound, c))
  {
    var b := ForBodySpot(p, e, s, bound, c);
    var three := {e.iteratorName, e.itemName, e.successorName};
    assert Sigs(b.cx.loops) == Sigs(s.cx.loops) + [LoopSig(e.target, [], false)];
    assert b.env.Keys == s.env.Keys + three;
    ForPatternNames(e, s.env.Keys);
    assert s.env.Keys + three + NameSet(Names(e.pat)) == b.env.Keys + NameSet(Names(e.pat));
  }

  lemma ForPatternNames(e: Expr, names: set<string>)
    requires e.For?
    requires var all := [e.iteratorName, e.itemName, e.successorName] + Names(e.pat); Distinct(all) && NameSet(all) !! names
    ensures Distinct(Names(e.pat)) && NameSet(Names(e.pat)) !! names + {e.iteratorName, e.itemName, e.successorName}
  {
    var ns := Names(e.pat);
    var all := [e.iteratorName, e.itemName, e.successorName] + ns;
    forall i | 0 <= i < |ns| ensures ns[i] == all[i + 3] {}
    forall i, j | 0 <= i < j < |ns| ensures ns[i] != ns[j] {
      assert all[i + 3] != all[j + 3];
    }
    forall x | x in NameSet(ns) ensures x !in names + {e.iteratorName, e.itemName, e.successorName} {
      var i :| 0 <= i < |ns| && ns[i] == x;
      assert all[0] != all[i + 3] && all[1] != all[i + 3] && all[2] != all[i + 3];
      assert x in NameSet(all);
    }
  }

  /** The step has been taken; nothing was yielded. */
  lemma ForFinishes(h: Host, t: Table, p: Plan, e: Expr, s: Spot, m: Config, fuel: nat, steps: nat)
    requires e.For? && Ready(s) && ForPlanned(t, p, e, s) && LoopAt(s, ForLoopOf(p, s.cx, e, s.target, s.next)) && Within(s, m) && m.pc == |p.entries|
    ensures Simulates(h, s, Done(Normal(NoneOf(e.option)), m.trace), fuel, steps, Step(h, t, m))
  {
    hide Simulates, CompileExpr, CompileArms, Ready, Covers;
    StoreStep(h, t, ForScope(p, s.cx, e).scope, s.target, Direct(Const(NoneOf(e.option))), s.next, m);
    FinishStore(h, s, m, Normal(NoneOf(e.option)), fuel, steps, Step(h, t, m));
  }

  /** The step yielded: from the two states that test it to the pattern of the body. */
  lemma ForYields(h: Host, t: Table, p: Plan, e: Expr, s: Spot, c: Config, m: Config)
    requires e.For? && Ready(s) && ForPlanned(t, p, e, s) && s.n == p.nextSlot && ForNames(e, s) && s.w == iset{s.target}
    requires Within(s, c) && m == Step(h, t, Step(h, t, c))
    requires c.pc == |ForChain(p, s.cx, e, s.target, s.next).plan.entries| + 3
    ensures var r := Matches(StepPattern(e.iteration, e.itemName, e.successorName), Read(c.locals, ForChain(p, s.cx, e, s.target, s.next).plan.nextSlot + 1));
            && m.trace == c.trace && Within(s, m)
            && (r.None? ==> m.pc == |p.entries|)
            && (r.Some? ==> r.value.Keys == {e.itemName, e.successorName}
                            && m.pc == |ForChain(p, s.cx, e, s.target, s.next).plan.entries| + 1
                            && Read(m.locals, s.n + 1) == r.value[e.itemName] && Read(m.locals, s.n + 2) == r.value[e.successorName])
  {
    hide CompileExpr, CompileArms, Covers, Ready, ForChain, ForFallback, ForAttempt, ForStep, Matches, StepPattern, FallsBack, BindSlots;
    var pat := StepPattern(e.iteration, e.itemName, e.successorName);
    var n, b := ForChain(p, s.cx, e, s.target, s.next).plan.nextSlot, |ForChain(p, s.cx, e, s.target, s.next).plan.entries|;
    TestStepsAt(h, t, ForScope(p, s.cx, e).scope, n, n + 1, pat, s.n + 1, b + 2, b + 1, |p.entries|, c);
    var v := Read(c.locals, n + 1);
    StepBinds(e, v);
    if Matches(pat, v).Some? {
      StepStored(e, s, c, m, Matches(pat, v).value, n);
    }
  }

  lemma StepStored(e: Expr, s: Spot, c: Config, m: Config, bound: Env, flag: nat)
    requires e.For? && c.Running? && m.Running? && bound.Keys == {e.itemName, e.successorName}
    requires flag > s.n + 2 && m.locals == BindSlots(c.locals, StepNames(e), s.n + 1, bound)[flag := TRUE]
    ensures Read(m.locals, s.n + 1) == bound[e.itemName] && Read(m.locals, s.n + 2) == bound[e.successorName]
    ensures forall x: nat | x < s.n :: Read(m.locals, x) == Read(c.locals, x)
  {
    hide BindSlots;
    var l := BindSlots(c.locals, StepNames(e), s.n + 1, bound);
    BindSlotsRead(c.locals, StepNames(e), s.n + 1, bound);
    assert Read(l, s.n + 1 + 0) == bound[StepNames(e)[0]];
    assert Read(l, s.n + 1 + 1) == bound[StepNames(e)[1]];
    forall x: nat | x < s.n ensures Read(m.locals, x) == Read(c.locals, x) {
      assert !InSpan(s.n + 1, 2, x);
    }
  }

  /** What one pass needs to know at the head. */
  lemma ForHeadFacts(t: Table, p: Plan, e: Expr, s: Spot, it: Value, c: Config)
    requires e.For? && AtForHead(t, p, e, s, it, c)
    ensures var inner := ForScope(p, s.cx, e);
            var chain := ForChain(p, s.cx, e, s.target, s.next);
            var attempt := ForAttempt(p, s.cx, e, s.target, s.next, chain);
            var step := ForStep(p, s.cx, e, s.target, s.next);
            && Ready(s) && ForNames(e, s) && Within(s, c) && Read(c.locals, s.n) == it && s.n == p.nextSlot && s.w == iset{s.target} && s.target < s.n
            && c.pc < |t| && t[c.pc] == State(inner.scope, [], Goto(step.entry))
            && step == CompileExpr(attempt.plan, inner, e.step, chain.plan.nextSlot + 1, attempt.entry) && Covers(t, step.plan)
            && s.n + 5 <= chain.plan.nextSlot && attempt.plan.nextSlot == chain.plan.nextSlot + 2
            && attempt.entry == |chain.plan.entries| + 3
  {
    hide Ready, ForPlanned, ForNames, Within, LoopAt, CompileExpr, Covers, ForChain, ForAttempt, ForStep, AtForHead;
    AtForHeadMeans(t, p, e, s, it, c);
    StepPlanned(t, p, e, s);
  }

  lemma AtForHeadMeans(t: Table, p: Plan, e: Expr, s: Spot, it: Value, c: Config)
    requires e.For? && AtForHead(t, p, e, s, it, c)
    ensures Ready(s) && ForPlanned(t, p, e, s) && ForNames(e, s) && Within(s, c) && c.pc == |p.entries| + 1
    ensures Read(c.locals, s.n) == it && s.n == p.nextSlot && s.w == iset{s.target} && s.target < s.n
  {
    hide Ready, ForPlanned, ForNames, Within;
  }

  lemma StepPlanned(t: Table, p: Plan, e: Expr, s: Spot)
    requires e.For? && ForPlanned(t, p, e, s)
    ensures var inner := ForScope(p, s.cx, e);
            var chain := ForChain(p, s.cx, e, s.target, s.next);
            var attempt := ForAttempt(p, s.cx, e, s.target, s.next, chain);
            var step := ForStep(p, s.cx, e, s.target, s.next);
            && |p.entries| + 1 < |t| && t[|p.entries| + 1] == State(inner.scope, [], Goto(step.entry))
            && step == CompileExpr(attempt.plan, inner, e.step, chain.plan.nextSlot + 1, attempt.entry) && Covers(t, step.plan)
            && p.nextSlot + 5 <= chain.plan.nextSlot && attempt.plan.nextSlot == chain.plan.nextSlot + 2
            && attempt.entry == |chain.plan.entries| + 3
  {
    hide CompileExpr, Covers, ForChain, ForAttempt, ForFallback, FallsBack;
  }

  /** The pattern and the body, run on the item. */
  lemma SimulateItem(h: Host, t: Table, p: Plan, e: Expr, s: Spot, bound: Env, c: Config, fuel: nat) returns (steps: nat, k: Config)
    requires e.For? && Scoped(e, s) && Ready(s) && ForPlanned(t, p, e, s) && s.n == p.nextSlot && bound.Keys == {e.itemName, e.successorName}
    requires Ready(ForBodySpot(p, e, s, bound, c)) && c.pc == ForChain(p, s.cx, e, s.target, s.next).entry
    requires Read(c.locals, s.n + 4) == bound[e.itemName]
    ensures var r := EvalArms(h, ForArm(e), bound[e.itemName], ForEnv(e, s.env, bound), c.trace, fuel);
            k == Run(h, t, c, steps) && Simulates(h, ForBodySpot(p, e, s, bound, c), r, fuel, steps, k)
    decreases fuel, ForArm(e), 3
  {
    hide Eval, EvalArms, CompileExpr, CompileArms, Run, Covers, Simulates, Ready, Scoped, ArmsScoped, ForChain, ForAttempt, ForFallback, FallsBack, ForStep;
    ForChainIsArms(p, s.cx, e, s.target, s.next);
    ForArmScoped(p, e, s, bound, c);
    var fallback := ForFallback(p, s.cx, e, s.target, s.next);
    steps, k := SimulateArms(h, t, fallback.plan, ForArm(e), s.n + 4, fallback.entry, bound[e.itemName], ForBodySpot(p, e, s, bound, c), fuel);
  }

  /** The item is done with, normally or by `continue`: back at the head with the successor as iterator. */
  lemma ItemDone(h: Host, t: Table, p: Plan, e: Expr, s: Spot, it: Value, c0: Config, bound: Env, c: Config, r: Result, fuel: nat, steps: nat, k: Config)
    requires e.For? && AtForHead(t, p, e, s, it, c0) && bound.Keys == {e.itemName, e.successorName}
    requires var b := ForBodySpot(p, e, s, bound, c); Ready(b) && Nested(s, b) && Simulates(h, b, r, fuel, steps, k)
    requires Read(c.locals, s.n) == bound[e.successorName] && Within(s, c)
    requires r.Done? && (r.completion.Normal? || (r.completion.Continued? && r.completion.loop == e.target))
    ensures AtForHead(t, p, e, s, bound[e.successorName], k) && k.trace == r.trace
  {
    hide ForPlanned, CtxReady, EnvReady, ScopesReady, Owes;
    var b := ForBodySpot(p, e, s, bound, c);
    assert Keep(c.scopes, s.cx.depth) == c.scopes;
    if r.completion.Continued? {
      var loop := ForLoopOf(p, s.cx, e, s.target, s.next);
      assert b.cx.loops[|s.cx.loops|] == loop;
      OwnLoop(s, b, e.target);
      UnwindsNothing(h, b, r);
      assert Writes(b, k, Span(s.n, 0));
      SpanNothing(b, k, s.n);
    } else {
      UnwindsNothing(h, b, r);
      assert b.w + iset{} == b.w;
    }
    FrameChain(s.c.locals, c.locals, s.n, s.w, k.locals, b.n, b.w, s.w);
  }

  lemma UnwindsNothing(h: Host, b: Spot, r: Result)
    requires Ready(b)
    ensures UnwindOwed(h, b.owed, b.cx.depth, r) == r
  {}

  lemma SpanNothing(b: Spot, k: Config, first: nat)
    requires Writes(b, k, Span(first, 0))
    ensures b.c.Running? && k.Running? && Frame(b.c.locals, k.locals, b.n, b.w)
  {
    forall x: nat | x < b.n && x !in b.w ensures x !in b.w + Span(first, 0) {}
  }

  lemma ForBroken(h: Host, p: Plan, e: Expr, s: Spot, bound: Env, c: Config, r: Result, fuel: nat, a: nat, i: nat, k: Config)
    requires e.For? && Ready(s) && LoopAt(s, ForLoopOf(p, s.cx, e, s.target, s.next)) && fuel > 0
    requires Nested(s, ForBodySpot(p, e, s, bound, c)) && Simulates(h, ForBodySpot(p, e, s, bound, c), r, fuel - 1, i, k)
    requires r.Timeout? ==> a + i >= fuel
    requires r.Done? ==> !r.completion.Normal? && !(r.completion.Continued? && r.completion.loop == e.target)
    ensures Simulates(h, s, if r.Done? && r.completion.Broke? && r.completion.loop == e.target
                            then Done(Normal(WrapSome(e.option, r.completion.value)), r.trace) else r, fuel, a + i, k)
  {
    hide Ready, Transferred, NormallyLeft;
    var loop := ForLoopOf(p, s.cx, e, s.target, s.next);
    if r.Done? { CaughtBreak(h, s, ForBodySpot(p, e, s, bound, c), loop, r, fuel - 1, a, i, k); }
  }

  lemma ForLoopIsAt(t: Table, p: Plan, e: Expr, s: Spot, it: Value, c: Config)
    requires e.For? && AtForHead(t, p, e, s, it, c)
    ensures ForPlanned(t, p, e, s) && LoopAt(s, ForLoopOf(p, s.cx, e, s.target, s.next))
  {}

  /** From the head, one step of the iterator is taken. */
  lemma TakeNext(h: Host, t: Table, p: Plan, e: Expr, s: Spot, it: Value, c: Config, a: nat, fuel: nat) returns (steps: nat, k: Config)
    requires e.For? && Scoped(e, s) && AtForHead(t, p, e, s, it, c) && c == Run(h, t, s.c, a) && fuel > 0
    ensures k == Run(h, t, s.c, steps) && steps > a
    ensures var r := Eval(h, e.step, s.env[e.iteratorName := it], c.trace, fuel - 1);
            var chain := ForChain(p, s.cx, e, s.target, s.next);
            if r.Done? && r.completion.Normal?
            then Within(s, k) && k.pc == |chain.plan.entries| + 3 && k.trace == r.trace && Read(k.locals, chain.plan.nextSlot + 1) == r.completion.value
            else Simulates(h, s, r, fuel, steps, k) && (r.Timeout? ==> steps >= a + fuel)
    decreases fuel, e, 0
  {
    hide Eval, CompileExpr, Run, Covers, Simulates, Scoped, Ready, Step, AtForHead, ForPlanned, ForChain, ForAttempt, ForStep, ForNames;
    ForHeadFacts(t, p, e, s, it, c);
    JumpStep(h, t, ForScope(p, s.cx, e).scope, Goto(ForStep(p, s.cx, e, s.target, s.next).entry), c);
    RunOne(h, t, s.c, a, c);
    PartsOfFor(e, s);
    steps, k := TakeStep(h, t, p, e, s, it, Step(h, t, c), a + 1, fuel - 1);
    var r := Eval(h, e.step, s.env[e.iteratorName := it], c.trace, fuel - 1);
    if !(r.Done? && r.completion.Normal?) { LaterPasses(h, s, r, fuel, steps, k); }
  }

  /** The passes of a `for` loop, from its head. */
  lemma SimulatePasses(h: Host, t: Table, p: Plan, e: Expr, s: Spot, it: Value, c: Config, a: nat, fuel: nat) returns (steps: nat, k: Config)
    requires e.For? && Scoped(e, s) && AtForHead(t, p, e, s, it, c) && c == Run(h, t, s.c, a)
    ensures k == Run(h, t, s.c, steps)
    ensures Simulates(h, s, EvalFor(h, e, s.env, it, c.trace, fuel), fuel, steps, k)
    ensures steps >= a + (if EvalFor(h, e, s.env, it, c.trace, fuel).Timeout? then fuel else 0)
    decreases fuel, e, 1
  {
    hide Eval, EvalArms, EvalFor, CompileExpr, Run, Covers, Simulates, Scoped, Ready, Step, AtForHead, ForPlanned, ForChain, ForAttempt, ForStep, LoopAt, Nested, ForNames, Inner, StepPattern, Matches, ForEnv, ForBodySpot, ForStepSpot, WrapSome, ForFallback;
    ForHeadFacts(t, p, e, s, it, c);
    ForLoopIsAt(t, p, e, s, it, c);
    if fuel == 0 {
      ForOutOfFuel(h, s, e, it, c, a);
      return a, c;
    }
    MeaningOfFor(h, e, s.env, it, c.trace, fuel);
    var b, kb := TakeNext(h, t, p, e, s, it, c, a, fuel);
    var v := Eval(h, e.step, s.env[e.iteratorName := it], c.trace, fuel - 1);
    if !(v.Done? && v.completion.Normal?) {
      return b, kb;
    }
    var kc := Step(h, t, Step(h, t, kb));
    TwoSteps(h, t, s.c, b, kb);
    ForYields(h, t, p, e, s, kb, kc);
    var matched := Matches(StepPattern(e.iteration, e.itemName, e.successorName), v.completion.value);
    if matched.None? {
      ForFinishes(h, t, p, e, s, kc, fuel, b + 3);
      RunOne(h, t, s.c, b + 2, kc);
      return b + 3, Step(h, t, kc);
    }
    var bound := matched.value;
    AdvanceSteps(h, t, p, e, s, bound, kc);
    var kd := Step(h, t, Step(h, t, kc));
    TwoSteps(h, t, s.c, b + 2, kc);
    ForBodySpotReady(p, e, s, bound, kd);
    var i, ki := SimulateItem(h, t, p, e, s, bound, kd, fuel - 1);
    RunAdds(h, t, s.c, b + 4, i);
    var r := EvalArms(h, ForArm(e), bound[e.itemName], ForEnv(e, s.env, bound), v.trace, fuel - 1);
    if r.Done? && (r.completion.Normal? || (r.completion.Continued? && r.completion.loop == e.target)) {
      ItemDone(h, t, p, e, s, it, c, bound, kd, r, fuel - 1, i, ki);
      steps, k := SimulatePasses(h, t, p, e, s, bound[e.successorName], ki, b + 4 + i, fuel - 1);
      LaterPasses(h, s, EvalFor(h, e, s.env, bound[e.successorName], r.trace, fuel - 1), fuel, steps, k);
    } else {
      if r.Timeout? { TimeoutSteps(h, ForBodySpot(p, e, s, bound, kd), r, fuel - 1, i, ki); }
      ForBroken(h, p, e, s, bound, kd, r, fuel, b + 4, i, ki);
      return b + 4 + i, ki;
    }
  }

  lemma ForOutOfFuel(h: Host, s: Spot, e: Expr, it: Value, c: Config, a: nat)
    requires e.For? && c.Running?
    ensures EvalFor(h, e, s.env, it, c.trace, 0) == Timeout && Simulates(h, s, Timeout, 0, a, c)
  {}

  lemma LaterPasses(h: Host, s: Spot, r: Result, fuel: nat, steps: nat, k: Config)
    requires fuel > 0 && Simulates(h, s, r, fuel - 1, steps, k) && (r.Timeout? ==> steps >= fuel)
    ensures Simulates(h, s, r, fuel, steps, k)
  {}

  /** Advancing the iteration: the step expression, evaluated into its temporary. */
  lemma TakeStep(h: Host, t: Table, p: Plan, e: Expr, s: Spot, it: Value, c: Config, a: nat, fuel: nat) returns (steps: nat, k: Config)
    requires e.For? && Ready(s) && s.n == p.nextSlot && ForNames(e, s) && s.w == iset{s.target} && s.target < s.n
    requires Within(s, c) && Read(c.locals, s.n) == it && c == Run(h, t, s.c, a)
    requires WellFormed(e.step, s.env.Keys + {e.iteratorName}, Sigs(s.cx.loops), BlockTargets(s.cx.blocks))
    requires var chain := ForChain(p, s.cx, e, s.target, s.next);
             var attempt := ForAttempt(p, s.cx, e, s.target, s.next, chain);
             var step := CompileExpr(attempt.plan, ForScope(p, s.cx, e), e.step, chain.plan.nextSlot + 1, attempt.entry);
             Covers(t, step.plan) && c.pc == step.entry && s.n + 5 <= chain.plan.nextSlot && attempt.plan.nextSlot == chain.plan.nextSlot + 2
    ensures k == Run(h, t, s.c, steps) && steps >= a
    ensures var r := Eval(h, e.step, s.env[e.iteratorName := it], c.trace, fuel);
            var chain := ForChain(p, s.cx, e, s.target, s.next);
            if r.Done? && r.completion.Normal?
            then Within(s, k) && k.pc == ForAttempt(p, s.cx, e, s.target, s.next, chain).entry && k.trace == r.trace
                 && Read(k.locals, chain.plan.nextSlot + 1) == r.completion.value
            else Simulates(h, s, r, fuel, steps, k) && (r.Timeout? ==> steps >= a + fuel)
    decreases fuel, e, 4
  {
    hide Eval, CompileExpr, Run, Covers, Simulates, Scoped, Ready, ForChain, ForAttempt, ForNames, Inner, WellFormed;
    var s1 := ForStepSpot(p, e, s, it, c);
    ForStepSpotReady(p, e, s, it, c);
    ForStepScoped(p, e, s, it, c);
    Starts(h, t, s1);
    var chain := ForChain(p, s.cx, e, s.target, s.next);
    var attempt := ForAttempt(p, s.cx, e, s.target, s.next, chain);
    var b, kb := SimulateOperand(h, t, attempt.plan, e.step, chain.plan.nextSlot + 1, attempt.entry, s1, c, 0, fuel);
    RunAdds(h, t, s.c, a, b);
    steps, k := a + b, kb;
    var r := Eval(h, e.step, s1.env, c.trace, fuel);
    if r.Done? && r.completion.Normal? {
      InnerWithin(s, s1, kb);
    } else {
      SimulatesInner(h, s, s1, r, fuel, a, b, kb);
      if r.Timeout? { TimeoutSteps(h, s1, r, fuel, b, kb); }
    }
  }

  lemma MeaningOfForEntry(h: Host, e: Expr, env: Env, tr: Trace, fuel: nat)
    requires e.For?
    ensures var it := Eval(h, e.source, env, tr, fuel);
            Eval(h, e, env, tr, fuel) ==
              if !(it.Done? && it.completion.Normal?) then it else EvalFor(h, e, env, it.completion.value, it.trace, fuel)
  {}

  lemma ForHeadReached(t: Table, p: Plan, e: Expr, s: Spot, it: Value, m: Config, k: Config)
    requires e.For? && Ready(s) && ForPlanned(t, p, e, s) && ForNames(e, s) && s.n == p.nextSlot && s.target < s.n
    requires s.w == iset{s.target} && s.d == s.cx.depth && Within(s, m)
    requires k == Running(|p.entries| + 1, m.locals[s.n := it], m.scopes, m.trace)
    ensures AtForHead(t, p, e, s, it, k)
  {
    hide ForPlanned, Ready;
  }

  lemma SimulateFor(h: Host, t: Table, p: Plan, e: Expr, s: Spot, fuel: nat) returns (steps: nat, k: Config)
    requires e.For?
    requires Scoped(e, s) && Enters(t, p, CompileExpr(p, s.cx, e, s.target, s.next), s)
    ensures k == Run(h, t, s.c, steps) && Simulates(h, s, Eval(h, e, s.env, s.c.trace, fuel), fuel, steps, k)
    decreases fuel, e, 2
  {
    hide Eval, EvalFor, CompileExpr, Run, Covers, Simulates, Scoped, Ready, Step, AtForHead, ForPlanned, ForFilled, ForNames, ForScope;
    var cx := s.cx;
    PartsOfFor(e, s);
    PlanOfFor(p, cx, e, s.target, s.next);
    MeaningOfForEntry(h, e, s.env, s.c.trace, fuel);
    var filled := ForFilled(p, cx, e, s.target, s.next);
    var inner := ForScope(p, cx, e);
    var v := filled.nextSlot;
    var initialized := Emit(Slots(filled, 1), inner, cx.depth, [Store(p.nextSlot, Slot(v))], Goto(|p.entries| + 1));
    var whole := CompileExpr(initialized.plan, inner, e.source, v, initialized.entry);
    ForInnerDepth(p, cx, e, s.target, s.next);
    Emitted(t, Slots(filled, 1), inner, cx.depth, [Store(p.nextSlot, Slot(v))], Goto(|p.entries| + 1), whole.plan);
    CoversPrefix(t, filled, Slots(filled, 1));
    ForLoopPlanned(t, p, e, s, filled);
    ForSourceReady(p, e, s);
    var wide := s.(cx := inner);
    ForSourceScoped(p, e, s);
    Starts(h, t, wide);
    var a, ka := SimulateOperand(h, t, initialized.plan, e.source, v, initialized.entry, wide, s.c, 0, fuel);
    var it := Eval(h, e.source, s.env, s.c.trace, fuel);
    if !(it.Done? && it.completion.Normal?) {
      WiderScopeSimulates(h, s, inner.scope, it, fuel, a, ka);
      return a, ka;
    }
    StoreStep(h, t, inner.scope, p.nextSlot, Slot(v), |p.entries| + 1, ka);
    RunOne(h, t, s.c, a, ka);
    ForHeadReached(t, p, e, s, it.completion.value, ka, Step(h, t, ka));
    steps, k := SimulatePasses(h, t, p, e, s, it.completion.value, Step(h, t, ka), a + 1, fuel);
  }

  lemma ForInnerDepth(p: Plan, cx: Ctx, e: Expr, target: nat, next: nat)
    requires e.For?
    ensures ForScope(p, cx, e) == cx.(scope := ForScope(p, cx, e).scope) && p.nextSlot <= ForFilled(p, cx, e, target, next).nextSlot
  {
    ForReserves(p, cx, e, target, next);
    hide CompileExpr;
  }

  lemma ForSourceScoped(p: Plan, e: Expr, s: Spot)
    requires e.For? && Scoped(e.source, s)
    ensures Scoped(e.source, s.(cx := ForScope(p, s.cx, e)))
  {}
}
