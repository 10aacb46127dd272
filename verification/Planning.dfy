/** What the activation planner produces, as functions from an expression and a partial plan to a longer plan.
    The planner itself (module ActivationPlanner) is proved to build exactly these plans. */
module Planning {
  import opened Values
  import opened Patterns
  import opened Hir
  import opened StateTable

  /** A reserved number is filled later; until then only the cleanup depth it will be entered at is known.
      `depth` is the planner's static cleanup depth on entry; it is not emitted. */
  datatype Entry = Reserved(depth: nat) | Filled(state: State, depth: nat)

  datatype Plan = Plan(entries: seq<Entry>, nextSlot: nat)

  /** A loop the code being planned is inside of: what a transition and a `break` need, and the state a plain
      `continue` goes to (`resume`). */
  datatype Loop = Loop(sig: LoopSig, result: nat, exit: nat, depth: nat, option: Option<OptionAbi>,
                       head: nat, resume: nat, continueDepth: nat, first: nat)

  datatype BlockExit = BlockExit(target: nat, result: nat, exit: nat, depth: nat)

  /** What is in scope: names and their slots, enclosing loops and labelled blocks, open cleanup scopes. */
  datatype Ctx = Ctx(scope: Scope, loops: seq<Loop>, blocks: seq<BlockExit>, depth: nat)

  /** A longer plan and the state execution enters it by. */
  datatype Code = Code(plan: Plan, entry: nat)

  /** As `Code`, with the scope as the statements leave it (a block's later lets included). */
  datatype StmtCode = StmtCode(plan: Plan, entry: nat, scope: Scope)

  function Sigs(loops: seq<Loop>): (r: seq<LoopSig>)
    ensures |r| == |loops| && forall i | 0 <= i < |r| :: r[i] == loops[i].sig
  {
    seq(|loops|, i requires 0 <= i < |loops| => loops[i].sig)
  }

  function BlockTargets(blocks: seq<BlockExit>): (r: seq<nat>)
    ensures |r| == |blocks| && forall i | 0 <= i < |r| :: r[i] == blocks[i].target
  {
    seq(|blocks|, i requires 0 <= i < |blocks| => blocks[i].target)
  }

  /** A longer plan: everything already planned is kept. */
  ghost predicate Grows(p: Plan, q: Plan) {
    && p.nextSlot <= q.nextSlot
    && |p.entries| <= |q.entries|
    && forall i | 0 <= i < |p.entries| :: q.entries[i] == p.entries[i]
  }

  function Emit(p: Plan, cx: Ctx, depth: nat, actions: seq<Action>, terminal: Terminal): (r: Code)
    ensures Grows(p, r.plan)
    ensures r.entry < |r.plan.entries|
  {
    Code(p.(entries := p.entries + [Filled(State(cx.scope, actions, terminal), depth)]), |p.entries|)
  }

  function StoreState(p: Plan, cx: Ctx, target: nat, value: Operand, next: nat): (r: Code)
    ensures Grows(p, r.plan)
    ensures r.entry < |r.plan.entries|
  {
    Emit(p, cx, cx.depth, [Store(target, value)], Goto(next))
  }

  function Reserve(p: Plan, depth: nat): (r: Code)
    ensures Grows(p, r.plan)
  {
    Code(p.(entries := p.entries + [Reserved(depth)]), |p.entries|)
  }

  function Fill(p: Plan, cx: Ctx, id: nat, depth: nat, terminal: Terminal): Plan {
    if id < |p.entries| then p.(entries := p.entries[id := Filled(State(cx.scope, [], terminal), depth)]) else p
  }

  function Slots(p: Plan, count: nat): (r: Plan)
    ensures Grows(p, r)
  {
    p.(nextSlot := p.nextSlot + count)
  }

  function BindAll(scope: Scope, names: seq<string>, first: nat): Scope
    decreases |names|
  {
    if |names| == 0 then scope else BindAll(scope[names[0] := first], names[1..], first + 1)
  }

  function Atomic(e: Expr): bool {
    !e.Call? && !IsControl(e) && !NeedsSplit(e)
  }

  /** Copy every loop binding between its slot and a scratch slot. */
  function Snapshots(names: seq<string>, scratch: nat): seq<Action>
    decreases |names|
  {
    if |names| == 0 then [] else [Store(scratch, Direct(Local(names[0])))] + Snapshots(names[1..], scratch + 1)
  }

  function Commits(count: nat, first: nat, scratch: nat): seq<Action>
    decreases count
  {
    if count == 0 then [] else [Store(first, Slot(scratch))] + Commits(count - 1, first + 1, scratch + 1)
  }

  function IndexOf(names: seq<string>, name: string): (r: nat)
    ensures name in names ==> r < |names| && names[r] == name
    decreases |names|
  {
    if |names| == 0 || names[0] == name then 0 else 1 + IndexOf(names[1..], name)
  }

  /** Plan `e` so that its value ends up in `target` and control continues at `next`. */
  function CompileExpr(p: Plan, cx: Ctx, e: Expr, target: nat, next: nat): (r: Code)
    ensures Grows(p, r.plan)
    decreases e, 1
  {
    hide Atomic, Size, Managed;
    if Atomic(e) then StoreState(p, cx, target, Direct(e), next) else
    match e
    case Const(_) | Local(_) => Code(p, next)
    case Call(values) =>
      var call := Emit(Slots(p, Size(values)), cx, cx.depth, [], Transfer(p.nextSlot, Size(values), next, target));
      CompileAll(call.plan, cx, values, p.nextSlot, call.entry)
    case Binary(op, lhs, rhs) =>
      var store := StoreState(Slots(p, 2), cx, target, BinarySlots(op, p.nextSlot, p.nextSlot + 1), next);
      var r := CompileExpr(store.plan, cx, rhs, p.nextSlot + 1, store.entry);
      CompileExpr(r.plan, cx, lhs, p.nextSlot, r.entry)
    case Logical(both, lhs, rhs) =>
      var r := CompileExpr(p, cx, rhs, target, next);
      var l := r.plan.nextSlot;
      var short := StoreState(Slots(r.plan, 1), cx, target, Slot(l), next);
      var branch := Emit(short.plan, cx, cx.depth, [],
                         if both then Branch(l, r.entry, short.entry) else Branch(l, short.entry, r.entry));
      CompileExpr(branch.plan, cx, lhs, l, branch.entry)
    case Block(stmts) =>
      if Managed(stmts) then
        var leave := Emit(p, cx, cx.depth + 1, [UnwindCleanupScopes(cx.depth)], Goto(next));
        var body := CompileStmts(leave.plan, cx.(depth := cx.depth + 1), stmts, target, leave.entry);
        Emit(body.plan, cx, cx.depth, [EnterCleanupScope], Goto(body.entry))
      else
        var body := CompileStmts(p, cx, stmts, target, next);
        Code(body.plan, body.entry)
    case LabeledBlock(mark, body) =>
      CompileExpr(p, cx.(blocks := cx.blocks + [BlockExit(mark, target, next, cx.depth)]), body, target, next)
    case If(cond, thn, els) =>
      var t := CompileExpr(p, cx, thn, target, next);
      var f := if els.Some? then CompileExpr(t.plan, cx, els.value, target, next)
               else StoreState(t.plan, cx, target, Direct(UNIT), next);
      var c := f.plan.nextSlot;
      var branch := Emit(Slots(f.plan, 1), cx, cx.depth, [], Branch(c, t.entry, f.entry));
      CompileExpr(branch.plan, cx, cond, c, branch.entry)
    case MatchOn(scrutinee, arms) =>
      var s := p.nextSlot;
      var fallback := StoreState(Slots(p, 1), cx, target, Direct(UNIT), next);
      var chain := CompileArms(fallback.plan, cx, arms, s, target, next, fallback.entry);
      CompileExpr(chain.plan, cx, scrutinee, s, chain.entry)
    case StateLoop(_, _, _) => CompileStateLoop(p, cx, e, target, next)
    case For(_, _, _, _, _, _, _, _, _, _) => CompileFor(p, cx, e, target, next)
    case Break(mark, value) =>
      var found := FindLoop(Sigs(cx.loops), mark);
      if found.None? then Code(p, next) else
      var loop := cx.loops[found.value];
      var leave := Emit(Slots(p, 1), cx, cx.depth,
                        [Store(loop.result, SomeSlot(loop.option, p.nextSlot)), UnwindCleanupScopes(loop.depth)],
                        Goto(loop.exit));
      CompileExpr(leave.plan, cx, value, p.nextSlot, leave.entry)
    case Continue(mark) =>
      var found := FindLoop(Sigs(cx.loops), mark);
      if found.None? then Code(p, next) else
      var loop := cx.loops[found.value];
      Emit(p, cx, cx.depth, [UnwindCleanupScopes(loop.depth)], Goto(loop.resume))
    case ContinueTransition(mark, replacements) =>
      var found := FindLoop(Sigs(cx.loops), mark);
      if found.None? then Code(p, next) else
      var loop := cx.loops[found.value];
      var commit := CommitState(p, cx, loop);
      var evaluate := CompileReplacements(commit.plan, cx, replacements, loop.sig.names, p.nextSlot, commit.entry);
      SnapshotState(evaluate, cx, loop, p.nextSlot)
  }

  /** Plan operands left to right into consecutive slots. */
  function CompileAll(p: Plan, cx: Ctx, es: Exprs, first: nat, next: nat): (r: Code)
    ensures Grows(p, r.plan)
    decreases es
  {
    if es.NoExprs? then Code(p, next) else
    var rest := CompileAll(p, cx, es.tail, first + 1, next);
    CompileExpr(rest.plan, cx, es.head, first, rest.entry)
  }

  function CompileStmts(p: Plan, cx: Ctx, ss: Stmts, target: nat, next: nat): (r: StmtCode)
    ensures Grows(p, r.plan)
    decreases ss
  {
    match ss
    case Tail(tail) =>
      var code := if tail.Some? then CompileExpr(p, cx, tail.value, target, next)
                  else StoreState(p, cx, target, Direct(UNIT), next);
      StmtCode(code.plan, code.entry, cx.scope)
    case Let(name, value, closer, rest) =>
      var inner := cx.(scope := cx.scope[name := p.nextSlot]);
      var remainder := CompileStmts(Slots(p, 1), inner, rest, target, next);
      var v := remainder.plan.nextSlot;
      var init := Emit(Slots(remainder.plan, 1), cx.(scope := remainder.scope), cx.depth,
                       [Store(p.nextSlot, Slot(v))] + if closer.Some? then [RegisterCleanup(closer.value, p.nextSlot)] else [],
                       Goto(remainder.entry));
      var code := CompileExpr(init.plan, cx, value, v, init.entry);
      StmtCode(code.plan, code.entry, remainder.scope)
    case Do(value, rest) =>
      var remainder := CompileStmts(p, cx, rest, target, next);
      var d := remainder.plan.nextSlot;
      var code := CompileExpr(Slots(remainder.plan, 1), cx.(scope := remainder.scope), value, d, remainder.entry);
      StmtCode(code.plan, code.entry, remainder.scope)
    case Return(result, to, _) =>
      var r := p.nextSlot;
      var leave :=
        if to.FromCallable? then Emit(Slots(p, 1), cx, cx.depth, [], ReturnSlot(r)) else
        var found := Innermost(BlockTargets(cx.blocks), to.block);
        if found.None? then Code(p, next) else
        var block := cx.blocks[found.value];
        Emit(Slots(p, 1), cx, cx.depth, [Store(block.result, Slot(r)), UnwindCleanupScopes(block.depth)], Goto(block.exit));
      var code := if result.Some? then CompileExpr(leave.plan, cx, result.value, r, leave.entry)
                  else StoreState(leave.plan, cx, r, Direct(UNIT), leave.entry);
      StmtCode(code.plan, code.entry, cx.scope)
  }

  /** Arms are planned last first, each falling back to the one after it. */
  function CompileArms(p: Plan, cx: Ctx, arms: Arms, scrutinee: nat, target: nat, next: nat, fallback: nat): (r: Code)
    ensures Grows(p, r.plan)
    decreases arms
  {
    if arms.NoArms? then Code(p, fallback) else
    var rest := CompileArms(p, cx, arms.rest, scrutinee, target, next, fallback);
    var first := rest.plan.nextSlot;
    var inner := cx.(scope := BindAll(cx.scope, Names(arms.pat), first));
    var body := CompileExpr(Slots(rest.plan, |Names(arms.pat)|), inner, arms.body, target, next);
    var committed :=
      if arms.guard.None? then body else
      var g := body.plan.nextSlot;
      var branch := Emit(Slots(body.plan, 1), inner, cx.depth, [], Branch(g, body.entry, rest.entry));
      CompileExpr(branch.plan, inner, arms.guard.value, g, branch.entry);
    TestArm(committed, inner, scrutinee, arms.pat, first, rest.entry)
  }

  /** Test the pattern; on a match its names are bound and control goes to `matched`, otherwise to `fallback`. */
  function TestArm(matched: Code, cx: Ctx, scrutinee: nat, pat: Pat, first: nat, fallback: nat): (r: Code)
    ensures Grows(matched.plan, r.plan)
  {
    var m := matched.plan.nextSlot;
    var branch := Emit(Slots(matched.plan, 1), cx, cx.depth, [], Branch(m, matched.entry, fallback));
    Emit(branch.plan, cx, cx.depth, [StoreMatch(m, scrutinee, pat, first)], Goto(branch.entry))
  }

  function CompileStateLoop(p: Plan, cx: Ctx, e: Expr, target: nat, next: nat): (r: Code)
    ensures Grows(p, r.plan)
    requires e.StateLoop?
    decreases e, 0
  {
    var names := BoundNames(e.bindings);
    var header := cx.depth + 1;
    var head := Reserve(p, header);
    var first := p.nextSlot;
    var inner := cx.(scope := BindAll(cx.scope, names, first), depth := header);
    // The two states after the head take every binding over unchanged; a plain `continue` enters the second.
    var loop := Loop(LoopSig(e.target, names, true), target, next, cx.depth, None, head.entry, head.entry + 2, header, first);
    var commit := CommitState(Slots(head.plan, |names|), inner, loop);
    var again := SnapshotState(commit, inner, loop, first + |names|);
    var discarded := again.plan.nextSlot;
    var code := CompileExpr(Slots(again.plan, 1), inner.(loops := cx.loops + [loop]), e.body, discarded, again.entry);
    var filled := Fill(code.plan, inner, head.entry, header, Goto(code.entry));
    var inits := CompileInits(filled, inner, e.bindings, first, head.entry);
    Emit(inits.plan, cx, cx.depth, [EnterCleanupScope], Goto(inits.entry))
  }

  /** Initial values, each stored into its binding before the next one is computed. */
  function CompileInits(p: Plan, cx: Ctx, bs: BindList, first: nat, next: nat): (r: Code)
    ensures Grows(p, r.plan)
    decreases bs
  {
    if bs.NoBindings? then Code(p, next) else
    var rest := CompileInits(p, cx, bs.rest, first + 1, next);
    var v := rest.plan.nextSlot;
    var install := Emit(Slots(rest.plan, 1), cx, cx.depth, [Store(first, Slot(v))], Goto(rest.entry));
    CompileExpr(install.plan, cx, bs.value, v, install.entry)
  }

  /** The end of a transition: leave the scopes opened inside the loop, take over every scratch value. */
  function CommitState(p: Plan, cx: Ctx, loop: Loop): (r: Code)
    ensures Grows(p, r.plan)
  {
    Emit(Slots(p, |loop.sig.names|), cx, cx.depth,
         [UnwindCleanupScopes(loop.continueDepth)] + Commits(|loop.sig.names|, loop.first, p.nextSlot), Goto(loop.head))
  }

  /** The start of a transition: every scratch slot begins as the current binding. */
  function SnapshotState(code: Code, cx: Ctx, loop: Loop, scratch: nat): (r: Code)
    ensures Grows(code.plan, r.plan)
  {
    Emit(code.plan, cx, cx.depth, Snapshots(loop.sig.names, scratch), Goto(code.entry))
  }

  /** Replacements, each computed into the scratch slot of the binding it replaces. */
  function CompileReplacements(p: Plan, cx: Ctx, bs: BindList, names: seq<string>, scratch: nat, next: nat): (r: Code)
    ensures Grows(p, r.plan)
    decreases bs
  {
    if bs.NoBindings? then Code(p, next) else
    var rest := CompileReplacements(p, cx, bs.rest, names, scratch, next);
    CompileExpr(rest.plan, cx, bs.value, scratch + IndexOf(names, bs.name), rest.entry)
  }

  /** The names a `for` loop brings into scope before its pattern. */
  function ForScope(p: Plan, cx: Ctx, e: Expr): Ctx
    requires e.For?
  {
    cx.(scope := cx.scope[e.iteratorName := p.nextSlot][e.itemName := p.nextSlot + 1][e.successorName := p.nextSlot + 2])
  }

  function ForLoopOf(p: Plan, cx: Ctx, e: Expr, target: nat, next: nat): Loop
    requires e.For?
  {
    Loop(LoopSig(e.target, [], false), target, next, cx.depth, e.option, |p.entries| + 1, |p.entries| + 1, cx.depth, p.nextSlot)
  }

  function ForBodyCx(p: Plan, cx: Ctx, e: Expr, target: nat, next: nat): Ctx
    requires e.For?
  {
    ForScope(p, cx, e).(loops := cx.loops + [ForLoopOf(p, cx, e, target, next)])
  }

  /** The exit when nothing is yielded, the reserved head, and what an item the pattern rejects falls back to. */
  function ForFallback(p: Plan, cx: Ctx, e: Expr, target: nat, next: nat): (r: Code)
    requires e.For?
    ensures Grows(p, r.plan)
  {
    var finish := Emit(Slots(p, 3), ForScope(p, cx, e), cx.depth, [Store(target, Direct(Const(NoneOf(e.option))))], Goto(next));
    var head := Reserve(finish.plan, cx.depth);
    StoreState(Slots(head.plan, 2), ForBodyCx(p, cx, e, target, next), p.nextSlot + 3, Direct(UNIT), head.entry)
  }

  function ForArmCx(p: Plan, cx: Ctx, e: Expr, target: nat, next: nat): Ctx
    requires e.For?
  {
    ForBodyCx(p, cx, e, target, next).(scope := BindAll(ForScope(p, cx, e).scope, Names(e.pat), p.nextSlot + 5))
  }

  /** The states between a step and the body: take it apart, advance the iterator, hand the item to the pattern. */
  function ForAttempt(p: Plan, cx: Ctx, e: Expr, target: nat, next: nat, chain: Code): (r: Code)
    requires e.For?
    ensures Grows(chain.plan, r.plan)
  {
    var it, inner := p.nextSlot, ForScope(p, cx, e);
    var body := StoreState(chain.plan, ForBodyCx(p, cx, e, target, next), it + 4, Direct(Local(e.itemName)), chain.entry);
    var advance := Emit(body.plan, inner, cx.depth, [Store(it, Direct(Local(e.successorName)))], Goto(body.entry));
    var m := advance.plan.nextSlot;
    var branch := Emit(Slots(advance.plan, 1), inner, cx.depth, [], Branch(m, advance.entry, |p.entries|));
    Emit(Slots(branch.plan, 1), inner, cx.depth,
         [StoreMatch(m, m + 1, StepPattern(e.iteration, e.itemName, e.successorName), it + 1)], Goto(branch.entry))
  }

  function CompileFor(p: Plan, cx: Ctx, e: Expr, target: nat, next: nat): (r: Code)
    requires e.For?
    ensures Grows(p, r.plan)
    decreases e, 0
  {
    hide Names, NeedsSplit, Managed, BoundNames, Size, IsControl, ForScope, ForArmCx, ForBodyCx, BindAll;
    var inner, head := ForScope(p, cx, e), |p.entries| + 1;
    // The body runs under a one-armed match on the item.
    var fallback := ForFallback(p, cx, e, target, next);
    var armCx := ForArmCx(p, cx, e, target, next);
    var inside := CompileExpr(Slots(fallback.plan, |Names(e.pat)|), armCx, e.body, p.nextSlot + 3, head);
    var chain := TestArm(inside, armCx, p.nextSlot + 4, e.pat, p.nextSlot + 5, fallback.entry);
    var attempt := ForAttempt(p, cx, e, target, next, chain);
    var step := CompileExpr(attempt.plan, inner, e.step, chain.plan.nextSlot + 1, attempt.entry);
    var filled := Fill(step.plan, inner, head, cx.depth, Goto(step.entry));
    var initial := filled.nextSlot;
    var initialized := Emit(Slots(filled, 1), inner, cx.depth, [Store(p.nextSlot, Slot(initial))], Goto(head));
    CompileExpr(initialized.plan, inner, e.source, initial, initialized.entry)
  }

  /** The whole callable: state 0 enters the body, whose value the last state returns. */
  function PlanCallable(parameters: seq<string>, body: Expr): Plan {
    var scope := BindAll(map[], parameters, 0);
    var cx := Ctx(scope, [], [], 1);
    var result := |parameters|;
    var start := Plan([Reserved(1)], result + 1);
    var terminal := Emit(start, cx, 1, [], ReturnSlot(result));
    var code := CompileExpr(terminal.plan, cx, body, result, terminal.entry);
    Fill(code.plan, cx, 0, 1, Goto(code.entry))
  }
}
