/** Static facts about every plan: no number stays reserved, every jump lands on a planned state, and the cleanup
    depth the planner counts is the number of scopes open at run time. */
module PlanSafety {
  import opened Values
  import opened Patterns
  import opened Hir
  import opened StateTable
  import opened Planning
  import opened Simulation
  import opened SimulationProof
  import opened PlannerCorrectness

  /** The number of open scopes after an action, or nothing when the action would leave scopes it may not leave. */
  function DepthAfter(a: Action, depth: nat): Option<nat> {
    match a
    case Store(_, _) => Some(depth)
    case StoreMatch(_, _, _, _) => Some(depth)
    case RegisterCleanup(_, _) => if depth > 0 then Some(depth) else None
    case EnterCleanupScope => Some(depth + 1)
    case UnwindCleanupScopes(d) => if d <= depth then Some(d) else None
  }

  function DepthAfterAll(actions: seq<Action>, depth: nat): Option<nat> {
    if |actions| == 0 then Some(depth) else
    match DepthAfter(actions[0], depth)
    case None => None
    case Some(d) => DepthAfterAll(actions[1..], d)
  }

  function Jumps(t: Terminal): set<nat> {
    match t
    case Goto(next) => {next}
    case Branch(_, a, b) => {a, b}
    case Transfer(_, _, resume, _) => {resume}
    case ReturnSlot(_) => {}
  }

  /** `j` is a number of the plan and will be entered with `depth` scopes open. */
  ghost predicate At(p: Plan, j: nat, depth: nat) {
    j < |p.entries| && p.entries[j].depth == depth
  }

  /** The state at `i` keeps the count: its actions are possible at its own depth, every jump expects the result. */
  ghost predicate Sound(p: Plan, i: nat)
    requires i < |p.entries|
  {
    p.entries[i].Filled? ==>
      var after := DepthAfterAll(p.entries[i].state.actions, p.entries[i].depth);
      after.Some? && forall j | j in Jumps(p.entries[i].state.terminal) :: At(p, j, after.value)
  }

  /** `q` is `p` with sound, filled states added. */
  ghost predicate Added(p: Plan, q: Plan) {
    && Grows(p, q)
    && forall i | |p.entries| <= i < |q.entries| :: q.entries[i].Filled? && Sound(q, i)
  }

  /** The continuation, the enclosing loops and the enclosing blocks are all entered at the depths they expect. */
  ghost predicate CtxSound(p: Plan, cx: Ctx) {
    && cx.depth > 0
    && (forall i | 0 <= i < |cx.loops| :: LoopSound(p, cx, cx.loops[i]))
    && (forall i | 0 <= i < |cx.blocks| :: At(p, cx.blocks[i].exit, cx.blocks[i].depth) && cx.blocks[i].depth <= cx.depth)
  }

  ghost predicate LoopSound(p: Plan, cx: Ctx, loop: Loop) {
    && At(p, loop.exit, loop.depth) && loop.depth <= cx.depth
    && At(p, loop.head, loop.continueDepth) && loop.continueDepth <= cx.depth
    && (!loop.sig.carriesState ==> loop.depth == loop.continueDepth && loop.resume == loop.head)
  }

  /** The code stands in a context it is well-formed in. */
  ghost predicate Fits(e: Expr, cx: Ctx) {
    Targeted(e, Sigs(cx.loops), BlockTargets(cx.blocks))
  }

  ghost predicate CodeSound(p: Plan, cx: Ctx, r: Code) {
    Added(p, r.plan) && At(r.plan, r.entry, cx.depth)
  }

  lemma AddedTrans(p: Plan, q: Plan, r: Plan)
    requires Added(p, q) && Added(q, r)
    ensures Added(p, r)
  {
    forall i | |p.entries| <= i < |r.entries| ensures r.entries[i].Filled? && Sound(r, i) {
      if i < |q.entries| {
        assert Sound(q, i) && r.entries[i] == q.entries[i];
      }
    }
  }

  lemma CtxSoundLater(p: Plan, q: Plan, cx: Ctx)
    requires CtxSound(p, cx) && Grows(p, q)
    ensures CtxSound(q, cx)
  {
    forall i | 0 <= i < |cx.loops| ensures LoopSound(q, cx, cx.loops[i]) {
      assert LoopSound(p, cx, cx.loops[i]);
    }
  }

  lemma EmitSound(p: Plan, cx: Ctx, depth: nat, actions: seq<Action>, terminal: Terminal)
    requires DepthAfterAll(actions, depth).Some?
    requires forall j | j in Jumps(terminal) :: At(p, j, DepthAfterAll(actions, depth).value)
    ensures Added(p, Emit(p, cx, depth, actions, terminal).plan)
    ensures At(Emit(p, cx, depth, actions, terminal).plan, Emit(p, cx, depth, actions, terminal).entry, depth)
  {}

  lemma OneAction(a: Action, depth: nat)
    ensures DepthAfterAll([a], depth) == DepthAfter(a, depth)
  {
    assert [a][1..] == [];
  }

  lemma TwoActions(a: Action, b: Action, depth: nat)
    requires DepthAfter(a, depth).Some?
    ensures DepthAfterAll([a, b], depth) == DepthAfter(b, DepthAfter(a, depth).value)
  {
    assert [a, b][1..] == [b];
    OneAction(b, DepthAfter(a, depth).value);
  }

  lemma StoreSound(p: Plan, cx: Ctx, target: nat, value: Operand, next: nat)
    requires At(p, next, cx.depth)
    ensures CodeSound(p, cx, StoreState(p, cx, target, value, next))
  {
    OneAction(Store(target, value), cx.depth);
    EmitSound(p, cx, cx.depth, [Store(target, value)], Goto(next));
  }

  /** Code planned after `p1`, which is `p` with sound states added, is code planned after `p`. */
  lemma Chained(p: Plan, p1: Plan, cx: Ctx, r: Code)
    requires Added(p, p1) && CodeSound(p1, cx, r)
    ensures CodeSound(p, cx, r)
  {
    AddedTrans(p, p1, r.plan);
  }

  lemma SlotsAdded(p: Plan, count: nat)
    ensures Added(p, Slots(p, count))
  {}

  /** A state emitted at the current depth. */
  lemma Emits(p: Plan, p1: Plan, cx: Ctx, actions: seq<Action>, terminal: Terminal)
    requires Added(p, p1) && DepthAfterAll(actions, cx.depth).Some?
    requires forall j | j in Jumps(terminal) :: At(p1, j, DepthAfterAll(actions, cx.depth).value)
    ensures CodeSound(p, cx, Emit(p1, cx, cx.depth, actions, terminal))
  {
    EmitSound(p1, cx, cx.depth, actions, terminal);
    AddedTrans(p, p1, Emit(p1, cx, cx.depth, actions, terminal).plan);
  }

  /** A number reserved after `p0` has been filled with a jump into code planned since. */
  lemma FillSound(p: Plan, p0: Plan, q: Plan, cx: Ctx, depth: nat, entry: nat)
    requires Added(p, p0) && Added(Reserve(p0, depth).plan, q) && At(q, entry, depth)
    ensures Added(p, Fill(q, cx, |p0.entries|, depth, Goto(entry)))
    ensures At(Fill(q, cx, |p0.entries|, depth, Goto(entry)), |p0.entries|, depth)
  {
    var filled := Fill(q, cx, |p0.entries|, depth, Goto(entry));
    var id := |p0.entries|;
    assert q.entries[id] == Reserved(depth);
    forall j, d | At(q, j, d) ensures At(filled, j, d) {}
    forall i | |p.entries| <= i < |filled.entries| ensures filled.entries[i].Filled? && Sound(filled, i) {
      if i < id {
        assert Sound(p0, i);
        assert filled.entries[i] == q.entries[i] == p0.entries[i];
      } else if i > id {
        assert Sound(q, i) && filled.entries[i] == q.entries[i];
      }
    }
  }

  lemma OtherScope(p: Plan, cx: Ctx, scope: Scope)
    requires CtxSound(p, cx)
    ensures CtxSound(p, cx.(scope := scope))
  {
    var cx1 := cx.(scope := scope);
    forall i | 0 <= i < |cx1.loops| ensures LoopSound(p, cx1, cx1.loops[i]) {
      assert LoopSound(p, cx, cx.loops[i]);
    }
  }

  lemma DeeperScope(p: Plan, cx: Ctx)
    requires CtxSound(p, cx)
    ensures CtxSound(p, cx.(depth := cx.depth + 1))
  {
    var cx1 := cx.(depth := cx.depth + 1);
    forall i | 0 <= i < |cx1.loops| ensures LoopSound(p, cx1, cx1.loops[i]) {
      assert LoopSound(p, cx, cx.loops[i]);
    }
  }

  lemma MoreLoops(p: Plan, cx: Ctx, loop: Loop)
    requires CtxSound(p, cx) && LoopSound(p, cx, loop)
    ensures CtxSound(p, cx.(loops := cx.loops + [loop]))
    ensures Sigs(cx.loops + [loop]) == Sigs(cx.loops) + [loop.sig]
  {
    var cx1 := cx.(loops := cx.loops + [loop]);
    forall i | 0 <= i < |cx1.loops| ensures LoopSound(p, cx1, cx1.loops[i]) {
      if i < |cx.loops| { assert LoopSound(p, cx, cx.loops[i]); }
    }
  }

  // ----- one lemma for each form -----

  lemma {:induction false} ExprSound(p: Plan, cx: Ctx, e: Expr, target: nat, next: nat)
    requires CtxSound(p, cx) && At(p, next, cx.depth) && Fits(e, cx)
    ensures CodeSound(p, cx, CompileExpr(p, cx, e, target, next))
    decreases e, 3
  {
    hide CompileExpr, CtxSound, Added, Atomic, NeedsSplit, Fits, Targeted;
    PlanOfAtomic(p, cx, e, target, next);
    if Atomic(e) {
      StoreSound(p, cx, target, Direct(e), next);
    } else {
      match e
      case Binary(_, _, _) => BinarySound(p, cx, e, target, next);
      case Logical(_, _, _) => LogicalSound(p, cx, e, target, next);
      case Call(_) => CallSound(p, cx, e, target, next);
      case Block(_) => BlockSound(p, cx, e, target, next);
      case LabeledBlock(_, _) => LabeledBlockSound(p, cx, e, target, next);
      case If(_, _, _) => IfSound(p, cx, e, target, next);
      case MatchOn(_, _) => MatchSound(p, cx, e, target, next);
      case StateLoop(_, _, _) => StateLoopSound(p, cx, e, target, next);
      case For(_, _, _, _, _, _, _, _, _, _) => ForSound(p, cx, e, target, next);
      case Break(_, _) => BreakSound(p, cx, e, target, next);
      case Continue(_) => ContinueSound(p, cx, e, target, next);
      case ContinueTransition(_, _) => TransitionSound(p, cx, e, target, next);
    }
  }

  /** One more expression planned for the same or an inner continuation. */
  lemma {:induction false} Then(p: Plan, p1: Plan, cx: Ctx, e: Expr, target: nat, next: nat)
    requires CtxSound(p, cx) && Added(p, p1) && At(p1, next, cx.depth) && Fits(e, cx)
    ensures CodeSound(p, cx, CompileExpr(p1, cx, e, target, next))
    ensures Added(p1, CompileExpr(p1, cx, e, target, next).plan)
    decreases e, 4
  {
    hide CompileExpr, Fits;
    CtxSoundLater(p, p1, cx);
    ExprSound(p1, cx, e, target, next);
    Chained(p, p1, cx, CompileExpr(p1, cx, e, target, next));
  }

  lemma {:induction false} BinarySound(p: Plan, cx: Ctx, e: Expr, target: nat, next: nat)
    requires e.Binary? && !Atomic(e) && CtxSound(p, cx) && At(p, next, cx.depth) && Fits(e, cx)
    ensures CodeSound(p, cx, CompileExpr(p, cx, e, target, next))
    decreases e, 2
  {
    hide CompileExpr, CtxSound, Atomic;
    PlanOfBinary(p, cx, e, target, next);
    SlotsAdded(p, 2);
    StoreSound(Slots(p, 2), cx, target, BinarySlots(e.op, p.nextSlot, p.nextSlot + 1), next);
    var store := StoreState(Slots(p, 2), cx, target, BinarySlots(e.op, p.nextSlot, p.nextSlot + 1), next);
    AddedTrans(p, Slots(p, 2), store.plan);
    Then(p, store.plan, cx, e.rhs, p.nextSlot + 1, store.entry);
    var r := CompileExpr(store.plan, cx, e.rhs, p.nextSlot + 1, store.entry);
    Then(p, r.plan, cx, e.lhs, p.nextSlot, r.entry);
  }

  lemma {:induction false} LogicalSound(p: Plan, cx: Ctx, e: Expr, target: nat, next: nat)
    requires e.Logical? && !Atomic(e) && CtxSound(p, cx) && At(p, next, cx.depth) && Fits(e, cx)
    ensures CodeSound(p, cx, CompileExpr(p, cx, e, target, next))
    decreases e, 2
  {
    hide CompileExpr, CtxSound, Atomic;
    PlanOfLogical(p, cx, e, target, next);
    ExprSound(p, cx, e.rhs, target, next);
    var r := CompileExpr(p, cx, e.rhs, target, next);
    var l := r.plan.nextSlot;
    SlotsAdded(r.plan, 1);
    AddedTrans(p, r.plan, Slots(r.plan, 1));
    StoreSound(Slots(r.plan, 1), cx, target, Slot(l), next);
    var short := StoreState(Slots(r.plan, 1), cx, target, Slot(l), next);
    AddedTrans(p, Slots(r.plan, 1), short.plan);
    Emits(p, short.plan, cx, [], LogicalJump(e, l, r.entry, short.entry));
    var branch := Emit(short.plan, cx, cx.depth, [], LogicalJump(e, l, r.entry, short.entry));
    Then(p, branch.plan, cx, e.lhs, l, branch.entry);
  }

  lemma {:induction false} IfSound(p: Plan, cx: Ctx, e: Expr, target: nat, next: nat)
    requires e.If? && CtxSound(p, cx) && At(p, next, cx.depth) && Fits(e, cx)
    ensures CodeSound(p, cx, CompileExpr(p, cx, e, target, next))
    decreases e, 2
  {
    hide CompileExpr, CtxSound;
    PlanOfIf(p, cx, e, target, next);
    ExprSound(p, cx, e.thn, target, next);
    var thn := CompileExpr(p, cx, e.thn, target, next);
    if e.els.Some? {
      Then(p, thn.plan, cx, e.els.value, target, next);
    } else {
      UnitPlan(thn.plan, cx, target, next);
      StoreSound(thn.plan, cx, target, Direct(UNIT), next);
      Chained(p, thn.plan, cx, CompileExpr(thn.plan, cx, UNIT, target, next));
    }
    var els := CompileExpr(thn.plan, cx, Otherwise(e), target, next);
    var c := els.plan.nextSlot;
    SlotsAdded(els.plan, 1);
    AddedTrans(p, els.plan, Slots(els.plan, 1));
    Emits(p, Slots(els.plan, 1), cx, [], Branch(c, thn.entry, els.entry));
    var branch := Emit(Slots(els.plan, 1), cx, cx.depth, [], Branch(c, thn.entry, els.entry));
    Then(p, branch.plan, cx, e.cond, c, branch.entry);
  }

  lemma {:induction false} CallSound(p: Plan, cx: Ctx, e: Expr, target: nat, next: nat)
    requires e.Call? && CtxSound(p, cx) && At(p, next, cx.depth) && Fits(e, cx)
    ensures CodeSound(p, cx, CompileExpr(p, cx, e, target, next))
    decreases e, 2
  {
    hide CtxSound, CompileAll;
    var n, size := p.nextSlot, Size(e.values);
    SlotsAdded(p, size);
    Emits(p, Slots(p, size), cx, [], Transfer(n, size, next, target));
    var call := Emit(Slots(p, size), cx, cx.depth, [], Transfer(n, size, next, target));
    AllSound(p, call.plan, cx, e.values, n, call.entry);
  }

  lemma {:induction false} AllSound(p: Plan, p1: Plan, cx: Ctx, es: Exprs, first: nat, next: nat)
    requires CtxSound(p, cx) && Added(p, p1) && At(p1, next, cx.depth)
    requires ExprsTargeted(es, Sigs(cx.loops), BlockTargets(cx.blocks))
    ensures CodeSound(p, cx, CompileAll(p1, cx, es, first, next))
    decreases es
  {
    hide CtxSound, CompileExpr;
    if es.Arg? {
      AllSound(p, p1, cx, es.tail, first + 1, next);
      var rest := CompileAll(p1, cx, es.tail, first + 1, next);
      Then(p, rest.plan, cx, es.head, first, rest.entry);
    }
  }

  lemma {:induction false} LabeledBlockSound(p: Plan, cx: Ctx, e: Expr, target: nat, next: nat)
    requires e.LabeledBlock? && CtxSound(p, cx) && At(p, next, cx.depth) && Fits(e, cx)
    ensures CodeSound(p, cx, CompileExpr(p, cx, e, target, next))
    decreases e, 2
  {
    hide Added;
    var cx1 := cx.(blocks := cx.blocks + [BlockExit(e.target, target, next, cx.depth)]);
    forall i | 0 <= i < |cx1.loops| ensures LoopSound(p, cx1, cx1.loops[i]) {
      assert LoopSound(p, cx, cx.loops[i]);
    }
    assert BlockTargets(cx1.blocks) == BlockTargets(cx.blocks) + [e.target];
    ExprSound(p, cx1, e.body, target, next);
  }

  lemma FoundLoop(p: Plan, cx: Ctx, target: nat)
    requires CtxSound(p, cx) && FindLoop(Sigs(cx.loops), target).Some?
    ensures LoopSound(p, cx, cx.loops[FindLoop(Sigs(cx.loops), target).value])
  {}

  lemma {:induction false} BreakSound(p: Plan, cx: Ctx, e: Expr, target: nat, next: nat)
    requires e.Break? && CtxSound(p, cx) && At(p, next, cx.depth) && Fits(e, cx)
    ensures CodeSound(p, cx, CompileExpr(p, cx, e, target, next))
    decreases e, 2
  {
    hide CtxSound;
    FoundLoop(p, cx, e.target);
    var loop := cx.loops[FindLoop(Sigs(cx.loops), e.target).value];
    var a, b := Store(loop.result, SomeSlot(loop.option, p.nextSlot)), UnwindCleanupScopes(loop.depth);
    TwoActions(a, b, cx.depth);
    SlotsAdded(p, 1);
    Emits(p, Slots(p, 1), cx, [a, b], Goto(loop.exit));
    var leave := Emit(Slots(p, 1), cx, cx.depth, [a, b], Goto(loop.exit));
    Then(p, leave.plan, cx, e.value, p.nextSlot, leave.entry);
  }

  /** A plain `continue` is only written for a `for` loop, whose head is entered at the loop's own depth. */
  lemma ContinueSound(p: Plan, cx: Ctx, e: Expr, target: nat, next: nat)
    requires e.Continue? && CtxSound(p, cx) && Fits(e, cx)
    ensures CodeSound(p, cx, CompileExpr(p, cx, e, target, next))
  {
    hide CtxSound;
    FoundLoop(p, cx, e.target);
    var loop := cx.loops[FindLoop(Sigs(cx.loops), e.target).value];
    OneAction(UnwindCleanupScopes(loop.depth), cx.depth);
    EmitSound(p, cx, cx.depth, [UnwindCleanupScopes(loop.depth)], Goto(loop.resume));
  }

  lemma {:induction false} StoresKeepDepth(actions: seq<Action>, depth: nat)
    requires forall i | 0 <= i < |actions| :: actions[i].Store?
    ensures DepthAfterAll(actions, depth) == Some(depth)
    decreases |actions|
  {
    if |actions| > 0 { StoresKeepDepth(actions[1..], depth); }
  }

  lemma {:induction false} TransferStores(names: seq<string>, count: nat, first: nat, scratch: nat)
    ensures forall i | 0 <= i < |Snapshots(names, scratch)| :: Snapshots(names, scratch)[i].Store?
    ensures forall i | 0 <= i < |Commits(count, first, scratch)| :: Commits(count, first, scratch)[i].Store?
    decreases |names| + count
  {
    if |names| > 0 {
      TransferStores(names[1..], count, first, scratch + 1);
      TransferStores(names[1..], count, first, scratch);
    } else if count > 0 {
      TransferStores(names, count - 1, first + 1, scratch + 1);
    }
  }

  /** The commit of a transition leaves exactly the scopes opened inside the loop body. */
  lemma CommitSound(p: Plan, p1: Plan, cx: Ctx, loop: Loop)
    requires Added(p, p1) && At(p1, loop.head, loop.continueDepth) && loop.continueDepth <= cx.depth
    ensures CodeSound(p, cx, CommitState(p1, cx, loop))
  {
    var count := |loop.sig.names|;
    var commits := Commits(count, loop.first, p1.nextSlot);
    TransferStores([], count, loop.first, p1.nextSlot);
    StoresKeepDepth(commits, loop.continueDepth);
    var actions := [UnwindCleanupScopes(loop.continueDepth)] + commits;
    assert actions[1..] == commits;
    SlotsAdded(p1, count);
    AddedTrans(p, p1, Slots(p1, count));
    Emits(p, Slots(p1, count), cx, actions, Goto(loop.head));
  }

  lemma SnapshotSound(p: Plan, cx: Ctx, code: Code, loop: Loop, scratch: nat)
    requires CodeSound(p, cx, code)
    ensures CodeSound(p, cx, SnapshotState(code, cx, loop, scratch))
  {
    TransferStores(loop.sig.names, 0, 0, scratch);
    StoresKeepDepth(Snapshots(loop.sig.names, scratch), cx.depth);
    Emits(p, code.plan, cx, Snapshots(loop.sig.names, scratch), Goto(code.entry));
  }

  lemma {:induction false} ReplacementsSound(p: Plan, p1: Plan, cx: Ctx, bs: BindList, bound: seq<string>,
                                             scratch: nat, next: nat)
    requires CtxSound(p, cx) && Added(p, p1) && At(p1, next, cx.depth)
    requires BindingsTargeted(bs, Sigs(cx.loops), BlockTargets(cx.blocks))
    ensures CodeSound(p, cx, CompileReplacements(p1, cx, bs, bound, scratch, next))
    decreases bs
  {
    hide CtxSound, CompileExpr;
    if bs.Bind? {
      ReplacementsSound(p, p1, cx, bs.rest, bound, scratch, next);
      var rest := CompileReplacements(p1, cx, bs.rest, bound, scratch, next);
      Then(p, rest.plan, cx, bs.value, scratch + IndexOf(bound, bs.name), rest.entry);
    }
  }

  lemma {:induction false} TransitionSound(p: Plan, cx: Ctx, e: Expr, target: nat, next: nat)
    requires e.ContinueTransition? && CtxSound(p, cx) && Fits(e, cx)
    ensures CodeSound(p, cx, CompileExpr(p, cx, e, target, next))
    decreases e, 2
  {
    hide CtxSound, CompileReplacements, CommitState, SnapshotState;
    FoundLoop(p, cx, e.target);
    var loop := cx.loops[FindLoop(Sigs(cx.loops), e.target).value];
    CommitSound(p, p, cx, loop);
    var commit := CommitState(p, cx, loop);
    ReplacementsSound(p, commit.plan, cx, e.replacements, loop.sig.names, p.nextSlot, commit.entry);
    SnapshotSound(p, cx, CompileReplacements(commit.plan, cx, e.replacements, loop.sig.names, p.nextSlot, commit.entry), loop, p.nextSlot);
  }

  lemma {:induction false} BlockSound(p: Plan, cx: Ctx, e: Expr, target: nat, next: nat)
    requires e.Block? && CtxSound(p, cx) && At(p, next, cx.depth) && Fits(e, cx)
    ensures CodeSound(p, cx, CompileExpr(p, cx, e, target, next))
    decreases e, 2
  {
    hide CompileExpr, CompileStmts, CtxSound;
    PlanOfBlock(p, cx, e, target, next);
    if Managed(e.stmts) {
      var inside := cx.(depth := cx.depth + 1);
      DeeperScope(p, cx);
      OneAction(UnwindCleanupScopes(cx.depth), cx.depth + 1);
      EmitSound(p, cx, cx.depth + 1, [UnwindCleanupScopes(cx.depth)], Goto(next));
      var leave := Emit(p, cx, cx.depth + 1, [UnwindCleanupScopes(cx.depth)], Goto(next));
      StmtsSound(p, leave.plan, inside, e.stmts, target, leave.entry);
      var body := CompileStmts(leave.plan, inside, e.stmts, target, leave.entry);
      OneAction(EnterCleanupScope, cx.depth);
      Emits(p, body.plan, cx, [EnterCleanupScope], Goto(body.entry));
    } else {
      StmtsSound(p, p, cx, e.stmts, target, next);
    }
  }

  lemma {:induction false} StmtsSound(p: Plan, p1: Plan, cx: Ctx, ss: Stmts, target: nat, next: nat)
    requires CtxSound(p, cx) && Added(p, p1) && At(p1, next, cx.depth)
    requires StmtsTargeted(ss, Sigs(cx.loops), BlockTargets(cx.blocks))
    ensures var r := CompileStmts(p1, cx, ss, target, next); CodeSound(p, cx, Code(r.plan, r.entry))
    decreases ss, 2
  {
    hide CtxSound, CompileExpr, Emit, StoreState;
    match ss
    case Tail(tail) =>
      if tail.Some? {
        Then(p, p1, cx, tail.value, target, next);
      } else {
        StoreSound(p1, cx, target, Direct(UNIT), next);
        Chained(p, p1, cx, StoreState(p1, cx, target, Direct(UNIT), next));
      }
    case Let(_, _, _, _) => LetSound(p, p1, cx, ss, target, next);
    case Do(value, rest) =>
      StmtsSound(p, p1, cx, rest, target, next);
      var remainder := CompileStmts(p1, cx, rest, target, next);
      var later := cx.(scope := remainder.scope);
      OtherScope(p, cx, remainder.scope);
      SlotsAdded(remainder.plan, 1);
      AddedTrans(p, remainder.plan, Slots(remainder.plan, 1));
      Then(p, Slots(remainder.plan, 1), later, value, remainder.plan.nextSlot, remainder.entry);
    case Return(_, _, _) => ReturnSound(p, p1, cx, ss, target, next);
  }

  lemma {:induction false} LetSound(p: Plan, p1: Plan, cx: Ctx, ss: Stmts, target: nat, next: nat)
    requires ss.Let? && CtxSound(p, cx) && Added(p, p1) && At(p1, next, cx.depth)
    requires StmtsTargeted(ss, Sigs(cx.loops), BlockTargets(cx.blocks))
    ensures var r := CompileStmts(p1, cx, ss, target, next); CodeSound(p, cx, Code(r.plan, r.entry))
    decreases ss, 1
  {
    hide CtxSound, CompileExpr, CompileStmts;
    PlanOfLet(p1, cx, ss, target, next);
    var inner := cx.(scope := cx.scope[ss.name := p1.nextSlot]);
    OtherScope(p, cx, inner.scope);
    SlotsAdded(p1, 1);
    AddedTrans(p, p1, Slots(p1, 1));
    StmtsSound(p, Slots(p1, 1), inner, ss.rest, target, next);
    var rest := CompileStmts(Slots(p1, 1), inner, ss.rest, target, next);
    var v := rest.plan.nextSlot;
    SlotsAdded(rest.plan, 1);
    AddedTrans(p, rest.plan, Slots(rest.plan, 1));
    var actions := LetActions(ss.closer, p1.nextSlot, v);
    LetDepth(p, cx, ss.closer, p1.nextSlot, v);
    Emits(p, Slots(rest.plan, 1), cx.(scope := rest.scope), actions, Goto(rest.entry));
    var init := Emit(Slots(rest.plan, 1), cx.(scope := rest.scope), cx.depth, actions, Goto(rest.entry));
    Then(p, init.plan, cx, ss.value, v, init.entry);
  }

  lemma LetDepth(p: Plan, cx: Ctx, closer: Option<string>, slot: nat, value: nat)
    requires CtxSound(p, cx)
    ensures DepthAfterAll(LetActions(closer, slot, value), cx.depth) == Some(cx.depth)
  {
    OneAction(Store(slot, Slot(value)), cx.depth);
    if closer.Some? {
      TwoActions(Store(slot, Slot(value)), RegisterCleanup(closer.value, slot), cx.depth);
      assert LetActions(closer, slot, value) == [Store(slot, Slot(value)), RegisterCleanup(closer.value, slot)];
    } else {
      assert LetActions(closer, slot, value) == [Store(slot, Slot(value))];
    }
  }

  lemma {:induction false} ReturnSound(p: Plan, p1: Plan, cx: Ctx, ss: Stmts, target: nat, next: nat)
    requires ss.Return? && CtxSound(p, cx) && Added(p, p1)
    requires StmtsTargeted(ss, Sigs(cx.loops), BlockTargets(cx.blocks))
    ensures var r := CompileStmts(p1, cx, ss, target, next); CodeSound(p, cx, Code(r.plan, r.entry))
    decreases ss, 1
  {
    hide CompileExpr;
    var r := p1.nextSlot;
    SlotsAdded(p1, 1);
    AddedTrans(p, p1, Slots(p1, 1));
    CtxSoundLater(p, p1, cx);
    if ss.target.FromCallable? {
      Emits(p, Slots(p1, 1), cx, [], ReturnSlot(r));
    } else {
      var block := cx.blocks[Innermost(BlockTargets(cx.blocks), ss.target.block).value];
      assert At(p1, block.exit, block.depth);
      TwoActions(Store(block.result, Slot(r)), UnwindCleanupScopes(block.depth), cx.depth);
      Emits(p, Slots(p1, 1), cx, [Store(block.result, Slot(r)), UnwindCleanupScopes(block.depth)], Goto(block.exit));
    }
    var leave :=
      if ss.target.FromCallable? then Emit(Slots(p1, 1), cx, cx.depth, [], ReturnSlot(r)) else
      var block := cx.blocks[Innermost(BlockTargets(cx.blocks), ss.target.block).value];
      Emit(Slots(p1, 1), cx, cx.depth, [Store(block.result, Slot(r)), UnwindCleanupScopes(block.depth)], Goto(block.exit));
    if ss.result.Some? {
      Then(p, leave.plan, cx, ss.result.value, r, leave.entry);
    } else {
      StoreSound(leave.plan, cx, r, Direct(UNIT), leave.entry);
      Chained(p, leave.plan, cx, StoreState(leave.plan, cx, r, Direct(UNIT), leave.entry));
    }
  }

  lemma {:induction false} MatchSound(p: Plan, cx: Ctx, e: Expr, target: nat, next: nat)
    requires e.MatchOn? && CtxSound(p, cx) && At(p, next, cx.depth) && Fits(e, cx)
    ensures CodeSound(p, cx, CompileExpr(p, cx, e, target, next))
    decreases e, 2
  {
    hide CompileExpr, CompileArms, CtxSound;
    PlanOfMatch(p, cx, e, target, next);
    SlotsAdded(p, 1);
    StoreSound(Slots(p, 1), cx, target, Direct(UNIT), next);
    var fallback := StoreState(Slots(p, 1), cx, target, Direct(UNIT), next);
    Chained(p, Slots(p, 1), cx, fallback);
    ArmsSound(p, fallback.plan, cx, e.arms, p.nextSlot, target, next, fallback.entry);
    var chain := CompileArms(fallback.plan, cx, e.arms, p.nextSlot, target, next, fallback.entry);
    Then(p, chain.plan, cx, e.scrutinee, p.nextSlot, chain.entry);
  }

  lemma {:induction false} ArmsSound(p: Plan, p1: Plan, cx: Ctx, arms: Arms, scrutinee: nat, target: nat,
                                     next: nat, fallback: nat)
    requires CtxSound(p, cx) && Added(p, p1) && At(p1, next, cx.depth) && At(p1, fallback, cx.depth)
    requires ArmsTargeted(arms, Sigs(cx.loops), BlockTargets(cx.blocks))
    ensures CodeSound(p, cx, CompileArms(p1, cx, arms, scrutinee, target, next, fallback))
    decreases arms
  {
    hide CompileExpr, CtxSound, CompileArms, TestArm, Grows;
    if arms.NoArms? {
      NoArmsPlan(p1, cx, scrutinee, target, next, fallback);
    } else {
      PlanOfArms(p1, cx, arms, scrutinee, target, next, fallback);
      ArmsSound(p, p1, cx, arms.rest, scrutinee, target, next, fallback);
      var rest := CompileArms(p1, cx, arms.rest, scrutinee, target, next, fallback);
      Later(p1, rest.plan, next, cx.depth);
      var first := rest.plan.nextSlot;
      var inner := cx.(scope := BindAll(cx.scope, Names(arms.pat), first));
      OtherScope(p, cx, inner.scope);
      CommittedSound(p, cx, rest, arms, target, next);
      TestSound(p, inner, Committed(rest, cx, arms, target, next), rest.plan, scrutinee, arms.pat, first, rest.entry);
    }
  }

  lemma NoArmsPlan(p: Plan, cx: Ctx, scrutinee: nat, target: nat, next: nat, fallback: nat)
    ensures CompileArms(p, cx, NoArms, scrutinee, target, next, fallback) == Code(p, fallback)
  {}

  lemma Later(p: Plan, q: Plan, j: nat, depth: nat)
    requires Grows(p, q) && At(p, j, depth)
    ensures At(q, j, depth)
  {}

  lemma {:induction false} CommittedSound(p: Plan, cx: Ctx, rest: Code, arms: Arms, target: nat, next: nat)
    requires arms.Arm? && CtxSound(p, cx) && CodeSound(p, cx, rest) && At(rest.plan, next, cx.depth)
    requires ArmsTargeted(arms, Sigs(cx.loops), BlockTargets(cx.blocks))
    ensures CodeSound(p, cx, Committed(rest, cx, arms, target, next)) && Added(rest.plan, Committed(rest, cx, arms, target, next).plan)
    decreases arms, 0
  {
    hide CompileExpr, CtxSound;
    var inner := cx.(scope := BindAll(cx.scope, Names(arms.pat), rest.plan.nextSlot));
    var count := |Names(arms.pat)|;
    OtherScope(p, cx, inner.scope);
    CtxSoundLater(p, rest.plan, inner);
    SlotsAdded(rest.plan, count);
    Then(rest.plan, Slots(rest.plan, count), inner, arms.body, target, next);
    var body := CompileExpr(Slots(rest.plan, count), inner, arms.body, target, next);
    if arms.guard.Some? {
      var g := body.plan.nextSlot;
      SlotsAdded(body.plan, 1);
      AddedTrans(rest.plan, body.plan, Slots(body.plan, 1));
      Emits(rest.plan, Slots(body.plan, 1), inner, [], Branch(g, body.entry, rest.entry));
      var branch := Emit(Slots(body.plan, 1), inner, cx.depth, [], Branch(g, body.entry, rest.entry));
      Then(rest.plan, branch.plan, inner, arms.guard.value, g, branch.entry);
    }
    AddedTrans(p, rest.plan, Committed(rest, cx, arms, target, next).plan);
  }

  lemma TestSound(p: Plan, cx: Ctx, matched: Code, p1: Plan, scrutinee: nat, pat: Pat, first: nat, fallback: nat)
    requires CodeSound(p, cx, matched) && Added(p1, matched.plan) && At(p1, fallback, cx.depth)
    ensures CodeSound(p, cx, TestArm(matched, cx, scrutinee, pat, first, fallback))
  {
    var m := matched.plan.nextSlot;
    EmitsAfterSlot(p, matched.plan, cx, [], Branch(m, matched.entry, fallback));
    var branch := Emit(Slots(matched.plan, 1), cx, cx.depth, [], Branch(m, matched.entry, fallback));
    OneAction(StoreMatch(m, scrutinee, pat, first), cx.depth);
    Emits(p, branch.plan, cx, [StoreMatch(m, scrutinee, pat, first)], Goto(branch.entry));
  }

  lemma {:induction false} InitsSound(p: Plan, p1: Plan, cx: Ctx, bs: BindList, first: nat, next: nat)
    requires CtxSound(p, cx) && Added(p, p1) && At(p1, next, cx.depth)
    requires BindingsTargeted(bs, Sigs(cx.loops), BlockTargets(cx.blocks))
    ensures CodeSound(p, cx, CompileInits(p1, cx, bs, first, next))
    decreases bs
  {
    hide CtxSound, CompileExpr;
    if bs.Bind? {
      InitsSound(p, p1, cx, bs.rest, first + 1, next);
      var rest := CompileInits(p1, cx, bs.rest, first + 1, next);
      var v := rest.plan.nextSlot;
      SlotsAdded(rest.plan, 1);
      AddedTrans(p, rest.plan, Slots(rest.plan, 1));
      OneAction(Store(first, Slot(v)), cx.depth);
      Emits(p, Slots(rest.plan, 1), cx, [Store(first, Slot(v))], Goto(rest.entry));
      var install := Emit(Slots(rest.plan, 1), cx, cx.depth, [Store(first, Slot(v))], Goto(rest.entry));
      Then(p, install.plan, cx, bs.value, v, install.entry);
    }
  }

  /** The header is entered with its own scope open; leaving by `break` drops it, a transition keeps it. */
  lemma {:induction false} StateLoopSound(p: Plan, cx: Ctx, e: Expr, target: nat, next: nat)
    requires e.StateLoop? && CtxSound(p, cx) && At(p, next, cx.depth) && Fits(e, cx)
    ensures CodeSound(p, cx, CompileExpr(p, cx, e, target, next))
    decreases e, 2
  {
    hide CompileExpr, CompileInits, CtxSound;
    PlanOfStateLoop(p, cx, e, target, next);
    var header := HeaderCx(p, cx, e);
    OtherScope(p, cx, header.scope);
    DeeperScope(p, cx.(scope := header.scope));
    StateBodySound(p, cx, e, target, next);
    var filled := FilledPlan(p, cx, e, target, next);
    InitsSound(p, filled, header, e.bindings, p.nextSlot, |p.entries|);
    var inits := CompileInits(filled, header, e.bindings, p.nextSlot, |p.entries|);
    OneAction(EnterCleanupScope, cx.depth);
    Emits(p, inits.plan, cx, [EnterCleanupScope], Goto(inits.entry));
  }

  lemma {:induction false} StateBodySound(p: Plan, cx: Ctx, e: Expr, target: nat, next: nat)
    requires e.StateLoop? && CtxSound(p, cx) && At(p, next, cx.depth) && Fits(e, cx)
    ensures Added(p, FilledPlan(p, cx, e, target, next)) && At(FilledPlan(p, cx, e, target, next), |p.entries|, cx.depth + 1)
    decreases e, 1
  {
    hide CompileExpr, CtxSound, CommitState, SnapshotState;
    var count := |BoundNames(e.bindings)|;
    var header := HeaderCx(p, cx, e);
    var loop := StateLoopOf(p, cx, e, target, next);
    var p0 := Reserve(p, cx.depth + 1).plan;
    CtxSoundLater(p, p0, cx);
    OtherScope(p0, cx, header.scope);
    DeeperScope(p0, cx.(scope := header.scope));
    MoreLoops(p0, header, loop);
    SlotsAdded(p0, count);
    CommitSound(p0, Slots(p0, count), header, loop);
    var commit := CommitState(Slots(p0, count), header, loop);
    SnapshotSound(p0, header, commit, loop, p.nextSlot + count);
    var again := SnapshotState(commit, header, loop, p.nextSlot + count);
    SlotsAdded(again.plan, 1);
    AddedTrans(p0, again.plan, Slots(again.plan, 1));
    Then(p0, Slots(again.plan, 1), StateBodyCx(p, cx, e, target, next), e.body, again.plan.nextSlot, again.entry);
    var body := StateBodyCode(p, cx, e, target, next);
    assert Added(p, p);
    FillSound(p, p, body.plan, header, cx.depth + 1, body.entry);
  }

  lemma {:induction false} ForSound(p: Plan, cx: Ctx, e: Expr, target: nat, next: nat)
    requires e.For? && CtxSound(p, cx) && At(p, next, cx.depth) && Fits(e, cx)
    ensures CodeSound(p, cx, CompileExpr(p, cx, e, target, next))
    decreases e, 2
  {
    hide CompileExpr, CtxSound, ForFilled;
    PlanOfFor(p, cx, e, target, next);
    var inner := ForScope(p, cx, e);
    OtherScope(p, cx, inner.scope);
    ForLoopSound(p, cx, e, target, next);
    var filled := ForFilled(p, cx, e, target, next);
    SlotsAdded(filled, 1);
    AddedTrans(p, filled, Slots(filled, 1));
    OneAction(Store(p.nextSlot, Slot(filled.nextSlot)), cx.depth);
    Emits(p, Slots(filled, 1), inner, [Store(p.nextSlot, Slot(filled.nextSlot))], Goto(|p.entries| + 1));
    var initialized := Emit(Slots(filled, 1), inner, cx.depth, [Store(p.nextSlot, Slot(filled.nextSlot))], Goto(|p.entries| + 1));
    Then(p, initialized.plan, inner, e.source, filled.nextSlot, initialized.entry);
  }

  function ForFinish(p: Plan, cx: Ctx, e: Expr, target: nat, next: nat): Plan
    requires e.For?
  {
    Emit(Slots(p, 3), ForScope(p, cx, e), cx.depth, [Store(target, Direct(Const(NoneOf(e.option))))], Goto(next)).plan
  }

  lemma {:induction false} ForLoopSound(p: Plan, cx: Ctx, e: Expr, target: nat, next: nat)
    requires e.For? && CtxSound(p, cx) && At(p, next, cx.depth) && Fits(e, cx)
    ensures Added(p, ForFilled(p, cx, e, target, next)) && At(ForFilled(p, cx, e, target, next), |p.entries| + 1, cx.depth)
    decreases e, 1
  {
    hide CompileExpr, CtxSound, ForChain, ForAttempt;
    var inner := ForScope(p, cx, e);
    var finish := ForFinish(p, cx, e, target, next);
    SlotsAdded(p, 3);
    OneAction(Store(target, Direct(Const(NoneOf(e.option)))), cx.depth);
    Emits(p, Slots(p, 3), inner, [Store(target, Direct(Const(NoneOf(e.option))))], Goto(next));
    var p0 := Reserve(finish, cx.depth).plan;
    ForChainSound(p, cx, e, target, next);
    var chain := ForChain(p, cx, e, target, next);
    ForAttemptSound(p, p0, cx, e, target, next, chain);
    var attempt := ForAttempt(p, cx, e, target, next, chain);
    OtherScope(p, cx, inner.scope);
    CtxSoundLater(p, p0, inner);
    Then(p0, attempt.plan, inner, e.step, chain.plan.nextSlot + 1, attempt.entry);
    var step := ForStep(p, cx, e, target, next);
    FillSound(p, finish, step.plan, inner, cx.depth, step.entry);
  }

  lemma {:induction false} ForChainSound(p: Plan, cx: Ctx, e: Expr, target: nat, next: nat)
    requires e.For? && CtxSound(p, cx) && At(p, next, cx.depth) && Fits(e, cx)
    ensures CodeSound(Reserve(ForFinish(p, cx, e, target, next), cx.depth).plan, cx, ForChain(p, cx, e, target, next))
    decreases e, 0
  {
    hide CompileExpr, CtxSound, TestArm, ForFallback, Added, Slots, StoreState;
    var p0 := Reserve(ForFinish(p, cx, e, target, next), cx.depth).plan;
    var bodyCx, armCx := ForBodyCx(p, cx, e, target, next), ForArmCx(p, cx, e, target, next);
    ForContextsSound(p, cx, e, target, next);
    ForFallbackSound(p, cx, e, target, next);
    var fallback, head := ForFallback(p, cx, e, target, next), |p.entries| + 1;
    var inside := CompileExpr(Slots(fallback.plan, |Names(e.pat)|), armCx, e.body, p.nextSlot + 3, head);
    SlotsAdded(fallback.plan, |Names(e.pat)|);
    AddedTrans(p0, fallback.plan, Slots(fallback.plan, |Names(e.pat)|));
    AtLater(p0, Slots(fallback.plan, |Names(e.pat)|), head, cx.depth);
    Then(p0, Slots(fallback.plan, |Names(e.pat)|), armCx, e.body, p.nextSlot + 3, head);
    AddedTrans(fallback.plan, Slots(fallback.plan, |Names(e.pat)|), inside.plan);
    TestSound(p0, armCx, inside, fallback.plan, p.nextSlot + 4, e.pat, p.nextSlot + 5, fallback.entry);
  }

  /** The loop's exit is its continuation, its head the state reserved for it, both at the depth around it. */
  lemma ForContextsSound(p: Plan, cx: Ctx, e: Expr, target: nat, next: nat)
    requires e.For? && CtxSound(p, cx) && At(p, next, cx.depth) && Fits(e, cx)
    ensures var p0, armCx := Reserve(ForFinish(p, cx, e, target, next), cx.depth).plan, ForArmCx(p, cx, e, target, next);
            CtxSound(p0, armCx) && Fits(e.body, armCx) && At(p0, |p.entries| + 1, cx.depth)
  {
    var p0 := Reserve(ForFinish(p, cx, e, target, next), cx.depth).plan;
    var loop := ForLoopOf(p, cx, e, target, next);
    CtxSoundLater(p, p0, cx);
    hide CtxSound;
    OtherScope(p0, cx, ForScope(p, cx, e).scope);
    assert LoopSound(p0, ForScope(p, cx, e), loop);
    MoreLoops(p0, ForScope(p, cx, e), loop);
    OtherScope(p0, ForBodyCx(p, cx, e, target, next), ForArmCx(p, cx, e, target, next).scope);
  }

  lemma ForFallbackSound(p: Plan, cx: Ctx, e: Expr, target: nat, next: nat)
    requires e.For?
    ensures CodeSound(Reserve(ForFinish(p, cx, e, target, next), cx.depth).plan, cx, ForFallback(p, cx, e, target, next))
  {
    var p0 := Reserve(ForFinish(p, cx, e, target, next), cx.depth).plan;
    SlotsAdded(p0, 2);
    var bodyCx := ForBodyCx(p, cx, e, target, next);
    StoreSound(Slots(p0, 2), bodyCx, p.nextSlot + 3, Direct(UNIT), |p.entries| + 1);
    Chained(p0, Slots(p0, 2), bodyCx, ForFallback(p, cx, e, target, next));
  }

  lemma ForAttemptSound(p: Plan, p0: Plan, cx: Ctx, e: Expr, target: nat, next: nat, chain: Code)
    requires e.For? && CodeSound(p0, cx, chain) && At(p0, |p.entries|, cx.depth)
    ensures CodeSound(p0, cx, ForAttempt(p, cx, e, target, next, chain))
  {
    hide CompileExpr, CompileArms, ForChain, ForFallback, Emit, StoreState, Slots, Added, StepPattern;
    var it, inner := p.nextSlot, ForScope(p, cx, e);
    var body := StoreState(chain.plan, ForBodyCx(p, cx, e, target, next), it + 4, Direct(Local(e.itemName)), chain.entry);
    StoreSound(chain.plan, ForBodyCx(p, cx, e, target, next), it + 4, Direct(Local(e.itemName)), chain.entry);
    Chained(p0, chain.plan, cx, body);
    StoreEmits(p0, body, inner, it, Local(e.successorName));
    var advance := Emit(body.plan, inner, cx.depth, [Store(it, Direct(Local(e.successorName)))], Goto(body.entry));
    AttemptEmits(p0, advance, inner, |p.entries|, StepPattern(e.iteration, e.itemName, e.successorName), it + 1);
  }

  lemma StoreEmits(p: Plan, body: Code, cx: Ctx, target: nat, value: Expr)
    requires CodeSound(p, cx, body)
    ensures CodeSound(p, cx, Emit(body.plan, cx, cx.depth, [Store(target, Direct(value))], Goto(body.entry)))
  {
    OneAction(Store(target, Direct(value)), cx.depth);
    Emits(p, body.plan, cx, [Store(target, Direct(value))], Goto(body.entry));
  }

  /** A step is taken apart into the slots from `first`; what yields nothing goes to `finish`. */
  lemma AttemptEmits(p: Plan, advance: Code, cx: Ctx, finish: nat, pat: Pat, first: nat)
    requires CodeSound(p, cx, advance) && At(p, finish, cx.depth)
    ensures var m := advance.plan.nextSlot;
            var branch := Emit(Slots(advance.plan, 1), cx, cx.depth, [], Branch(m, advance.entry, finish));
            CodeSound(p, cx, Emit(Slots(branch.plan, 1), cx, cx.depth, [StoreMatch(m, m + 1, pat, first)], Goto(branch.entry)))
  {
    hide Emit, Slots, Added;
    AtLater(p, advance.plan, finish, cx.depth);
    var m := advance.plan.nextSlot;
    EmitsAfterSlot(p, advance.plan, cx, [], Branch(m, advance.entry, finish));
    var branch := Emit(Slots(advance.plan, 1), cx, cx.depth, [], Branch(m, advance.entry, finish));
    OneAction(StoreMatch(m, m + 1, pat, first), cx.depth);
    EmitsAfterSlot(p, branch.plan, cx, [StoreMatch(m, m + 1, pat, first)], Goto(branch.entry));
  }

  lemma AtLater(p: Plan, q: Plan, j: nat, depth: nat)
    requires At(p, j, depth) && Added(p, q)
    ensures At(q, j, depth)
  {}

  lemma EmitsAfterSlot(p: Plan, p1: Plan, cx: Ctx, actions: seq<Action>, terminal: Terminal)
    requires Added(p, p1) && DepthAfterAll(actions, cx.depth).Some?
    requires forall j | j in Jumps(terminal) :: At(p1, j, DepthAfterAll(actions, cx.depth).value)
    ensures CodeSound(p, cx, Emit(Slots(p1, 1), cx, cx.depth, actions, terminal))
  {
    SlotsAdded(p1, 1);
    AddedTrans(p, p1, Slots(p1, 1));
    Emits(p, Slots(p1, 1), cx, actions, terminal);
  }

  // ----- whole callables -----

  /** Every number of a finished plan has its state, so finishing never meets an empty one, and every state keeps the
      count of open cleanup scopes: its actions are possible at its depth and each jump lands on a state of the plan
      that is entered at the resulting depth. */
  lemma EveryStateIsPlanned(parameters: seq<string>, body: Expr)
    requires Targeted(body, [], [])
    ensures var plan := PlanCallable(parameters, body);
            && |plan.entries| > 0 && plan.entries[0].depth == 1
            && forall i | 0 <= i < |plan.entries| :: plan.entries[i].Filled? && Sound(plan, i)
  {
    hide CompileExpr;
    var cx := StartCx(parameters);
    var empty := Plan([], |parameters| + 1);
    var start := StartPlan(parameters);
    assert start == Reserve(empty, 1).plan;
    EmitSound(start, cx, 1, [], ReturnSlot(|parameters|));
    var terminal := Emit(start, cx, 1, [], ReturnSlot(|parameters|));
    assert CtxSound(start, cx) && Sigs([]) == [] && BlockTargets([]) == [];
    Then(start, terminal.plan, cx, body, |parameters|, terminal.entry);
    var code := BodyCode(parameters, body);
    FillSound(empty, empty, code.plan, cx, 1, code.entry);
  }

  lemma {:induction false} ActsDepth(h: Host, environment: Scope, actions: seq<Action>, l: Locals, scopes: seq<seq<Pending>>, tr: Trace)
    requires DepthAfterAll(actions, |scopes|).Some?
    ensures var r := Acts(h, environment, actions, l, scopes, tr);
            r.Proceed? ==> |r.scopes| == DepthAfterAll(actions, |scopes|).value
    decreases |actions|
  {
    hide Operate, Unwind;
    if |actions| > 0 {
      var r := Act(h, environment, actions[0], l, scopes, tr);
      assert r.Proceed? ==> DepthAfter(actions[0], |scopes|) == Some(|r.scopes|);
      if r.Proceed? {
        ActsDepth(h, environment, actions[1..], r.locals, r.scopes, r.trace);
      }
    }
  }

  /** The frame is in a state of the plan with as many cleanup scopes open as the planner counted. */
  ghost predicate InDepth(plan: Plan, c: Config) {
    c.Running? ==> c.pc < |plan.entries| && |c.scopes| == plan.entries[c.pc].depth
  }

  lemma StepInDepth(h: Host, plan: Plan, c: Config)
    requires forall i | 0 <= i < |plan.entries| :: plan.entries[i].Filled? && Sound(plan, i)
    requires InDepth(plan, c)
    ensures InDepth(plan, Step(h, TableOf(plan), c))
  {
    hide Acts, Halt;
    if c.Running? {
      var state := plan.entries[c.pc].state;
      assert Sound(plan, c.pc) && TableOf(plan)[c.pc] == state;
      ActsDepth(h, state.environment, state.actions, c.locals, c.scopes, c.trace);
      var r := Acts(h, state.environment, state.actions, c.locals, c.scopes, c.trace);
      HaltHalts(h);
      if r.Proceed? {
        FinishJumps(h, state.terminal, r.locals, r.scopes, r.trace);
      }
    }
  }

  lemma HaltHalts(h: Host)
    ensures forall scopes, l, r :: Halt(h, scopes, l, r).Halted?
  {}

  lemma FinishJumps(h: Host, terminal: Terminal, l: Locals, scopes: seq<seq<Pending>>, tr: Trace)
    ensures var k := Finish(h, terminal, l, scopes, tr);
            k.Running? ==> k.pc in Jumps(terminal) && k.scopes == scopes
  {
    hide Halt;
    HaltHalts(h);
  }

  /** In every configuration a run reaches, whatever the host answers and whatever fails on the way, the frame is in a
      state of the table and the number of open cleanup scopes is the planner's static depth of that state. */
  lemma {:induction false} OpenScopesAreTheStaticDepth(h: Host, parameters: seq<string>, args: seq<Value>, body: Expr, n: nat)
    requires Targeted(body, [], [])
    ensures var plan := PlanCallable(parameters, body);
            InDepth(plan, Run(h, TableOf(plan), Launch(args), n))
  {
    hide PlanCallable, Step, TableOf;
    EveryStateIsPlanned(parameters, body);
    RunInDepth(h, PlanCallable(parameters, body), Launch(args), n);
  }

  lemma {:induction false} RunInDepth(h: Host, plan: Plan, c: Config, n: nat)
    requires forall i | 0 <= i < |plan.entries| :: plan.entries[i].Filled? && Sound(plan, i)
    requires InDepth(plan, c)
    ensures InDepth(plan, Run(h, TableOf(plan), c, n))
    decreases n
  {
    hide Step, TableOf, InDepth, Sound;
    if n > 0 {
      StepInDepth(h, plan, c);
      RunInDepth(h, plan, Step(h, TableOf(plan), c), n - 1);
    }
  }
}
