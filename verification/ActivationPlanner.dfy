/** The activation planner as it works: states appended one by one, numbers reserved and filled, scopes, loops and
    blocks pushed and popped around each construct. Every step is proved to build the plans of module Planning. */
module ActivationPlanner {
  import opened Values
  import opened Patterns
  import opened Hir
  import opened StateTable
  import opened Planning
  import opened Simulation
  import opened SimulationProof
  import opened PlannerCorrectness
  import opened PlanSafety

  /** All scopes merged, inner names over outer ones. */
  function Flatten(scopes: seq<Scope>): Scope
    decreases |scopes|
  {
    if |scopes| == 0 then map[] else Flatten(scopes[..|scopes| - 1]) + scopes[|scopes| - 1]
  }

  lemma FlattenPush(scopes: seq<Scope>)
    ensures Flatten(scopes + [map[]]) == Flatten(scopes)
  {
    assert (scopes + [map[]])[..|scopes|] == scopes;
  }

  /** The innermost scope with one more name. */
  function Bound(scopes: seq<Scope>, name: string, slot: nat): seq<Scope>
    requires |scopes| > 0
  {
    var inner: Scope := scopes[|scopes| - 1][name := slot];
    scopes[..|scopes| - 1] + [inner]
  }

  lemma FlattenBind(scopes: seq<Scope>, name: string, slot: nat)
    requires |scopes| > 0
    ensures Flatten(Bound(scopes, name, slot)) == Flatten(scopes)[name := slot]
  {
    assert Bound(scopes, name, slot)[..|scopes| - 1] == scopes[..|scopes| - 1];
    BindRight(Flatten(scopes[..|scopes| - 1]), scopes[|scopes| - 1], name, slot);
  }

  lemma BindRight(a: Scope, b: Scope, name: string, slot: nat)
    ensures a + b[name := slot] == (a + b)[name := slot]
  {}

  // ----- how much there is left to plan -----

  function Weight(e: Expr): nat {
    match e
    case Const(_) => 1
    case Local(_) => 1
    case Binary(_, lhs, rhs) => 1 + Weight(lhs) + Weight(rhs)
    case Logical(_, lhs, rhs) => 1 + Weight(lhs) + Weight(rhs)
    case Call(values) => 1 + ExprsWeight(values)
    case Block(stmts) => 1 + StmtsWeight(stmts)
    case LabeledBlock(_, body) => 1 + Weight(body)
    case If(cond, thn, els) => 1 + Weight(cond) + Weight(thn) + if els.Some? then Weight(els.value) else 0
    case MatchOn(scrutinee, arms) => 1 + Weight(scrutinee) + ArmsWeight(arms)
    case StateLoop(_, bindings, body) => 1 + BindingsWeight(bindings) + Weight(body)
    case For(_, _, _, _, source, step, _, body, _, _) => 5 + Weight(source) + Weight(step) + Weight(body)
    case Break(_, value) => 1 + Weight(value)
    case Continue(_) => 1
    case ContinueTransition(_, replacements) => 1 + BindingsWeight(replacements)
  }

  function ExprsWeight(es: Exprs): nat {
    if es.NoExprs? then 0 else Weight(es.head) + ExprsWeight(es.tail)
  }

  function StmtsWeight(ss: Stmts): nat {
    match ss
    case Tail(tail) => 1 + if tail.Some? then Weight(tail.value) else 0
    case Let(_, value, _, rest) => 1 + Weight(value) + StmtsWeight(rest)
    case Do(value, rest) => 1 + Weight(value) + StmtsWeight(rest)
    case Return(result, _, _) => 1 + if result.Some? then Weight(result.value) else 0
  }

  function ArmsWeight(arms: Arms): nat {
    if arms.NoArms? then 0 else 1 + ArmWeight(arms) + ArmsWeight(arms.rest)
  }

  function ArmWeight(arm: Arms): nat
    requires arm.Arm?
    decreases arm, 0
  {
    (if arm.guard.Some? then Weight(arm.guard.value) else 0) + Weight(arm.body)
  }

  ghost predicate ArmTargeted(arm: Arms, loops: seq<LoopSig>, blocks: seq<nat>)
    requires arm.Arm?
  {
    Targeted(arm.body, loops, blocks) && (arm.guard.Some? ==> Targeted(arm.guard.value, loops, blocks))
  }

  function BindingsWeight(bs: BindList): nat {
    if bs.NoBindings? then 0 else Weight(bs.value) + BindingsWeight(bs.rest)
  }

  // ----- positions in the operand, arm and binding lists -----

  function DropExprs(es: Exprs, i: nat): Exprs
    requires i <= Size(es)
  {
    if i == 0 then es else DropExprs(es.tail, i - 1)
  }

  lemma {:induction false} ExprAt(es: Exprs, i: nat)
    requires i < Size(es)
    ensures DropExprs(es, i).Arg? && DropExprs(es, i + 1) == DropExprs(es, i).tail
    ensures Weight(DropExprs(es, i).head) <= ExprsWeight(es)
    ensures forall loops, blocks | ExprsTargeted(es, loops, blocks) :: Targeted(DropExprs(es, i).head, loops, blocks)
    decreases i
  {
    if i > 0 { ExprAt(es.tail, i - 1); }
  }

  lemma {:induction false} AllExprsDropped(es: Exprs)
    ensures DropExprs(es, Size(es)) == NoExprs
  {
    if es.Arg? { AllExprsDropped(es.tail); }
  }

  function ArmCount(arms: Arms): nat {
    if arms.NoArms? then 0 else 1 + ArmCount(arms.rest)
  }

  function DropArms(arms: Arms, i: nat): Arms
    requires i <= ArmCount(arms)
  {
    if i == 0 then arms else DropArms(arms.rest, i - 1)
  }

  lemma {:induction false} ArmAt(arms: Arms, i: nat)
    requires i < ArmCount(arms)
    ensures DropArms(arms, i).Arm? && DropArms(arms, i + 1) == DropArms(arms, i).rest
    ensures ArmWeight(DropArms(arms, i)) <= ArmsWeight(arms)
    ensures forall loops, blocks | ArmsTargeted(arms, loops, blocks) :: ArmTargeted(DropArms(arms, i), loops, blocks)
    decreases i
  {
    if i > 0 { ArmAt(arms.rest, i - 1); }
  }

  lemma {:induction false} AllArmsDropped(arms: Arms)
    ensures DropArms(arms, ArmCount(arms)) == NoArms
  {
    if arms.Arm? { AllArmsDropped(arms.rest); }
  }

  function DropBindings(bs: BindList, i: nat): BindList
    requires i <= |BoundNames(bs)|
  {
    if i == 0 then bs else DropBindings(bs.rest, i - 1)
  }

  lemma {:induction false} BindingAt(bs: BindList, i: nat)
    requires i < |BoundNames(bs)|
    ensures DropBindings(bs, i).Bind? && DropBindings(bs, i + 1) == DropBindings(bs, i).rest
    ensures DropBindings(bs, i).name == BoundNames(bs)[i]
    ensures Weight(DropBindings(bs, i).value) <= BindingsWeight(bs)
    ensures forall loops, blocks | BindingsTargeted(bs, loops, blocks) :: Targeted(DropBindings(bs, i).value, loops, blocks)
    decreases i
  {
    if i > 0 { BindingAt(bs.rest, i - 1); }
  }

  lemma {:induction false} AllBindingsDropped(bs: BindList)
    ensures DropBindings(bs, |BoundNames(bs)|) == NoBindings
  {
    if bs.Bind? { AllBindingsDropped(bs.rest); }
  }

  lemma NothingDropped(es: Exprs, arms: Arms, bs: BindList)
    ensures DropExprs(es, 0) == es && DropArms(arms, 0) == arms && DropBindings(bs, 0) == bs
  {}

  lemma NoReplacementsPlan(p: Plan, cx: Ctx, names: seq<string>, scratch: nat, next: nat)
    ensures CompileReplacements(p, cx, NoBindings, names, scratch, next) == Code(p, next)
  {}

  lemma NoInitsPlan(p: Plan, cx: Ctx, first: nat, next: nat)
    ensures CompileInits(p, cx, NoBindings, first, next) == Code(p, next)
  {}

  lemma PlanOfCall(p: Plan, cx: Ctx, e: Expr, target: nat, next: nat)
    requires e.Call?
    ensures var call := Emit(Slots(p, Size(e.values)), cx, cx.depth, [], Transfer(p.nextSlot, Size(e.values), next, target));
            CompileExpr(p, cx, e, target, next) == CompileAll(call.plan, cx, e.values, p.nextSlot, call.entry)
  {}

  /** The head of a state loop is still only reserved once its body is planned. */
  lemma StateHeadReserved(p: Plan, cx: Ctx, e: Expr, target: nat, next: nat)
    requires e.StateLoop?
    ensures var body := StateBodyCode(p, cx, e, target, next);
            |p.entries| < |body.plan.entries| && body.plan.entries[|p.entries|] == Reserved(cx.depth + 1)
  {
    hide CompileExpr;
    assert Grows(Reserve(p, cx.depth + 1).plan, StateBodyCode(p, cx, e, target, next).plan);
  }

  lemma ForBodyTargeted(e: Expr, loops: seq<LoopSig>, blocks: seq<nat>)
    requires e.For? && Targeted(e, loops, blocks)
    ensures Targeted(MatchOn(Local(e.itemName), ForArm(e)), loops + [LoopSig(e.target, [], false)], blocks)
    ensures Weight(MatchOn(Local(e.itemName), ForArm(e))) < Weight(e)
  {
    assert ArmsWeight(NoArms) == 0 && ArmsWeight(ForArm(e)) == 1 + Weight(e.body);
    var inner := loops + [LoopSig(e.target, [], false)];
    assert ArmsTargeted(NoArms, inner, blocks) && ArmsTargeted(ForArm(e), inner, blocks);
  }

  lemma ForPartsTargeted(e: Expr, loops: seq<LoopSig>, blocks: seq<nat>)
    requires e.For? && Targeted(e, loops, blocks)
    ensures Targeted(e.step, loops, blocks) && Weight(e.step) < Weight(e)
    ensures Targeted(e.source, loops, blocks) && Weight(e.source) < Weight(e)
  {}

  /** The body of a `for` loop is planned as a one-armed match on the item. */
  lemma ForBodyPlan(p: Plan, cx: Ctx, e: Expr, target: nat, next: nat, before: Plan)
    requires e.For?
    requires before == Slots(Reserve(ForFinish(p, cx, e, target, next), cx.depth).plan, 1)
    ensures var bodyCx := ForBodyCx(p, cx, e, target, next);
            var chain := ForChain(p, cx, e, target, next);
            CompileExpr(before, bodyCx, MatchOn(Local(e.itemName), ForArm(e)), p.nextSlot + 3, |p.entries| + 1)
            == StoreState(chain.plan, bodyCx, p.nextSlot + 4, Direct(Local(e.itemName)), chain.entry)
  {
    hide CompileExpr, CompileArms, ForChain;
    var bodyCx := ForBodyCx(p, cx, e, target, next);
    PlanOfMatch(before, bodyCx, MatchOn(Local(e.itemName), ForArm(e)), p.nextSlot + 3, |p.entries| + 1);
    ForChainIsArms(p, cx, e, target, next);
    var chain := ForChain(p, cx, e, target, next);
    PlanOfAtomic(chain.plan, bodyCx, Local(e.itemName), p.nextSlot + 4, chain.entry);
  }

  class ActivationPlanner {
    var states: seq<Entry>
    var nextSlot: nat
    var sourceScopes: seq<Scope>
    var loops: seq<Loop>
    var blocks: seq<BlockExit>
    var cleanupDepth: nat

    /** What has been planned so far. */
    function Planned(): Plan
      reads this
    {
      Plan(states, nextSlot)
    }

    /** What code planned now stands in. */
    function Context(): Ctx
      reads this
    {
      Ctx(Flatten(sourceScopes), loops, blocks, cleanupDepth)
    }

    /** The planner can plan `e` here: there is a scope to bind in and every transfer finds its target. */
    ghost predicate Accepts(e: Expr)
      reads this
    {
      |sourceScopes| > 0 && Targeted(e, Sigs(loops), BlockTargets(blocks))
    }

    /** Parameters take the first slots; state 0 is kept for the entry. */
    constructor (parameters: seq<string>)
      ensures Planned() == StartPlan(parameters).(nextSlot := |parameters|)
      ensures Context() == StartCx(parameters) && |sourceScopes| > 0
    {
      var scope: Scope := map[];
      var i := 0;
      while i < |parameters|
        invariant i <= |parameters|
        invariant BindAll(scope, parameters[i..], i) == BindAll(map[], parameters, 0)
      {
        assert parameters[i..][1..] == parameters[i + 1..];
        scope := scope[parameters[i] := i];
        i := i + 1;
      }
      states := [Reserved(1)];
      nextSlot := |parameters|;
      sourceScopes := [map[], scope];
      loops := [];
      blocks := [];
      cleanupDepth := 1;
      new;
      FlattenPush([]);
      assert sourceScopes[..1] == [] + [map[]];
      assert Flatten(sourceScopes) == scope;
    }

    // ----- states and slots -----

    /** Append a state, entered with `depth` cleanup scopes open. */
    method AddState(depth: nat, actions: seq<Action>, terminal: Terminal) returns (id: nat)
      modifies `states
      ensures Code(Planned(), id) == Emit(old(Planned()), Context(), depth, actions, terminal)
    {
      id := |states|;
      states := states + [Filled(State(Flatten(sourceScopes), actions, terminal), depth)];
    }

    method ReserveState(depth: nat) returns (id: nat)
      modifies `states
      ensures Code(Planned(), id) == Reserve(old(Planned()), depth)
    {
      id := |states|;
      states := states + [Reserved(depth)];
    }

    /** A reserved number is filled once. */
    method FillState(id: nat, depth: nat, terminal: Terminal)
      requires id < |states| && states[id] == Reserved(depth)
      modifies `states
      ensures Planned() == Fill(old(Planned()), Context(), id, depth, terminal)
    {
      states := states[id := Filled(State(Flatten(sourceScopes), [], terminal), depth)];
    }

    method NewSlot() returns (slot: nat)
      modifies `nextSlot
      ensures Planned() == Slots(old(Planned()), 1) && slot == old(nextSlot)
    {
      slot := nextSlot;
      nextSlot := nextSlot + 1;
    }

    method NewSlots(count: nat) returns (first: nat)
      modifies `nextSlot
      ensures Planned() == Slots(old(Planned()), count) && first == old(nextSlot)
    {
      first := nextSlot;
      var i := 0;
      while i < count
        invariant i <= count && nextSlot == first + i
      {
        var _ := NewSlot();
        i := i + 1;
      }
    }

    method StoreTo(target: nat, value: Operand, next: nat) returns (id: nat)
      modifies `states
      ensures Code(Planned(), id) == StoreState(old(Planned()), Context(), target, value, next)
    {
      id := AddState(cleanupDepth, [Store(target, value)], Goto(next));
    }

    // ----- scopes -----

    method PushScope()
      modifies `sourceScopes
      ensures sourceScopes == old(sourceScopes) + [map[]] && Context() == old(Context())
    {
      FlattenPush(sourceScopes);
      sourceScopes := sourceScopes + [map[]];
    }

    method PopScope()
      requires |sourceScopes| > 0
      modifies `sourceScopes
      ensures sourceScopes == old(sourceScopes[..|sourceScopes| - 1])
    {
      sourceScopes := sourceScopes[..|sourceScopes| - 1];
    }

    /** A slot of its own for a name of the innermost scope. */
    method Bind(name: string) returns (slot: nat)
      requires |sourceScopes| > 0
      modifies `sourceScopes, `nextSlot
      ensures slot == old(nextSlot) && Planned() == Slots(old(Planned()), 1)
      ensures sourceScopes == Bound(old(sourceScopes), name, slot)
      ensures Context() == old(Context()).(scope := old(Context()).scope[name := slot])
    {
      slot := NewSlot();
      FlattenBind(sourceScopes, name, slot);
      sourceScopes := Bound(sourceScopes, name, slot);
    }

    method BindNames(names: seq<string>) returns (first: nat)
      requires |sourceScopes| > 0
      modifies `sourceScopes, `nextSlot
      ensures first == old(nextSlot) && Planned() == Slots(old(Planned()), |names|)
      ensures |sourceScopes| == old(|sourceScopes|) && sourceScopes[..|sourceScopes| - 1] == old(sourceScopes[..|sourceScopes| - 1])
      ensures Context() == old(Context()).(scope := BindAll(old(Context()).scope, names, first))
    {
      first := nextSlot;
      var i := 0;
      while i < |names|
        invariant i <= |names| && nextSlot == first + i
        invariant |sourceScopes| == old(|sourceScopes|) && sourceScopes[..|sourceScopes| - 1] == old(sourceScopes[..|sourceScopes| - 1])
        invariant BindAll(Context().scope, names[i..], first + i) == BindAll(old(Context()).scope, names, first)
      {
        assert names[i..][1..] == names[i + 1..];
        var _ := Bind(names[i]);
        i := i + 1;
      }
    }

    // ----- one method for each construct -----

    /** What encloses the code being planned is as it was. */
    twostate predicate Restored()
      reads this
    {
      && sourceScopes == old(sourceScopes) && loops == old(loops) && blocks == old(blocks) && cleanupDepth == old(cleanupDepth)
    }

    /** Plan `e` so that its value ends up in `target` and control continues at `next`. */
    method PlanExpr(e: Expr, target: nat, next: nat) returns (entry: nat)
      requires Accepts(e)
      modifies this
      ensures Code(Planned(), entry) == CompileExpr(old(Planned()), old(Context()), e, target, next)
      ensures Restored()
      decreases Weight(e), 3
    {
      hide CompileExpr, Targeted, NeedsSplit;
      PlanOfAtomic(Planned(), Context(), e, target, next);
      if Atomic(e) {
        entry := StoreTo(target, Direct(e), next);
      } else {
        match e
        case Binary(_, _, _) => entry := PlanBinary(e, target, next);
        case Logical(_, _, _) => entry := PlanLogical(e, target, next);
        case Call(_) => entry := PlanCall(e, target, next);
        case Block(_) => entry := PlanBlock(e, target, next);
        case LabeledBlock(_, _) => entry := PlanLabeledBlock(e, target, next);
        case If(_, _, _) => entry := PlanIf(e, target, next);
        case MatchOn(_, _) => entry := PlanMatch(e, target, next);
        case StateLoop(_, _, _) => entry := PlanStateLoop(e, target, next);
        case For(_, _, _, _, _, _, _, _, _, _) => entry := PlanFor(e, target, next);
        case Break(_, _) => entry := PlanBreak(e, target, next);
        case Continue(_) => entry := PlanContinue(e, target, next);
        case ContinueTransition(_, _) => entry := PlanTransition(e, target, next);
      }
    }

    method PlanBinary(e: Expr, target: nat, next: nat) returns (entry: nat)
      requires e.Binary? && !Atomic(e) && Accepts(e)
      modifies this
      ensures Code(Planned(), entry) == CompileExpr(old(Planned()), old(Context()), e, target, next)
      ensures Restored()
      decreases Weight(e), 2
    {
      hide CompileExpr, Atomic;
      PlanOfBinary(Planned(), Context(), e, target, next);
      var lhs := NewSlots(2);
      entry := StoreTo(target, BinarySlots(e.op, lhs, lhs + 1), next);
      entry := PlanExpr(e.rhs, lhs + 1, entry);
      entry := PlanExpr(e.lhs, lhs, entry);
    }

    method PlanLogical(e: Expr, target: nat, next: nat) returns (entry: nat)
      requires e.Logical? && !Atomic(e) && Accepts(e)
      modifies this
      ensures Code(Planned(), entry) == CompileExpr(old(Planned()), old(Context()), e, target, next)
      ensures Restored()
      decreases Weight(e), 2
    {
      hide CompileExpr, Atomic;
      PlanOfLogical(Planned(), Context(), e, target, next);
      var rhs := PlanExpr(e.rhs, target, next);
      var lhs := NewSlot();
      var short := StoreTo(target, Slot(lhs), next);
      var branch := AddState(cleanupDepth, [], if e.both then Branch(lhs, rhs, short) else Branch(lhs, short, rhs));
      entry := PlanExpr(e.lhs, lhs, branch);
    }

    /** Operands get consecutive slots and are planned last first, so that they run first to last. */
    method PlanCall(e: Expr, target: nat, next: nat) returns (entry: nat)
      requires e.Call? && Accepts(e)
      modifies this
      ensures Code(Planned(), entry) == CompileExpr(old(Planned()), old(Context()), e, target, next)
      ensures Restored()
      decreases Weight(e), 2
    {
      hide CompileExpr, DropExprs;
      ghost var cx := Context();
      PlanOfCall(Planned(), cx, e, target, next);
      var count := Size(e.values);
      var first := NewSlots(count);
      entry := AddState(cleanupDepth, [], Transfer(first, count, next, target));
      ghost var p, transfer := Planned(), entry;
      var i: nat := count;
      AllExprsDropped(e.values);
      while i > 0
        invariant i <= count && Restored()
        invariant Code(Planned(), entry) == CompileAll(p, cx, DropExprs(e.values, i), first + i, transfer)
      {
        i := i - 1;
        ExprAt(e.values, i);
        entry := PlanExpr(DropExprs(e.values, i).head, first + i, entry);
      }
      NothingDropped(e.values, NoArms, NoBindings);
    }

    method PlanBlock(e: Expr, target: nat, next: nat) returns (entry: nat)
      requires e.Block? && Accepts(e)
      modifies this
      ensures Code(Planned(), entry) == CompileExpr(old(Planned()), old(Context()), e, target, next)
      ensures Restored()
      decreases Weight(e), 2
    {
      hide CompileExpr, CompileStmts;
      PlanOfBlock(Planned(), Context(), e, target, next);
      PushScope();
      if Managed(e.stmts) {
        var outer := cleanupDepth;
        var leave := AddState(outer + 1, [UnwindCleanupScopes(outer)], Goto(next));
        cleanupDepth := cleanupDepth + 1;
        var body := PlanStatements(e.stmts, target, leave);
        cleanupDepth := outer;
        PopScope();
        entry := AddState(cleanupDepth, [EnterCleanupScope], Goto(body));
      } else {
        entry := PlanStatements(e.stmts, target, next);
        PopScope();
      }
    }

    /** Plan the statements of a block; its lets stay in the innermost scope. */
    method PlanStatements(ss: Stmts, target: nat, next: nat) returns (entry: nat)
      requires |sourceScopes| > 0 && StmtsTargeted(ss, Sigs(loops), BlockTargets(blocks))
      modifies this
      ensures StmtCode(Planned(), entry, Context().scope) == CompileStmts(old(Planned()), old(Context()), ss, target, next)
      ensures Context() == old(Context()).(scope := Context().scope)
      ensures |sourceScopes| == old(|sourceScopes|) && sourceScopes[..|sourceScopes| - 1] == old(sourceScopes[..|sourceScopes| - 1])
      decreases StmtsWeight(ss), 4
    {
      hide CompileExpr;
      match ss
      case Tail(tail) =>
        if tail.Some? {
          entry := PlanExpr(tail.value, target, next);
        } else {
          entry := StoreTo(target, Direct(UNIT), next);
        }
      case Let(_, _, _, _) =>
        entry := PlanLet(ss, target, next);
      case Do(value, rest) =>
        PlanOfDo(Planned(), Context(), ss, target, next);
        var remainder := PlanStatements(rest, target, next);
        var discarded := NewSlot();
        entry := PlanExpr(value, discarded, remainder);
      case Return(_, _, _) =>
        entry := PlanReturn(ss, target, next);
    }

    /** The rest of the block is planned with the name in scope, the value without it. */
    method PlanLet(ss: Stmts, target: nat, next: nat) returns (entry: nat)
      requires ss.Let? && |sourceScopes| > 0 && StmtsTargeted(ss, Sigs(loops), BlockTargets(blocks))
      modifies this
      ensures StmtCode(Planned(), entry, Context().scope) == CompileStmts(old(Planned()), old(Context()), ss, target, next)
      ensures Context() == old(Context()).(scope := Context().scope)
      ensures |sourceScopes| == old(|sourceScopes|) && sourceScopes[..|sourceScopes| - 1] == old(sourceScopes[..|sourceScopes| - 1])
      decreases StmtsWeight(ss), 3
    {
      hide CompileExpr, CompileStmts, Targeted, Flatten;
      PlanOfLet(Planned(), Context(), ss, target, next);
      var before := sourceScopes;
      var binding := Bind(ss.name);
      var remainder := PlanStatements(ss.rest, target, next);
      var after := sourceScopes;
      var computed := NewSlot();
      var actions := [Store(binding, Slot(computed))];
      if ss.closer.Some? {
        actions := actions + [RegisterCleanup(ss.closer.value, binding)];
      }
      assert actions == LetActions(ss.closer, binding, computed);
      var initialize := AddState(cleanupDepth, actions, Goto(remainder));
      sourceScopes := before;
      entry := PlanExpr(ss.value, computed, initialize);
      sourceScopes := after;
    }

    method PlanReturn(ss: Stmts, ghost target: nat, ghost next: nat) returns (entry: nat)
      requires ss.Return? && |sourceScopes| > 0 && StmtsTargeted(ss, Sigs(loops), BlockTargets(blocks))
      modifies this
      ensures StmtCode(Planned(), entry, Context().scope) == CompileStmts(old(Planned()), old(Context()), ss, target, next)
      ensures Restored()
      decreases StmtsWeight(ss), 3
    {
      hide CompileExpr;
      var result := NewSlot();
      if ss.target.FromCallable? {
        entry := AddState(cleanupDepth, [], ReturnSlot(result));
      } else {
        var block := blocks[Innermost(BlockTargets(blocks), ss.target.block).value];
        entry := AddState(cleanupDepth, [Store(block.result, Slot(result)), UnwindCleanupScopes(block.depth)], Goto(block.exit));
      }
      if ss.result.Some? {
        entry := PlanExpr(ss.result.value, result, entry);
      } else {
        entry := StoreTo(result, Direct(UNIT), entry);
      }
    }

    method PlanLabeledBlock(e: Expr, target: nat, next: nat) returns (entry: nat)
      requires e.LabeledBlock? && Accepts(e)
      modifies this
      ensures Code(Planned(), entry) == CompileExpr(old(Planned()), old(Context()), e, target, next)
      ensures Restored()
      decreases Weight(e), 2
    {
      var outer := blocks;
      blocks := blocks + [BlockExit(e.target, target, next, cleanupDepth)];
      assert BlockTargets(blocks) == BlockTargets(outer) + [e.target];
      entry := PlanExpr(e.body, target, next);
      blocks := blocks[..|blocks| - 1];
      assert blocks == outer;
    }

    method PlanIf(e: Expr, target: nat, next: nat) returns (entry: nat)
      requires e.If? && Accepts(e)
      modifies this
      ensures Code(Planned(), entry) == CompileExpr(old(Planned()), old(Context()), e, target, next)
      ensures Restored()
      decreases Weight(e), 2
    {
      hide CompileExpr;
      PlanOfIf(Planned(), Context(), e, target, next);
      var thn := PlanExpr(e.thn, target, next);
      var els;
      if e.els.Some? {
        els := PlanExpr(e.els.value, target, next);
      } else {
        UnitPlan(Planned(), Context(), target, next);
        els := StoreTo(target, Direct(UNIT), next);
      }
      var condition := NewSlot();
      var branch := AddState(cleanupDepth, [], Branch(condition, thn, els));
      entry := PlanExpr(e.cond, condition, branch);
    }

    method PlanBreak(e: Expr, ghost target: nat, ghost next: nat) returns (entry: nat)
      requires e.Break? && Accepts(e)
      modifies this
      ensures Code(Planned(), entry) == CompileExpr(old(Planned()), old(Context()), e, target, next)
      ensures Restored()
      decreases Weight(e), 2
    {
      var loop := loops[FindLoop(Sigs(loops), e.target).value];
      var value := NewSlot();
      var leave := AddState(cleanupDepth, [Store(loop.result, SomeSlot(loop.option, value)), UnwindCleanupScopes(loop.depth)],
                            Goto(loop.exit));
      entry := PlanExpr(e.value, value, leave);
    }

    method PlanContinue(e: Expr, ghost target: nat, ghost next: nat) returns (entry: nat)
      requires e.Continue? && Accepts(e)
      modifies this
      ensures Code(Planned(), entry) == CompileExpr(old(Planned()), old(Context()), e, target, next)
      ensures Restored()
    {
      var loop := loops[FindLoop(Sigs(loops), e.target).value];
      entry := AddState(cleanupDepth, [UnwindCleanupScopes(loop.depth)], Goto(loop.resume));
    }

    /** Arms are planned last first; each falls back to the one after it. */
    method PlanMatch(e: Expr, target: nat, next: nat) returns (entry: nat)
      requires e.MatchOn? && Accepts(e)
      modifies this
      ensures Code(Planned(), entry) == CompileExpr(old(Planned()), old(Context()), e, target, next)
      ensures Restored()
      decreases Weight(e), 2
    {
      hide CompileExpr, DropArms, CompileArms, TestArm;
      ghost var cx := Context();
      PlanOfMatch(Planned(), cx, e, target, next);
      var scrutinee := NewSlot();
      var fallback := StoreTo(target, Direct(UNIT), next);
      ghost var p, last := Planned(), fallback;
      var i: nat := ArmCount(e.arms);
      AllArmsDropped(e.arms);
      NoArmsPlan(p, cx, scrutinee, target, next, last);
      while i > 0
        invariant i <= ArmCount(e.arms) && Restored()
        invariant Code(Planned(), fallback) == CompileArms(p, cx, DropArms(e.arms, i), scrutinee, target, next, last)
      {
        i := i - 1;
        ArmAt(e.arms, i);
        PlanOfArms(p, cx, DropArms(e.arms, i), scrutinee, target, next, last);
        fallback := PlanArm(DropArms(e.arms, i), scrutinee, target, next, fallback);
      }
      NothingDropped(NoExprs, e.arms, NoBindings);
      entry := PlanExpr(e.scrutinee, scrutinee, fallback);
    }

    /** One arm: its names in a scope of their own, its guard between the test and the body. */
    method PlanArm(arm: Arms, scrutinee: nat, target: nat, next: nat, fallback: nat) returns (entry: nat)
      requires arm.Arm? && |sourceScopes| > 0 && ArmTargeted(arm, Sigs(loops), BlockTargets(blocks))
      modifies this
      ensures var rest, cx := Code(old(Planned()), fallback), old(Context());
              var inner := cx.(scope := BindAll(cx.scope, Names(arm.pat), rest.plan.nextSlot));
              Code(Planned(), entry) == TestArm(Committed(rest, cx, arm, target, next), inner, scrutinee, arm.pat, rest.plan.nextSlot, fallback)
      ensures Restored()
      decreases ArmWeight(arm), 4
    {
      hide CompileExpr, TestArm, Targeted, BindAll;
      PushScope();
      var first := BindNames(Names(arm.pat));
      var committed := PlanExpr(arm.body, target, next);
      if arm.guard.Some? {
        var guard := NewSlot();
        var branch := AddState(cleanupDepth, [], Branch(guard, committed, fallback));
        committed := PlanExpr(arm.guard.value, guard, branch);
      }
      entry := PlanTest(scrutinee, arm.pat, first, committed, fallback);
      PopScope();
    }

    method PlanTest(scrutinee: nat, pat: Pat, first: nat, matched: nat, fallback: nat) returns (entry: nat)
      modifies `states, `nextSlot
      ensures Code(Planned(), entry) == TestArm(Code(old(Planned()), matched), Context(), scrutinee, pat, first, fallback)
    {
      var outcome := NewSlot();
      var branch := AddState(cleanupDepth, [], Branch(outcome, matched, fallback));
      entry := AddState(cleanupDepth, [StoreMatch(outcome, scrutinee, pat, first)], Goto(branch));
    }

    // ----- state loops -----

    /** Every binding is copied into its scratch slot at the start and back into its own at the end. */
    method TransitionActions(loop: Loop, scratch: nat) returns (snapshots: seq<Action>, commits: seq<Action>)
      ensures snapshots == Snapshots(loop.sig.names, scratch)
      ensures commits == [UnwindCleanupScopes(loop.continueDepth)] + Commits(|loop.sig.names|, loop.first, scratch)
    {
      var names := loop.sig.names;
      snapshots, commits := [], [UnwindCleanupScopes(loop.continueDepth)];
      var j := 0;
      while j < |names|
        invariant j <= |names|
        invariant commits + Commits(|names| - j, loop.first + j, scratch + j)
                  == [UnwindCleanupScopes(loop.continueDepth)] + Commits(|names|, loop.first, scratch)
        invariant snapshots + Snapshots(names[j..], scratch + j) == Snapshots(names, scratch)
      {
        commits := commits + [Store(loop.first + j, Slot(scratch + j))];
        snapshots := snapshots + [Store(scratch + j, Direct(Local(names[j])))];
        assert names[j..][1..] == names[j + 1..];
        j := j + 1;
      }
      assert names[j..] == [] && snapshots + [] == snapshots && commits + [] == commits;
    }

    /** The states of a transition: snapshot, replacements in order, commit. */
    method PlanStateTransition(loop: Loop, replacements: BindList) returns (entry: nat)
      requires |sourceScopes| > 0 && BindingsTargeted(replacements, Sigs(loops), BlockTargets(blocks))
      modifies this
      ensures var commit := CommitState(old(Planned()), old(Context()), loop);
              var evaluate := CompileReplacements(commit.plan, old(Context()), replacements, loop.sig.names, old(nextSlot), commit.entry);
              Code(Planned(), entry) == SnapshotState(evaluate, old(Context()), loop, old(nextSlot))
      ensures Restored()
      decreases BindingsWeight(replacements), 4
    {
      hide CompileExpr, DropBindings, CompileReplacements, Targeted, Flatten, Snapshots, Commits;
      ghost var cx := Context();
      var names := loop.sig.names;
      var scratch := NewSlots(|names|);
      var snapshots, commits := TransitionActions(loop, scratch);
      var commit := AddState(cleanupDepth, commits, Goto(loop.head));
      ghost var p := Planned();
      entry := commit;
      var i: nat := |BoundNames(replacements)|;
      AllBindingsDropped(replacements);
      NoReplacementsPlan(p, cx, names, scratch, commit);
      while i > 0
        invariant i <= |BoundNames(replacements)| && Restored()
        invariant Code(Planned(), entry) == CompileReplacements(p, cx, DropBindings(replacements, i), names, scratch, commit)
      {
        i := i - 1;
        BindingAt(replacements, i);
        var replacement := DropBindings(replacements, i);
        PlanOfReplacements(p, cx, replacement, names, scratch, commit);
        entry := PlanExpr(replacement.value, scratch + IndexOf(names, replacement.name), entry);
      }
      NothingDropped(NoExprs, NoArms, replacements);
      entry := AddState(cleanupDepth, snapshots, Goto(entry));
    }

    method PlanTransition(e: Expr, ghost target: nat, ghost next: nat) returns (entry: nat)
      requires e.ContinueTransition? && Accepts(e)
      modifies this
      ensures Code(Planned(), entry) == CompileExpr(old(Planned()), old(Context()), e, target, next)
      ensures Restored()
      decreases Weight(e), 2
    {
      hide CompileReplacements, CommitState, SnapshotState;
      entry := PlanStateTransition(loops[FindLoop(Sigs(loops), e.target).value], e.replacements);
    }

    method PlanStateLoop(e: Expr, target: nat, next: nat) returns (entry: nat)
      requires e.StateLoop? && Accepts(e)
      modifies this
      ensures Code(Planned(), entry) == CompileExpr(old(Planned()), old(Context()), e, target, next)
      ensures Restored()
      decreases Weight(e), 2
    {
      hide CompileExpr, CompileInits, FilledPlan, BindAll;
      PlanOfStateLoop(Planned(), Context(), e, target, next);
      PushScope();
      var outer := cleanupDepth;
      cleanupDepth := cleanupDepth + 1;
      var head := ReserveState(cleanupDepth);
      var first := BindNames(BoundNames(e.bindings));
      PlanStateBody(e, old(Planned()), old(Context()), first, outer, head, target, next);
      entry := PlanInits(e.bindings, first, head);
      cleanupDepth := outer;
      PopScope();
      entry := AddState(cleanupDepth, [EnterCleanupScope], Goto(entry));
    }

    /** Everything between a state loop's bindings getting their slots and their initial values being planned. */
    method PlanStateBody(e: Expr, ghost p: Plan, ghost cx: Ctx, first: nat, outer: nat, head: nat, target: nat, next: nat)
      requires e.StateLoop? && Accepts(e) && first == p.nextSlot && outer == cx.depth && head == |p.entries|
      requires Planned() == Slots(Reserve(p, outer + 1).plan, |BoundNames(e.bindings)|)
      requires Context() == HeaderCx(p, cx, e)
      modifies this
      ensures Planned() == FilledPlan(p, cx, e, target, next)
      ensures Restored()
      decreases Weight(e), 1
    {
      hide CompileExpr, CommitState, SnapshotState, BindAll;
      var names := BoundNames(e.bindings);
      var loop := Loop(LoopSig(e.target, names, true), target, next, outer, None, head, head + 2, cleanupDepth, first);
      assert loop == StateLoopOf(p, cx, e, target, next);
      var commit := CommitState(Planned(), Context(), loop);
      NoReplacementsPlan(commit.plan, Context(), names, nextSlot, commit.entry);
      var again := PlanStateTransition(loop, NoBindings);
      assert Code(Planned(), again) == AgainPlan(p, cx, e, target, next);
      var enclosing := loops;
      loops := loops + [loop];
      assert Sigs(loops) == Sigs(enclosing) + [loop.sig];
      var discarded := NewSlot();
      var body := PlanExpr(e.body, discarded, again);
      assert Code(Planned(), body) == StateBodyCode(p, cx, e, target, next);
      loops := loops[..|loops| - 1];
      assert loops == enclosing;
      StateHeadReserved(p, cx, e, target, next);
      FillState(head, cleanupDepth, Goto(body));
    }

    /** Initial values, installed one after the other. */
    method PlanInits(bindings: BindList, first: nat, next: nat) returns (entry: nat)
      requires |sourceScopes| > 0 && BindingsTargeted(bindings, Sigs(loops), BlockTargets(blocks))
      modifies this
      ensures Code(Planned(), entry) == CompileInits(old(Planned()), old(Context()), bindings, first, next)
      ensures Restored()
      decreases BindingsWeight(bindings), 4
    {
      hide CompileExpr, CompileInits, DropBindings;
      ghost var p, cx := Planned(), Context();
      var i: nat := |BoundNames(bindings)|;
      entry := next;
      AllBindingsDropped(bindings);
      NoInitsPlan(p, cx, first + i, next);
      while i > 0
        invariant i <= |BoundNames(bindings)| && Restored()
        invariant Code(Planned(), entry) == CompileInits(p, cx, DropBindings(bindings, i), first + i, next)
      {
        i := i - 1;
        BindingAt(bindings, i);
        var binding := DropBindings(bindings, i);
        PlanOfInits(p, cx, binding, first + i, next);
        var value := NewSlot();
        var install := AddState(cleanupDepth, [Store(first + i, Slot(value))], Goto(entry));
        entry := PlanExpr(binding.value, value, install);
      }
      NothingDropped(NoExprs, NoArms, bindings);
    }

    // ----- for loops -----

    method PlanFor(e: Expr, target: nat, next: nat) returns (entry: nat)
      requires e.For? && Accepts(e)
      modifies this
      ensures Code(Planned(), entry) == CompileExpr(old(Planned()), old(Context()), e, target, next)
      ensures Restored()
      decreases Weight(e), 2
    {
      hide CompileExpr, ForChain, ForFilled, Targeted, Weight, Flatten;
      ForPartsTargeted(e, Sigs(loops), BlockTargets(blocks));
      PlanOfFor(Planned(), Context(), e, target, next);
      var location := EnterFor(e);
      var head := PlanForLoop(e, old(Planned()), old(Context()), location, target, next);
      var initial := NewSlot();
      var initialized := AddState(cleanupDepth, [Store(location, Slot(initial))], Goto(head));
      entry := PlanExpr(e.source, initial, initialized);
      PopScope();
    }

    /** The iterator, the item and the next iterator are names of a scope of their own. */
    method EnterFor(e: Expr) returns (location: nat)
      requires e.For? && |sourceScopes| > 0
      modifies `sourceScopes, `nextSlot
      ensures location == old(nextSlot) && Planned() == Slots(old(Planned()), 3)
      ensures Context() == ForScope(old(Planned()), old(Context()), e)
      ensures |sourceScopes| == old(|sourceScopes|) + 1 && sourceScopes[..|sourceScopes| - 1] == old(sourceScopes)
    {
      hide Flatten;
      PushScope();
      location := Bind(e.iteratorName);
      var item := Bind(e.itemName);
      var successor := Bind(e.successorName);
    }

    /** Everything between the loop's scope being opened and its source being planned. */
    method PlanForLoop(e: Expr, ghost p: Plan, ghost cx: Ctx, location: nat, target: nat, next: nat) returns (head: nat)
      requires e.For? && Accepts(e) && location == p.nextSlot && Planned() == Slots(p, 3) && Context() == ForScope(p, cx, e)
      modifies this
      ensures Planned() == ForFilled(p, cx, e, target, next) && head == |p.entries| + 1
      ensures Restored()
      decreases Weight(e), 1
    {
      hide CompileExpr, ForChain, StepPattern, Targeted, Weight, Flatten;
      ghost var inner := Context();
      var finish := StoreTo(target, Direct(Const(NoneOf(e.option))), next);
      head := ReserveState(cleanupDepth);
      ghost var reserved := Planned();
      var enclosing := loops;
      loops := loops + [Loop(LoopSig(e.target, [], false), target, next, cleanupDepth, e.option, head, head, cleanupDepth, location)];
      assert Sigs(loops) == Sigs(enclosing) + [LoopSig(e.target, [], false)];
      var discarded := NewSlot();
      ghost var before := Planned();
      assert Context() == ForBodyCx(p, cx, e, target, next);
      ForBodyTargeted(e, Sigs(enclosing), BlockTargets(blocks));
      var body := PlanExpr(MatchOn(Local(e.itemName), Arm(e.pat, None, e.body, NoArms)), discarded, head);
      ForBodyPlan(p, cx, e, target, next, before);
      loops := loops[..|loops| - 1];
      assert loops == enclosing;
      PlanForStep(e, p, cx, location, finish, head, body, target, next);
    }

    /** Taking a step, telling whether it yielded, and advancing the iterator before the body at `body`. */
    method PlanForStep(e: Expr, ghost p: Plan, ghost cx: Ctx, location: nat, finish: nat, head: nat, body: nat,
                       ghost target: nat, ghost next: nat)
      requires e.For? && Accepts(e) && location == p.nextSlot && finish == |p.entries| && head == finish + 1
      requires Context() == ForScope(p, cx, e)
      requires var chain := ForChain(p, cx, e, target, next);
               Code(Planned(), body) == StoreState(chain.plan, ForBodyCx(p, cx, e, target, next), location + 4, Direct(Local(e.itemName)), chain.entry)
      modifies this
      ensures Planned() == ForFilled(p, cx, e, target, next)
      ensures Restored()
      decreases Weight(e), 0
    {
      hide CompileExpr, ForChain, ForAttempt, Targeted, Flatten;
      ForPartsTargeted(e, Sigs(loops), BlockTargets(blocks));
      var step, attempt := PlanForAttempt(e, p, cx, location, finish, body, target, next);
      var entry := PlanExpr(e.step, step, attempt);
      ForReserves(p, cx, e, target, next);
      FillState(head, cleanupDepth, Goto(entry));
    }

    /** The states between a step and the body: take it apart, advance the iterator, hand the item to the pattern. */
    method PlanForAttempt(e: Expr, ghost p: Plan, ghost cx: Ctx, location: nat, finish: nat, body: nat, ghost target: nat, ghost next: nat)
      returns (step: nat, attempt: nat)
      requires e.For? && location == p.nextSlot && finish == |p.entries| && Context() == ForScope(p, cx, e)
      requires var chain := ForChain(p, cx, e, target, next);
               Code(Planned(), body) == StoreState(chain.plan, ForBodyCx(p, cx, e, target, next), location + 4, Direct(Local(e.itemName)), chain.entry)
      modifies `states, `nextSlot
      ensures var chain := ForChain(p, cx, e, target, next);
              Code(Planned(), attempt) == ForAttempt(p, cx, e, target, next, chain) && step == chain.plan.nextSlot + 1
    {
      hide CompileExpr, ForChain, StepPattern, ForFallback;
      var advance := AddState(cleanupDepth, [Store(location, Direct(Local(e.successorName)))], Goto(body));
      var matched := NewSlot();
      var branch := AddState(cleanupDepth, [], Branch(matched, advance, finish));
      step := NewSlot();
      attempt := AddState(cleanupDepth,
        [StoreMatch(matched, step, StepPattern(e.iteration, e.itemName, e.successorName), location + 1)], Goto(branch));
    }

    // ----- the whole callable -----

    /** Plan the body; every reserved number has been filled by then, so every state is there to be taken. */
    method Finish(parameters: seq<string>, body: Expr) returns (table: Table)
      requires Planned() == StartPlan(parameters).(nextSlot := |parameters|) && Context() == StartCx(parameters)
      requires |sourceScopes| > 0 && Targeted(body, [], [])
      modifies this
      ensures Planned() == PlanCallable(parameters, body)
      ensures table == TableOf(PlanCallable(parameters, body))
    {
      hide CompileExpr, Targeted, PlanCallable, BindAll;
      var result := NewSlot();
      var terminal := AddState(cleanupDepth, [], ReturnSlot(result));
      assert Sigs([]) == [] && BlockTargets([]) == [];
      var entry := PlanExpr(body, result, terminal);
      assert Code(Planned(), entry) == BodyCode(parameters, body);
      BodyKeepsStart(parameters, body);
      FillState(0, 1, Goto(entry));
      EveryStateIsPlanned(parameters, body);
      table := TakeStates();
    }

    method TakeStates() returns (table: Table)
      requires forall i | 0 <= i < |states| :: states[i].Filled?
      ensures table == TableOf(Planned())
    {
      table := [];
      var i := 0;
      while i < |states|
        invariant i <= |states| && table == TableOf(Planned())[..i]
      {
        table := table + [states[i].state];
        i := i + 1;
      }
    }
  }

  lemma BodyKeepsStart(parameters: seq<string>, body: Expr)
    ensures var code := BodyCode(parameters, body);
            && |code.plan.entries| > 0 && code.plan.entries[0] == Reserved(1)
            && PlanCallable(parameters, body) == Fill(code.plan, StartCx(parameters), 0, 1, Goto(code.entry))
  {
    hide CompileExpr;
    var terminal := Emit(StartPlan(parameters), StartCx(parameters), 1, [], ReturnSlot(|parameters|));
    assert terminal.plan.entries[0] == Reserved(1);
  }

  /** Planning a callable gives a table that halts with an outcome after a trace of calls and cleanups exactly when
      direct evaluation of the body has that outcome after that trace. */
  method PlanActivation(parameters: seq<string>, body: Expr) returns (table: Table)
    requires Plannable(parameters, body)
    ensures forall h, args, o, tr | |args| == |parameters| ::
              HaltsWith(h, table, Launch(args), o, tr) <==> Means(h, parameters, args, body, o, tr)
  {
    hide HaltsWith, Means;
    var planner := new ActivationPlanner(parameters);
    WellFormedIsTargeted(body, NameSet(parameters), [], []);
    table := planner.Finish(parameters, body);
    forall h, args: seq<Value>, o, tr | |args| == |parameters|
      ensures HaltsWith(h, table, Launch(args), o, tr) <==> Means(h, parameters, args, body, o, tr)
    {
      PlannedTableRunsTheBody(h, parameters, args, body, o, tr);
    }
  }
}
