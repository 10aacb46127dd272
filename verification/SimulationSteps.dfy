/** Composing pieces of a run: entering later code, single steps of emitted states, weakening what a piece established. */
module SimulationSteps {
  import opened Values
  import opened Patterns
  import opened Hir
  import opened StateTable
  import opened Planning
  import opened Simulation

  lemma CoversPrefix(t: Table, p: Plan, q: Plan)
    requires Covers(t, q) && Grows(p, q)
    ensures Covers(t, p)
  {
    forall i | 0 <= i < |p.entries| && p.entries[i].Filled? ensures i < |t| && t[i] == p.entries[i].state {
      assert q.entries[i] == p.entries[i];
    }
  }

  lemma Emitted(t: Table, p: Plan, cx: Ctx, depth: nat, actions: seq<Action>, terminal: Terminal, q: Plan)
    requires Covers(t, q) && Grows(Emit(p, cx, depth, actions, terminal).plan, q)
    ensures |p.entries| < |t| && t[|p.entries|] == State(cx.scope, actions, terminal)
    ensures Covers(t, p)
  {
    var e := Emit(p, cx, depth, actions, terminal);
    CoversPrefix(t, e.plan, q);
    assert e.plan.entries[|p.entries|].Filled?;
    CoversPrefix(t, p, e.plan);
  }

  lemma RunOne(h: Host, t: Table, c: Config, a: nat, m: Config)
    requires m == Run(h, t, c, a)
    ensures Run(h, t, c, a + 1) == Step(h, t, m)
  {
    RunAdds(h, t, c, a, 1);
    assert Run(h, t, m, 1) == Run(h, t, Step(h, t, m), 0);
  }

  lemma ActOne(h: Host, sc: Scope, a: Action, l: Locals, scopes: seq<seq<Pending>>, tr: Trace)
    ensures Acts(h, sc, [a], l, scopes, tr) == Act(h, sc, a, l, scopes, tr)
  {
    var r := Act(h, sc, a, l, scopes, tr);
    if r.Proceed? { assert [a][1..] == []; }
  }

  lemma ActsCons(h: Host, sc: Scope, a: Action, rest: seq<Action>, l: Locals, scopes: seq<seq<Pending>>, tr: Trace)
    ensures Acts(h, sc, [a] + rest, l, scopes, tr) ==
            var r := Act(h, sc, a, l, scopes, tr);
            if r.Stop? then r else Acts(h, sc, rest, r.locals, r.scopes, r.trace)
  {
    assert ([a] + rest)[1..] == rest;
  }

  lemma ActTwo(h: Host, sc: Scope, a: Action, b: Action, l: Locals, scopes: seq<seq<Pending>>, tr: Trace)
    ensures Acts(h, sc, [a, b], l, scopes, tr) ==
            var r := Act(h, sc, a, l, scopes, tr);
            if r.Stop? then r else Act(h, sc, b, r.locals, r.scopes, r.trace)
  {
    var r := Act(h, sc, a, l, scopes, tr);
    assert [a, b][1..] == [b];
    if r.Proceed? { ActOne(h, sc, b, r.locals, r.scopes, r.trace); }
  }

  lemma FrameChain(l: Locals, m: Locals, n: nat, w: iset<nat>, k: Locals, n1: nat, w1: iset<nat>, w2: iset<nat>)
    requires Frame(l, m, n, w) && Frame(m, k, n1, w1)
    requires n <= n1 && w <= w2 && forall s: nat | s < n && s in w1 :: s in w2
    ensures Frame(l, k, n, w2)
  {}

  /** `c` is a point inside the code of `s`, with nothing unwound and nothing relied on overwritten. */
  ghost predicate Within(s: Spot, c: Config) {
    s.c.Running? && c.Running? && c.scopes == s.c.scopes && Frame(s.c.locals, c.locals, s.n, s.w)
  }

  /** `s1` is a later piece of the same code: same scope, same open cleanups, nothing new overwritten. */
  ghost predicate Later(s: Spot, s1: Spot) {
    && s1.cx == s.cx && s1.env == s.env && s1.owed == s.owed
    && Within(s, s1.c)
    && s.n <= s1.n && forall x: nat | x < s.n && x in s1.w :: x in s.w
  }

  lemma ReadyLater(s: Spot, s1: Spot)
    requires Ready(s) && Later(s, s1)
    ensures Ready(s1)
  {
    forall i | 0 <= i < |s.cx.loops| ensures LoopReady(s.cx, s.cx.loops[i], s.env, s1.n) {
      assert LoopReady(s.cx, s.cx.loops[i], s.env, s.n);
    }
    OwesKept(s.c.scopes, s.c.locals, s1.c.locals, s.owed, s.n, s.w);
  }

  lemma WritesFrom(s: Spot, s1: Spot, k: Config, extra: iset<nat>)
    requires Later(s, s1) && Writes(s1, k, extra)
    ensures Writes(s, k, extra)
  {
    FrameChain(s.c.locals, s1.c.locals, s.n, s.w, k.locals, s1.n, s1.w + extra, s.w + extra);
  }

  /** A transfer out of a later piece of the same code is a transfer out of the whole. */
  lemma TransferredFrom(h: Host, s: Spot, s1: Spot, r: Result, k: Config)
    requires Later(s, s1) && Transferred(h, s1, r, k)
    ensures Transferred(h, s, r, k)
  {
    if k.Running? {
      match r.completion
      case Broke(target, v) => WritesFrom(s, s1, k, iset{s.cx.loops[FindLoop(Sigs(s.cx.loops), target).value].result});
      case Continued(target, updates) =>
        var loop := s.cx.loops[FindLoop(Sigs(s.cx.loops), target).value];
        WritesFrom(s, s1, k, Span(loop.first, |loop.sig.names|));
      case LeftBlock(target, v) =>
        WritesFrom(s, s1, k, iset{s.cx.blocks[Innermost(BlockTargets(s.cx.blocks), target).value].result});
      case _ =>
    }
  }

  /** The last piece of code, planned for the same target and continuation, decides the outcome of the whole. */
  lemma SimulatesFrom(h: Host, s: Spot, s1: Spot, r: Result, fuel: nat, a: nat, b: nat, k: Config)
    requires Later(s, s1) && s1.target == s.target && s1.next == s.next && s1.d == s.d
    requires Simulates(h, s1, r, fuel, b, k)
    ensures Simulates(h, s, r, fuel, a + b, k)
  {
    if r.Done? && r.completion.Normal? {
      if k.Running? { WritesFrom(s, s1, k, iset{}); }
    } else if r.Done? {
      TransferredFrom(h, s, s1, r, k);
    }
  }

  /** A piece that does not end normally decides the outcome, wherever it was to leave its value. */
  lemma StoppedFrom(h: Host, s: Spot, s1: Spot, r: Result, fuel: nat, a: nat, b: nat, k: Config)
    requires Later(s, s1) && !(r.Done? && r.completion.Normal?)
    requires Simulates(h, s1, r, fuel, b, k)
    ensures Simulates(h, s, r, fuel, a + b, k)
  {
    if r.Done? { TransferredFrom(h, s, s1, r, k); }
  }

  /** A defect raised here halts the frame after everything owed has been closed. */
  lemma Raises(h: Host, s: Spot, m: Config, ds: seq<Value>, tr: Trace)
    requires Ready(s) && Within(s, m)
    ensures Transferred(h, s, Done(Threw(ds), tr), Halt(h, m.scopes, m.locals, Done(Threw(ds), tr)))
  {
    OwesKept(s.c.scopes, s.c.locals, m.locals, s.owed, s.n, s.w);
    HaltIsOwed(h, m.scopes, m.locals, s.owed, Done(Threw(ds), tr));
  }

  /** Arriving at `next` with every scope still open. */
  lemma Arrives(h: Host, s: Spot, fuel: nat, steps: nat, v: Value, k: Config)
    requires Ready(s) && s.d == s.cx.depth
    requires Within(s, k) && k.pc == s.next && Read(k.locals, s.target) == v
    ensures Simulates(h, s, Done(Normal(v), k.trace), fuel, steps, k)
  {
    assert Keep(s.c.scopes, s.cx.depth) == s.c.scopes;
    assert s.w + iset{} == s.w;
  }

  lemma Arrived(h: Host, s: Spot, r: Result, fuel: nat, steps: nat, k: Config)
    requires Ready(s) && s.d == s.cx.depth
    requires Simulates(h, s, r, fuel, steps, k) && r.Done? && r.completion.Normal?
    ensures Within(s, k) && k.pc == s.next && k.trace == r.trace && Read(k.locals, s.target) == r.completion.value
  {
    assert Keep(s.c.scopes, s.cx.depth) == s.c.scopes;
    assert s.w + iset{} == s.w;
  }

  /** The last step of a composite: its value (or defect) computed from temporaries, then stored. */
  lemma FinishStore(h: Host, s: Spot, m: Config, result: Completion, fuel: nat, steps: nat, k: Config)
    requires Ready(s) && s.target in s.w && s.d == s.cx.depth && Within(s, m)
    requires result.Normal? ==> k == Running(s.next, m.locals[s.target := result.value], m.scopes, m.trace)
    requires result.Threw? ==> k == Halt(h, m.scopes, m.locals, Done(result, m.trace))
    requires result.Normal? || result.Threw?
    ensures Simulates(h, s, Done(result, m.trace), fuel, steps, k)
  {
    if result.Normal? {
      Arrives(h, s, fuel, steps, result.value, k);
    } else {
      Raises(h, s, m, result.defects, m.trace);
    }
  }

  /** A state that stores one operand. */
  lemma StoreStep(h: Host, t: Table, sc: Scope, target: nat, value: Operand, next: nat, c: Config)
    requires c.Running? && c.pc < |t| && t[c.pc] == State(sc, [Store(target, value)], Goto(next))
    ensures var r := Operate(h, sc, value, c.locals, c.trace);
            && (r.Done? && r.completion.Normal? ==> Step(h, t, c) == Running(next, c.locals[target := r.completion.value], c.scopes, r.trace))
            && (r.Done? && r.completion.Threw? ==> Step(h, t, c) == Halt(h, c.scopes, c.locals, r))
  {
    ActOne(h, sc, Store(target, value), c.locals, c.scopes, c.trace);
  }

  /** A state without actions. */
  lemma JumpStep(h: Host, t: Table, sc: Scope, terminal: Terminal, c: Config)
    requires c.Running? && c.pc < |t| && t[c.pc] == State(sc, [], terminal)
    ensures Step(h, t, c) == Finish(h, terminal, c.locals, c.scopes, c.trace)
  {}

  // ----- leaving scopes -----

  /** Unwinding to `d` while carrying a completion that is not a defect: on success control leaves with the scopes
      gone, otherwise the rest is unwound too. */
  lemma UnwindAct(h: Host, sc: Scope, s: Spot, m: Config, d: nat, comp: Completion)
    requires Ready(s) && m.Running? && m.scopes == s.c.scopes && Owes(m.scopes, m.locals, s.owed) && d <= s.cx.depth
    requires !comp.Threw?
    ensures var e := Act(h, sc, UnwindCleanupScopes(d), m.locals, m.scopes, m.trace);
            var u := UnwindOwed(h, s.owed, d, Done(comp, m.trace));
            && u.Done?
            && (u.completion.Threw? ==> e.Stop? && Halt(h, e.scopes, e.locals, Done(Threw(e.defects), e.trace)) == HaltOwed(h, Keep(s.owed, d), u))
            && (!u.completion.Threw? ==> u.completion == comp && e == Proceed(m.locals, Keep(s.c.scopes, d), u.trace))
  {
    hide CtxReady, EnvReady, ScopesReady, LoopReady;
    UnwindIsOwed(h, m.scopes, d, m.locals, s.owed, Done(Normal(Undefined), m.trace));
    UnwindOwedTrace(h, s.owed, d, Normal(Undefined), comp, m.trace);
    var u := UnwindOwed(h, s.owed, d, Done(comp, m.trace));
    var left := Keep(s.c.scopes, d);
    if d < |m.scopes| {
      OwesPrefix(m.scopes, m.locals, s.owed, d);
    } else {
      assert Keep(s.c.scopes, d) == m.scopes && Keep(s.owed, d) == s.owed;
    }
    if u.completion.Threw? { HaltIsOwed(h, left, m.locals, Keep(s.owed, d), u); }
  }

  lemma OwesPrefix(scopes: seq<seq<Pending>>, l: Locals, owed: seq<seq<Owed>>, d: nat)
    requires Owes(scopes, l, owed) && d <= |scopes|
    ensures Owes(scopes[..d], l, owed[..d])
  {
    forall i | 0 <= i < d ensures OwesScope(scopes[..d][i], l, owed[..d][i]) {
      assert OwesScope(scopes[i], l, owed[i]);
    }
  }

  /** Storing into a result slot disturbs no registered cleanup. */
  lemma OwesAfterStore(s: Spot, m: Config, slot: nat, v: Value)
    requires Ready(s) && Within(s, m) && (ResultSlot(s.cx, slot) || slot in s.w || slot >= s.n)
    ensures Owes(m.scopes, m.locals[slot := v], s.owed)
  {
    OwesKept(s.c.scopes, s.c.locals, m.locals, s.owed, s.n, s.w);
    forall i | 0 <= i < |m.scopes| ensures OwesScope(m.scopes[i], m.locals[slot := v], s.owed[i]) {
      assert OwesScope(m.scopes[i], m.locals, s.owed[i]);
    }
  }

  /** The state a transfer ends with: store the value it carries, unwind, go on elsewhere. */
  lemma ExitStep(h: Host, t: Table, s: Spot, m: Config, result: nat, value: Operand, v: Value, d: nat, pc: nat, comp: Completion, sc: Scope)
    requires Ready(s) && Within(s, m) && d <= s.cx.depth && !comp.Threw?
    requires m.pc < |t| && t[m.pc] == State(sc, [Store(result, value), UnwindCleanupScopes(d)], Goto(pc))
    requires Operate(h, sc, value, m.locals, m.trace) == Done(Normal(v), m.trace)
    requires ResultSlot(s.cx, result)
    ensures Leaves(h, s, d, pc, Done(comp, m.trace), Step(h, t, m))
    ensures Step(h, t, m).Running? ==> Writes(s, Step(h, t, m), iset{result}) && Read(Step(h, t, m).locals, result) == v
  {
    var m1 := m.(locals := m.locals[result := v]);
    OwesAfterStore(s, m, result, v);
    UnwindAct(h, sc, s, m1, d, comp);
    ActTwo(h, sc, Store(result, value), UnwindCleanupScopes(d), m.locals, m.scopes, m.trace);
  }

  /** A state that only unwinds. */
  lemma UnwindStep(h: Host, t: Table, s: Spot, m: Config, d: nat, pc: nat, comp: Completion, sc: Scope)
    requires Ready(s) && Within(s, m) && d <= s.cx.depth && !comp.Threw?
    requires m.pc < |t| && t[m.pc] == State(sc, [UnwindCleanupScopes(d)], Goto(pc))
    ensures Leaves(h, s, d, pc, Done(comp, m.trace), Step(h, t, m))
    ensures Step(h, t, m).Running? ==> Step(h, t, m).locals == m.locals
  {
    OwesKept(s.c.scopes, s.c.locals, m.locals, s.owed, s.n, s.w);
    UnwindAct(h, sc, s, m, d, comp);
    ActOne(h, sc, UnwindCleanupScopes(d), m.locals, m.scopes, m.trace);
  }

  // ----- innermost targets -----

  lemma LoopPushed(loops: seq<Loop>, loop: Loop, target: nat)
    ensures FindLoop(Sigs(loops + [loop]), target) ==
            if loop.sig.target == target then Some(|loops|) else FindLoop(Sigs(loops), target)
  {
    var ts := Targets(Sigs(loops + [loop]));
    assert ts[..|ts| - 1] == Targets(Sigs(loops));
  }

  lemma BlockPushed(blocks: seq<BlockExit>, block: BlockExit, target: nat)
    ensures Innermost(BlockTargets(blocks + [block]), target) ==
            if block.target == target then Some(|blocks|) else Innermost(BlockTargets(blocks), target)
  {
    var ts := BlockTargets(blocks + [block]);
    assert ts[..|ts| - 1] == BlockTargets(blocks);
  }
}
