/** The relation between direct evaluation and a run of the planned table, and the facts that carry it along. */
module Simulation {
  import opened Values
  import opened Patterns
  import opened Hir
  import opened StateTable
  import opened Planning

  /** Every state the plan has filled is in the table. */
  ghost predicate Covers(t: Table, p: Plan) {
    forall i | 0 <= i < |p.entries| && p.entries[i].Filled? :: i < |t| && t[i] == p.entries[i].state
  }

  // ----- cleanups owed by a frame, by value -----

  datatype Owed = Owed(closer: string, value: Value)

  function CloseOwed(h: Host, scope: seq<Owed>, r: Result): Result {
    if |scope| == 0 then r else
    var last := scope[|scope| - 1];
    CloseOwed(h, scope[..|scope| - 1], Close(h, last.closer, last.value, r))
  }

  function UnwindOwed(h: Host, owed: seq<seq<Owed>>, depth: nat, r: Result): Result
    decreases |owed|
  {
    if |owed| <= depth then r
    else UnwindOwed(h, owed[..|owed| - 1], depth, CloseOwed(h, owed[|owed| - 1], r))
  }

  function HaltOwed(h: Host, owed: seq<seq<Owed>>, r: Result): Config {
    match UnwindOwed(h, owed, 0, r)
    case Done(Threw(ds), tr) => Halted(Defected(ds), tr)
    case Done(Returned(v), tr) => Halted(Finished(v), tr)
    case Done(_, tr) => Halted(Defected([]), tr)
    case Timeout => Halted(Defected([]), [])
  }

  /** The registered closures, read through the frame, are the cleanups owed. */
  ghost predicate OwesScope(scope: seq<Pending>, l: Locals, owed: seq<Owed>) {
    |scope| == |owed| &&
    forall j | 0 <= j < |scope| :: scope[j].closer == owed[j].closer && Read(l, scope[j].slot) == owed[j].value
  }

  ghost predicate Owes(scopes: seq<seq<Pending>>, l: Locals, owed: seq<seq<Owed>>) {
    |scopes| == |owed| && forall i | 0 <= i < |scopes| :: OwesScope(scopes[i], l, owed[i])
  }

  lemma {:induction false} CloseScopeIsOwed(h: Host, scope: seq<Pending>, l: Locals, owed: seq<Owed>, r: Result)
    requires OwesScope(scope, l, owed)
    ensures CloseScope(h, scope, l, r) == CloseOwed(h, owed, r)
    decreases |scope|
  {
    if |scope| > 0 {
      var last := |scope| - 1;
      CloseScopeIsOwed(h, scope[..last], l, owed[..last], Close(h, owed[last].closer, owed[last].value, r));
    }
  }

  lemma {:induction false} UnwindIsOwed(h: Host, scopes: seq<seq<Pending>>, depth: nat, l: Locals, owed: seq<seq<Owed>>, r: Result)
    requires Owes(scopes, l, owed)
    ensures Unwind(h, scopes, depth, l, r) == UnwindOwed(h, owed, depth, r)
    decreases |scopes|
  {
    if |scopes| > depth {
      var last := |scopes| - 1;
      CloseScopeIsOwed(h, scopes[last], l, owed[last], r);
      UnwindIsOwed(h, scopes[..last], depth, l, owed[..last], CloseOwed(h, owed[last], r));
    }
  }

  lemma HaltIsOwed(h: Host, scopes: seq<seq<Pending>>, l: Locals, owed: seq<seq<Owed>>, r: Result)
    requires Owes(scopes, l, owed)
    ensures Halt(h, scopes, l, r) == HaltOwed(h, owed, r)
  {
    UnwindIsOwed(h, scopes, 0, l, owed, r);
  }

  /** What unwinding does to a completion: kept, or turned into the failures met on the way. */
  lemma {:induction false} CloseOwedShape(h: Host, scope: seq<Owed>, r: Result)
    requires r.Done?
    ensures var u := CloseOwed(h, scope, r);
            u.Done? && (u.completion == r.completion || u.completion.Threw?) && (r.completion.Threw? ==> u.completion.Threw?)
    decreases |scope|
  {
    if |scope| > 0 {
      CloseOwedShape(h, scope[..|scope| - 1], Close(h, scope[|scope| - 1].closer, scope[|scope| - 1].value, r));
    }
  }

  lemma {:induction false} UnwindOwedShape(h: Host, owed: seq<seq<Owed>>, depth: nat, r: Result)
    requires r.Done?
    ensures var u := UnwindOwed(h, owed, depth, r);
            u.Done? && (u.completion == r.completion || u.completion.Threw?) && (r.completion.Threw? ==> u.completion.Threw?)
    decreases |owed|
  {
    if |owed| > depth {
      CloseOwedShape(h, owed[|owed| - 1], r);
      UnwindOwedShape(h, owed[..|owed| - 1], depth, CloseOwed(h, owed[|owed| - 1], r));
    }
  }

  /** Unwinding to `depth` and then further is unwinding further. */
  lemma {:induction false} UnwindOwedSplits(h: Host, owed: seq<seq<Owed>>, depth: nat, further: nat, r: Result)
    requires further <= depth <= |owed|
    ensures UnwindOwed(h, owed[..depth], further, UnwindOwed(h, owed, depth, r)) == UnwindOwed(h, owed, further, r)
    decreases |owed|
  {
    if |owed| > depth {
      UnwindOwedSplits(h, owed[..|owed| - 1], depth, further, CloseOwed(h, owed[|owed| - 1], r));
      assert owed[..|owed| - 1][..depth] == owed[..depth];
    } else {
      assert owed[..depth] == owed;
    }
  }

  /** Unwinding changes the defects pending, never whether the starting kind of completion mattered. */
  lemma {:induction false} CloseOwedTrace(h: Host, scope: seq<Owed>, c1: Completion, c2: Completion, tr: Trace)
    requires !c1.Threw? && !c2.Threw?
    ensures var u1, u2 := CloseOwed(h, scope, Done(c1, tr)), CloseOwed(h, scope, Done(c2, tr));
            u1.Done? && u2.Done? && u1.trace == u2.trace &&
            ((u1.completion == u2.completion && u1.completion.Threw?) || (u1.completion == c1 && u2.completion == c2))
    decreases |scope|
  {
    if |scope| > 0 {
      var o := scope[|scope| - 1];
      var d1, d2 := Close(h, o.closer, o.value, Done(c1, tr)), Close(h, o.closer, o.value, Done(c2, tr));
      if d1.completion.Threw? {
        assert d1 == d2;
        CloseOwedShape(h, scope[..|scope| - 1], d1);
      } else {
        CloseOwedTrace(h, scope[..|scope| - 1], c1, c2, d1.trace);
      }
    }
  }

  lemma {:induction false} UnwindOwedTrace(h: Host, owed: seq<seq<Owed>>, depth: nat, c1: Completion, c2: Completion, tr: Trace)
    requires !c1.Threw? && !c2.Threw?
    ensures var u1, u2 := UnwindOwed(h, owed, depth, Done(c1, tr)), UnwindOwed(h, owed, depth, Done(c2, tr));
            u1.Done? && u2.Done? && u1.trace == u2.trace &&
            ((u1.completion == u2.completion && u1.completion.Threw?) || (u1.completion == c1 && u2.completion == c2))
    decreases |owed|
  {
    if |owed| > depth {
      var last := |owed| - 1;
      CloseOwedTrace(h, owed[last], c1, c2, tr);
      var d1, d2 := CloseOwed(h, owed[last], Done(c1, tr)), CloseOwed(h, owed[last], Done(c2, tr));
      if d1.completion.Threw? {
        UnwindOwedShape(h, owed[..last], depth, d1);
      } else {
        UnwindOwedTrace(h, owed[..last], depth, c1, c2, d1.trace);
      }
    }
  }

  // ----- the frame between two points of a run -----

  /** Slots below `n` outside `w` read the same. */
  ghost predicate Frame(l: Locals, m: Locals, n: nat, w: iset<nat>) {
    forall s: nat | s < n && s !in w :: Read(m, s) == Read(l, s)
  }

  predicate InSpan(first: nat, count: nat, s: nat) {
    first <= s < first + count
  }

  ghost function Span(first: nat, count: nat): iset<nat> {
    iset s: nat | InSpan(first, count, s)
  }

  lemma OwesKept(scopes: seq<seq<Pending>>, l: Locals, m: Locals, owed: seq<seq<Owed>>, n: nat, w: iset<nat>)
    requires Owes(scopes, l, owed) && Frame(l, m, n, w)
    requires forall i, j | 0 <= i < |scopes| && 0 <= j < |scopes[i]| :: scopes[i][j].slot < n && scopes[i][j].slot !in w
    ensures Owes(scopes, m, owed)
  {
    forall i | 0 <= i < |scopes| ensures OwesScope(scopes[i], m, owed[i]) {
      assert OwesScope(scopes[i], l, owed[i]);
    }
  }

  // ----- a piece of planned code as it is entered -----

  /** A piece of planned code about to run: what is in scope, the values of the names, the first slot it may
      allocate, the earlier slots it may write, where it leaves its value, where it continues and with how many
      scopes open, the frame on entry and the cleanups that frame owes. */
  datatype Spot = Spot(cx: Ctx, env: Env, n: nat, w: iset<nat>, target: nat, next: nat, d: nat, c: Config, owed: seq<seq<Owed>>)

  ghost predicate ResultSlot(cx: Ctx, s: nat) {
    (exists i | 0 <= i < |cx.loops| :: cx.loops[i].result == s) || (exists i | 0 <= i < |cx.blocks| :: cx.blocks[i].result == s)
  }

  ghost predicate LoopReady(cx: Ctx, loop: Loop, env: Env, n: nat) {
    && loop.depth <= cx.depth && loop.continueDepth <= cx.depth
    && loop.result < n && loop.first + |loop.sig.names| <= n
    && Distinct(loop.sig.names)
    && (loop.sig.carriesState || (loop.sig.names == [] && loop.continueDepth == loop.depth && loop.resume == loop.head))
    && (forall j | 0 <= j < |loop.sig.names| ::
          loop.sig.names[j] in env && loop.sig.names[j] in cx.scope && cx.scope[loop.sig.names[j]] == loop.first + j)
  }

  ghost predicate CtxReady(cx: Ctx, env: Env, n: nat) {
    && (forall i | 0 <= i < |cx.loops| :: LoopReady(cx, cx.loops[i], env, n))
    && (forall i | 0 <= i < |cx.blocks| :: cx.blocks[i].depth <= cx.depth && cx.blocks[i].result < n)
  }

  ghost predicate EnvReady(cx: Ctx, env: Env, n: nat, w: iset<nat>, l: Locals) {
    forall x | x in env :: x in cx.scope && cx.scope[x] < n && cx.scope[x] !in w && Read(l, cx.scope[x]) == env[x]
  }

  ghost predicate ScopesReady(cx: Ctx, n: nat, w: iset<nat>, scopes: seq<seq<Pending>>) {
    forall i, j | 0 <= i < |scopes| && 0 <= j < |scopes[i]| ::
      scopes[i][j].slot < n && scopes[i][j].slot !in w && !ResultSlot(cx, scopes[i][j].slot)
  }

  /** Names read their values, the cleanups owed are registered, nothing the code may write is relied on. */
  ghost predicate Ready(s: Spot) {
    && s.c.Running? && |s.c.scopes| == s.cx.depth > 0
    && CtxReady(s.cx, s.env, s.n)
    && EnvReady(s.cx, s.env, s.n, s.w, s.c.locals)
    && ScopesReady(s.cx, s.n, s.w, s.c.scopes)
    && Owes(s.c.scopes, s.c.locals, s.owed)
  }

  function Keep<T>(s: seq<T>, d: nat): seq<T> {
    if d <= |s| then s[..d] else s
  }

  /** The scopes above `d` have been unwound and control is at `pc`, unless a cleanup failed on the way. */
  ghost predicate Leaves(h: Host, s: Spot, d: nat, pc: nat, r: Result, k: Config) {
    var u := UnwindOwed(h, s.owed, d, r);
    if u.Done? && u.completion.Threw? then k == HaltOwed(h, Keep(s.owed, d), u)
    else u.Done? && s.c.Running? && k.Running? && k.pc == pc && k.scopes == Keep(s.c.scopes, d) && k.trace == u.trace
  }

  /** What a transfer may have written before it arrives. */
  ghost predicate Writes(s: Spot, k: Config, extra: iset<nat>) {
    s.c.Running? && k.Running? && Frame(s.c.locals, k.locals, s.n, s.w + extra)
  }

  ghost predicate BreaksTo(h: Host, s: Spot, loop: Loop, v: Value, r: Result, k: Config) {
    && Leaves(h, s, loop.depth, loop.exit, r, k)
    && (k.Running? ==> Writes(s, k, iset{loop.result}) && Read(k.locals, loop.result) == WrapSome(loop.option, v))
  }

  ghost predicate ContinuesTo(h: Host, s: Spot, loop: Loop, updates: Env, r: Result, k: Config) {
    && updates.Keys <= NameSet(loop.sig.names)
    && Leaves(h, s, loop.continueDepth, loop.head, r, k)
    && (k.Running? ==>
          && Writes(s, k, Span(loop.first, |loop.sig.names|))
          && forall j | 0 <= j < |loop.sig.names| :: Read(k.locals, loop.first + j) == Updated(s.env, updates, loop.sig.names[j]))
  }

  ghost predicate ExitsTo(h: Host, s: Spot, block: BlockExit, v: Value, r: Result, k: Config) {
    && Leaves(h, s, block.depth, block.exit, r, k)
    && (k.Running? ==> Writes(s, k, iset{block.result}) && Read(k.locals, block.result) == v)
  }

  /** Where the table is when direct evaluation ends in a transfer out of the piece of code. */
  ghost predicate Transferred(h: Host, s: Spot, r: Result, k: Config) {
    r.Done? &&
    match r.completion
    case Normal(_) => false
    case Broke(target, v) =>
      var found := FindLoop(Sigs(s.cx.loops), target);
      found.Some? && BreaksTo(h, s, s.cx.loops[found.value], v, r, k)
    case Continued(target, updates) =>
      var found := FindLoop(Sigs(s.cx.loops), target);
      found.Some? && ContinuesTo(h, s, s.cx.loops[found.value], updates, r, k)
    case LeftBlock(target, v) =>
      var found := Innermost(BlockTargets(s.cx.blocks), target);
      found.Some? && ExitsTo(h, s, s.cx.blocks[found.value], v, r, k)
    case Returned(_) => k == HaltOwed(h, s.owed, r)
    case Threw(_) => k == HaltOwed(h, s.owed, r)
  }

  function Updated(env: Env, updates: Env, name: string): Value {
    if name in updates then updates[name] else if name in env then env[name] else Undefined
  }

  ghost predicate NormallyLeft(h: Host, s: Spot, r: Result, v: Value, k: Config) {
    && Leaves(h, s, s.d, s.next, r, k)
    && (k.Running? ==> Writes(s, k, iset{}) && Read(k.locals, s.target) == v)
  }

  /** After `steps` steps: the same trace, the same value, the same transfer as direct evaluation; when that runs
      out of fuel, at least as many steps without halting. */
  ghost predicate Simulates(h: Host, s: Spot, r: Result, fuel: nat, steps: nat, k: Config) {
    if r.Timeout? then k.Running? && steps >= fuel
    else if r.completion.Normal? then NormallyLeft(h, s, r, r.completion.value, k)
    else Transferred(h, s, r, k)
  }

  /** Operands planned into the slots from `first` all hold their values. */
  ghost predicate HoldsAll(s: Spot, first: nat, vs: seq<Value>, tr: Trace, k: Config) {
    && s.c.Running? && k.Running? && k.pc == s.next && k.scopes == s.c.scopes && k.trace == tr
    && Frame(s.c.locals, k.locals, s.n, s.w)
    && forall i | 0 <= i < |vs| :: Read(k.locals, first + i) == vs[i]
  }

  ghost predicate SimulatesAll(h: Host, s: Spot, r: Listed, fuel: nat, steps: nat, k: Config) {
    match r
    case Values(vs, tr) => HoldsAll(s, s.target, vs, tr, k)
    case Stopped(Timeout) => k.Running? && steps >= fuel
    case Stopped(Done(_, _)) => Transferred(h, s, r.result, k)
  }
}
