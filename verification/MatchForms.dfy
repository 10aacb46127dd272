/** The two lowerings of `match`: a labelled block of emitted arms, and the chained states of a planned activation.
    Both pick the first arm whose pattern matches and whose guard holds. */
module MatchForms {
  import opened Values
  import opened Patterns
  import opened Hir
  import opened StateTable
  import opened PatternCompiler

  /** One arm of the labelled block. Every arm declares its decisions anew; `selection` runs the test of a testless
      arm for the sake of its decisions; an arm that breaks leaves the block once it has committed. */
  datatype EmittedArm = EmittedArm(decisions: seq<Decision>, selection: Option<Test>, test: Option<Test>, binds: seq<PatternCompiler.Bind>,
                                   guard: Option<Expr>, body: Expr, breaks: bool)

  ghost predicate ArmsUnions(arms: Arms) {
    arms.Arm? ==> Unions(arms.pat) && Linear(arms.pat) && ArmsUnions(arms.rest)
  }

  ghost predicate ArmsTyped(arms: Arms, v: Value) {
    arms.Arm? ==> Typed(arms.pat, v) && ArmsTyped(arms.rest, v)
  }

  /** An unguarded last arm is the fallback and carries no test. */
  function EmitArm(arm: Arms, c: Compiled): EmittedArm
    requires arm.Arm?
  {
    if arm.rest.NoArms? && arm.guard.None?
    then EmittedArm(c.decisions, if c.decisions == [] then None else c.test, None, c.binds, None, arm.body, false)
    else EmittedArm(c.decisions, None, c.test, c.binds, arm.guard, arm.body, true)
  }

  function EmitArms(arms: Arms, supply: nat): seq<EmittedArm>
    requires ArmsUnions(arms)
    decreases arms
  {
    if arms.NoArms? then [] else
    var c := CompilePat(arms.pat, Scrutinee, supply);
    [EmitArm(arms, c)] + EmitArms(arms.rest, c.supply)
  }

  // ----- what the emitted block does -----

  /** The names of an arm, declared one after the other. */
  function Declare(binds: seq<PatternCompiler.Bind>, v: Value, ds: Decisions, env: Env): Option<Env>
    decreases |binds|
  {
    if |binds| == 0 then Some(env) else
    var read := ReadAt(binds[0].subject, v, ds);
    if read.None? then None else Declare(binds[1..], v, ds, env[binds[0].name := read.value])
  }

  /** The decisions after the selection of a testless arm. */
  function Selected(selection: Option<Test>, v: Value): Option<Decisions> {
    var r := RunOptional(selection, v, map[]);
    if r.None? then None else Some(r.value.1)
  }

  /** Run the block with the result variable at `r`: its final value, or `None` for a read of something that is not
      there. An arm that commits without breaking lets control fall to the arms after it. */
  function RunBlock(h: Host, arms: seq<EmittedArm>, v: Value, env: Env, r: Value, tr: Trace, fuel: nat): Option<Result>
    decreases |arms|
  {
    if |arms| == 0 then Some(Done(Normal(r), tr)) else
    var arm := arms[0];
    var selected := Selected(arm.selection, v);
    if selected.None? then None else
    var passed := RunOptional(arm.test, v, selected.value);
    if passed.None? then None else
    if !passed.value.0 then RunBlock(h, arms[1..], v, env, r, tr, fuel) else
    var inner := Declare(arm.binds, v, passed.value.1, env);
    if inner.None? then None else
    var guard := if arm.guard.None? then Done(Normal(TRUE), tr) else Eval(h, arm.guard.value, inner.value, tr, fuel);
    if !(guard.Done? && guard.completion.Normal?) then Some(guard) else
    if !Truthy(guard.completion.value) then RunBlock(h, arms[1..], v, env, r, guard.trace, fuel) else
    var body := Eval(h, arm.body, inner.value, guard.trace, fuel);
    if arm.breaks || !(body.Done? && body.completion.Normal?) then Some(body)
    else RunBlock(h, arms[1..], v, env, body.completion.value, body.trace, fuel)
  }

  // ----- the labelled block picks the first arm -----

  lemma {:induction false} DeclaresAll(binds: seq<PatternCompiler.Bind>, v: Value, ds: Decisions, env: Env, bound: Bindings)
    requires forall i | 0 <= i < |binds| :: binds[i].name in bound && ReadAt(binds[i].subject, v, ds) == Some(bound[binds[i].name])
    ensures var r := Declare(binds, v, ds, env);
            && r.Some? && r.value.Keys == env.Keys + NameSet(BindNames(binds))
            && (forall x | x in r.value :: r.value[x] == if x in BindNames(binds) then bound[x] else env[x])
    decreases |binds|
  {
    if |binds| > 0 {
      var name := binds[0].name;
      var env1 := env[name := bound[name]];
      DeclaresAll(binds[1..], v, ds, env1, bound);
      assert BindNames(binds) == [name] + BindNames(binds[1..]);
    }
  }

  /** A matched arm declares exactly the bindings of the match. */
  lemma DeclaresMatch(binds: seq<PatternCompiler.Bind>, v: Value, ds: Decisions, own: seq<Decision>, env: Env, bound: Bindings)
    requires BindsAre(binds, v, ds, own, bound)
    ensures Declare(binds, v, ds, env) == Some(env + bound)
  {
    hide ReadAt;
    assert Keeps(ds, ds, own);
    forall i | 0 <= i < |binds| ensures binds[i].name in bound && ReadAt(binds[i].subject, v, ds) == Some(bound[binds[i].name]) {
      assert BindIs(binds[i], v, ds, own, bound);
    }
    DeclaresAll(binds, v, ds, env, bound);
    var r := Declare(binds, v, ds, env).value;
    assert r.Keys == (env + bound).Keys;
    forall x | x in r ensures r[x] == (env + bound)[x] {
      assert x in BindNames(binds) <==> x in NameSet(BindNames(binds));
    }
    assert r == env + bound;
  }

  /** The type checker counts only unguarded arms when it decides that a match covers a value. */
  ghost predicate Covered(arms: Arms, v: Value) {
    arms.Arm? && ((arms.guard.None? && Matches(arms.pat, v).Some?) || Covered(arms.rest, v))
  }

  predicate EndsUnguarded(arms: Arms) {
    arms.Arm? && if arms.rest.NoArms? then arms.guard.None? else EndsUnguarded(arms.rest)
  }

  /** The test of an emitted arm and the bindings after it. */
  lemma ArmTested(arm: Arms, v: Value, supply: nat, env: Env)
    requires arm.Arm? && Unions(arm.pat) && Linear(arm.pat) && Typed(arm.pat, v)
    requires arm.rest.NoArms? && arm.guard.None? ==> Matches(arm.pat, v).Some?
    ensures var e := EmitArm(arm, CompilePat(arm.pat, Scrutinee, supply));
            var selected := Selected(e.selection, v);
            && selected.Some?
            && var passed := RunOptional(e.test, v, selected.value);
               && passed.Some? && passed.value.0 == Matches(arm.pat, v).Some?
               && (Matches(arm.pat, v).Some? ==> Declare(e.binds, v, passed.value.1, env) == Some(env + Matches(arm.pat, v).value))
  {
    hide ReadAt, CompilePat, Matches, RunTest, Declare, Decides;
    var c := CompilePat(arm.pat, Scrutinee, supply);
    assert Reads(Scrutinee, v, v) by { RootReads(v); }
    PatCorrect(arm.pat, Scrutinee, v, v, map[], supply);
    var r := RunOptional(c.test, v, map[]);
    var ds := r.value.1;
    if Matches(arm.pat, v).Some? {
      var bound := Matches(arm.pat, v).value;
      DeclaresMatch(c.binds, v, ds, c.decisions, env, bound);
      if arm.rest.NoArms? && arm.guard.None? && c.decisions == [] {
        assert ds == map[] by { NothingDecided(ds); }
      }
    }
  }

  lemma RootReads(v: Value)
    ensures Reads(Scrutinee, v, v)
  {}

  lemma NothingDecided(ds: Decisions)
    requires Decides(map[], ds, [])
    ensures ds == map[]
  {}

  /** What follows the bindings of an arm. */
  function AfterBindings(h: Host, arm: EmittedArm, rest: seq<EmittedArm>, v: Value, env: Env, inner: Env, r: Value, tr: Trace, fuel: nat): Option<Result> {
    var guard := if arm.guard.None? then Done(Normal(TRUE), tr) else Eval(h, arm.guard.value, inner, tr, fuel);
    if !(guard.Done? && guard.completion.Normal?) then Some(guard) else
    if !Truthy(guard.completion.value) then RunBlock(h, rest, v, env, r, guard.trace, fuel) else
    var body := Eval(h, arm.body, inner, guard.trace, fuel);
    if arm.breaks || !(body.Done? && body.completion.Normal?) then Some(body)
    else RunBlock(h, rest, v, env, body.completion.value, body.trace, fuel)
  }

  lemma BlockStep(h: Host, arms: seq<EmittedArm>, v: Value, env: Env, r: Value, tr: Trace, fuel: nat, matched: Option<Env>)
    requires |arms| > 0
    requires var selected := Selected(arms[0].selection, v);
             && selected.Some?
             && var passed := RunOptional(arms[0].test, v, selected.value);
                && passed.Some? && passed.value.0 == matched.Some?
                && (matched.Some? ==> Declare(arms[0].binds, v, passed.value.1, env) == matched)
    ensures RunBlock(h, arms, v, env, r, tr, fuel) ==
              if matched.None? then RunBlock(h, arms[1..], v, env, r, tr, fuel)
              else AfterBindings(h, arms[0], arms[1..], v, env, matched.value, r, tr, fuel)
  {
    hide RunOptional, Declare, Eval, Selected;
  }

  lemma ArmsMeaning(h: Host, arms: Arms, v: Value, env: Env, tr: Trace, fuel: nat)
    requires arms.Arm?
    ensures EvalArms(h, arms, v, env, tr, fuel) ==
              if Matches(arms.pat, v).None? then EvalArms(h, arms.rest, v, env, tr, fuel) else
              var inner := env + Matches(arms.pat, v).value;
              if arms.guard.None? then Eval(h, arms.body, inner, tr, fuel) else
              var g := Eval(h, arms.guard.value, inner, tr, fuel);
              if !(g.Done? && g.completion.Normal?) then g
              else if Truthy(g.completion.value) then Eval(h, arms.body, inner, g.trace, fuel)
              else EvalArms(h, arms.rest, v, env, g.trace, fuel)
  {
    hide Eval, Matches;
  }

  /** The labelled block, with its testless fallback, gives what the first matching arm gives. The fallback needs the
      match to cover the value; a guarded last arm needs nothing. */
  lemma {:induction false} BlockPicksFirstArm(h: Host, arms: Arms, v: Value, supply: nat, env: Env, tr: Trace, fuel: nat)
    requires ArmsUnions(arms) && ArmsTyped(arms, v) && (EndsUnguarded(arms) ==> Covered(arms, v))
    ensures RunBlock(h, EmitArms(arms, supply), v, env, Undefined, tr, fuel) == Some(EvalArms(h, arms, v, env, tr, fuel))
    decreases arms
  {
    hide ReadAt, CompilePat, Matches, RunOptional, Declare, Eval, Typed, Unions, Linear, Selected, EvalArms, RunBlock;
    if arms.NoArms? {
      NoArmsMeaning(h, v, env, tr, fuel);
    } else {
      var c := CompilePat(arms.pat, Scrutinee, supply);
      var m := Matches(arms.pat, v);
      ArmTested(arms, v, supply, env);
      var emitted := EmitArms(arms, supply);
      assert emitted[0] == EmitArm(arms, c) && emitted[1..] == EmitArms(arms.rest, c.supply);
      BlockStep(h, emitted, v, env, Undefined, tr, fuel, if m.None? then None else Some(env + m.value));
      ArmsMeaning(h, arms, v, env, tr, fuel);
      if m.None? {
        BlockPicksFirstArm(h, arms.rest, v, c.supply, env, tr, fuel);
      } else if arms.guard.Some? {
        var g := Eval(h, arms.guard.value, env + m.value, tr, fuel);
        if g.Done? && g.completion.Normal? && !Truthy(g.completion.value) {
          BlockPicksFirstArm(h, arms.rest, v, c.supply, env, g.trace, fuel);
        }
      } else {
        FallsOffTheEnd(h, arms, c, v, env, env + m.value, tr, fuel);
      }
    }
  }

  lemma NoArmsMeaning(h: Host, v: Value, env: Env, tr: Trace, fuel: nat)
    ensures EmitArms(NoArms, 0) == [] && RunBlock(h, [], v, env, Undefined, tr, fuel) == Some(EvalArms(h, NoArms, v, env, tr, fuel))
  {}

  /** An unguarded arm commits; the last one leaves the block by falling off its end. */
  lemma FallsOffTheEnd(h: Host, arm: Arms, c: Compiled, v: Value, env: Env, inner: Env, tr: Trace, fuel: nat)
    requires arm.Arm? && arm.guard.None? && ArmsUnions(arm.rest)
    ensures AfterBindings(h, EmitArm(arm, c), EmitArms(arm.rest, c.supply), v, env, inner, Undefined, tr, fuel)
            == Some(Eval(h, arm.body, inner, tr, fuel))
  {
    hide Eval, CompilePat, Unions, Linear;
  }

  // ----- the attempt state of a planned match -----

  /** The match an attempt state emits: true when the pattern matches, false otherwise. */
  function AttemptArms(pat: Pat): Arms {
    Arm(pat, None, Const(TRUE), Arm(Wildcard, None, Const(FALSE), NoArms))
  }

  /** In an attempt state the names of the pattern are slots of the frame. */
  function AssignSlots(binds: seq<PatternCompiler.Bind>, v: Value, ds: Decisions, l: Locals, first: nat): Option<Locals>
    decreases |binds|
  {
    if |binds| == 0 then Some(l) else
    var read := ReadAt(binds[0].subject, v, ds);
    if read.None? then None else AssignSlots(binds[1..], v, ds, l[first := read.value], first + 1)
  }

  function RunAttempt(c: Compiled, target: nat, v: Value, l: Locals, first: nat): Option<Locals> {
    var passed := RunOptional(c.test, v, map[]);
    if passed.None? then None else
    if !passed.value.0 then Some(l[target := FALSE]) else
    var stored := AssignSlots(c.binds, v, passed.value.1, l, first);
    if stored.None? then None else Some(stored.value[target := TRUE])
  }

  lemma {:induction false} AssignsAll(binds: seq<PatternCompiler.Bind>, v: Value, ds: Decisions, l: Locals, first: nat, bound: Bindings)
    requires forall i | 0 <= i < |binds| :: binds[i].name in bound && ReadAt(binds[i].subject, v, ds) == Some(bound[binds[i].name])
    ensures AssignSlots(binds, v, ds, l, first) == Some(BindSlots(l, BindNames(binds), first, bound))
    decreases |binds|
  {
    if |binds| > 0 {
      AssignsAll(binds[1..], v, ds, l[first := bound[binds[0].name]], first + 1, bound);
      assert BindNames(binds)[1..] == BindNames(binds[1..]);
    }
  }

  /** What an attempt state emits does what the state table's pattern action is defined to do: the outcome is stored
      and, on a match, every slot of the pattern holds the matcher's value. */
  lemma AttemptStoresTheMatch(h: Host, sc: Scope, target: nat, scrutinee: nat, pat: Pat, first: nat, l: Locals,
                              scopes: seq<seq<Pending>>, tr: Trace, supply: nat)
    requires Unions(pat) && Linear(pat) && Typed(pat, Read(l, scrutinee))
    ensures var r := RunAttempt(CompilePat(pat, Scrutinee, supply), target, Read(l, scrutinee), l, first);
            r.Some? && Act(h, sc, StoreMatch(target, scrutinee, pat, first), l, scopes, tr) == Proceed(r.value, scopes, tr)
  {
    hide ReadAt, CompilePat, Matches, RunTest, Decides;
    var v := Read(l, scrutinee);
    var c := CompilePat(pat, Scrutinee, supply);
    RootReads(v);
    PatCorrect(pat, Scrutinee, v, v, map[], supply);
    if Matches(pat, v).Some? {
      var ds, bound := RunOptional(c.test, v, map[]).value.1, Matches(pat, v).value;
      assert Keeps(ds, ds, c.decisions);
      forall i | 0 <= i < |c.binds| ensures c.binds[i].name in bound && ReadAt(c.binds[i].subject, v, ds) == Some(bound[c.binds[i].name]) {
        assert BindIs(c.binds[i], v, ds, c.decisions, bound);
      }
      AssignsAll(c.binds, v, ds, l, first, bound);
    }
  }

  /** The value of the emitted two-armed match tells whether the pattern matched. */
  lemma AttemptTellsTheMatch(h: Host, pat: Pat, v: Value, supply: nat, env: Env, tr: Trace, fuel: nat)
    requires Unions(pat) && Linear(pat) && Typed(pat, v)
    ensures ArmsUnions(AttemptArms(pat))
    ensures RunBlock(h, EmitArms(AttemptArms(pat), supply), v, env, Undefined, tr, fuel)
            == Some(Done(Normal(if Matches(pat, v).Some? then TRUE else FALSE), tr))
  {
    hide CompilePat, RunBlock, Linear, Unions, Typed;
    var last := Arm(Wildcard, None, Const(FALSE), NoArms);
    WildcardFits(v);
    assert ArmsUnions(last) && ArmsTyped(last, v);
    UnguardedCovers(last, v);
    assert ArmsUnions(AttemptArms(pat)) && ArmsTyped(AttemptArms(pat), v);
    UnguardedCovers(AttemptArms(pat), v);
    BlockPicksFirstArm(h, AttemptArms(pat), v, supply, env, tr, fuel);
    assert EvalArms(h, last, v, env, tr, fuel) == Eval(h, Const(FALSE), env + map[], tr, fuel);
  }

  lemma UnguardedCovers(arms: Arms, v: Value)
    requires arms.Arm? && ((arms.guard.None? && Matches(arms.pat, v).Some?) || Covered(arms.rest, v))
    ensures Covered(arms, v)
  {
  }

  lemma WildcardFits(v: Value)
    ensures Unions(Wildcard) && Linear(Wildcard) && Typed(Wildcard, v) && Matches(Wildcard, v) == Some(map[])
  {}
}
