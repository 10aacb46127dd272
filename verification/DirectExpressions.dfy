/** Expressions stored by a single state: no calls, no transfers, no loops, no cleanups. Their meaning depends only
    on the names they use, and evaluating one leaves the trace alone. */
module DirectExpressions {
  import opened Values
  import opened Patterns
  import opened Hir

  /** `big` agrees with `env` wherever `env` is defined. */
  ghost predicate Agrees(env: Env, big: Env) {
    forall x | x in env :: x in big && big[x] == env[x]
  }

  ghost predicate Quiet(r: Result, tr: Trace) {
    r.Done? && r.trace == tr && (r.completion.Normal? || r.completion.Threw?)
  }

  lemma {:induction false} ExprIsDirect(h: Host, e: Expr, env: Env, big: Env, tr: Trace, fuel: nat, loops: seq<LoopSig>, blocks: seq<nat>)
    requires !NeedsSplit(e) && WellFormed(e, env.Keys, loops, blocks) && Agrees(env, big)
    ensures Eval(h, e, big, tr, 0) == Eval(h, e, env, tr, fuel) && Quiet(Eval(h, e, env, tr, fuel), tr)
    decreases e, 1
  {
    hide EvalAll, EvalInits, EvalReplacements, EvalStmts, EvalArms, EvalLoop, EvalFor;
    hide ExprsWellFormed, InitsWellFormed, ReplacementsWellFormed, StmtsWellFormed, ArmsWellFormed, StmtsNeedSplit, ArmsNeedSplit;
    match e
    case Const(_) | Local(_) =>
    case Binary(op, lhs, rhs) =>
      ExprIsDirect(h, lhs, env, big, tr, fuel, loops, blocks);
      ExprIsDirect(h, rhs, env, big, tr, fuel, loops, blocks);
    case Logical(both, lhs, rhs) =>
      ExprIsDirect(h, lhs, env, big, tr, fuel, loops, blocks);
      ExprIsDirect(h, rhs, env, big, tr, fuel, loops, blocks);
    case Block(stmts) => StmtsAreDirect(h, stmts, env, big, tr, fuel, loops, blocks);
    case LabeledBlock(target, body) => ExprIsDirect(h, body, env, big, tr, fuel, loops, blocks + [target]);
    case If(_, _, _) => BranchIsDirect(h, e, env, big, tr, fuel, loops, blocks);
    case MatchOn(_, _) => BranchIsDirect(h, e, env, big, tr, fuel, loops, blocks);
  }

  lemma {:induction false} BranchIsDirect(h: Host, e: Expr, env: Env, big: Env, tr: Trace, fuel: nat, loops: seq<LoopSig>, blocks: seq<nat>)
    requires e.If? || e.MatchOn?
    requires !NeedsSplit(e) && WellFormed(e, env.Keys, loops, blocks) && Agrees(env, big)
    ensures Eval(h, e, big, tr, 0) == Eval(h, e, env, tr, fuel) && Quiet(Eval(h, e, env, tr, fuel), tr)
    decreases e, 0
  {
    hide EvalAll, EvalInits, EvalReplacements, EvalStmts, EvalArms, EvalLoop, EvalFor;
    hide ExprsWellFormed, InitsWellFormed, ReplacementsWellFormed, StmtsWellFormed, ArmsWellFormed, StmtsNeedSplit, ArmsNeedSplit;
    match e
    case If(cond, thn, els) =>
      ExprIsDirect(h, cond, env, big, tr, fuel, loops, blocks);
      ExprIsDirect(h, thn, env, big, tr, fuel, loops, blocks);
      if els.Some? { ExprIsDirect(h, els.value, env, big, tr, fuel, loops, blocks); }
    case MatchOn(scrutinee, arms) =>
      ExprIsDirect(h, scrutinee, env, big, tr, fuel, loops, blocks);
      var s := Eval(h, scrutinee, env, tr, fuel);
      if s.completion.Normal? { ArmsAreDirect(h, arms, s.completion.value, env, big, tr, fuel, loops, blocks); }
  }

  lemma {:induction false} StmtsAreDirect(h: Host, ss: Stmts, env: Env, big: Env, tr: Trace, fuel: nat, loops: seq<LoopSig>, blocks: seq<nat>)
    requires !StmtsNeedSplit(ss) && StmtsWellFormed(ss, env.Keys, loops, blocks) && Agrees(env, big)
    ensures EvalStmts(h, ss, big, tr, 0) == EvalStmts(h, ss, env, tr, fuel) && Quiet(EvalStmts(h, ss, env, tr, fuel), tr)
    decreases ss
  {
    match ss
    case Tail(tail) => if tail.Some? { ExprIsDirect(h, tail.value, env, big, tr, fuel, loops, blocks); }
    case Let(name, value, _, rest) =>
      ExprIsDirect(h, value, env, big, tr, fuel, loops, blocks);
      var v := Eval(h, value, env, tr, fuel);
      if v.completion.Normal? {
        var env1, big1 := env[name := v.completion.value], big[name := v.completion.value];
        assert env1.Keys == env.Keys + {name};
        StmtsAreDirect(h, rest, env1, big1, tr, fuel, loops, blocks);
      }
    case Do(value, rest) =>
      ExprIsDirect(h, value, env, big, tr, fuel, loops, blocks);
      StmtsAreDirect(h, rest, env, big, tr, fuel, loops, blocks);
  }

  lemma MeaningOfArms(h: Host, arms: Arms, v: Value, env: Env, tr: Trace, fuel: nat)
    requires arms.Arm?
    ensures var matched := Matches(arms.pat, v);
            EvalArms(h, arms, v, env, tr, fuel) ==
              if matched.None? then EvalArms(h, arms.rest, v, env, tr, fuel)
              else if arms.guard.None? then Eval(h, arms.body, env + matched.value, tr, fuel)
              else
                var g := Eval(h, arms.guard.value, env + matched.value, tr, fuel);
                if !(g.Done? && g.completion.Normal?) then g
                else if Truthy(g.completion.value) then Eval(h, arms.body, env + matched.value, g.trace, fuel)
                else EvalArms(h, arms.rest, v, env, g.trace, fuel)
  {}

  lemma DirectParts(arms: Arms, v: Value, env: Env, big: Env, loops: seq<LoopSig>, blocks: seq<nat>)
    requires arms.Arm? && !ArmsNeedSplit(arms) && ArmsWellFormed(arms, env.Keys, loops, blocks) && Agrees(env, big)
    ensures !ArmsNeedSplit(arms.rest) && ArmsWellFormed(arms.rest, env.Keys, loops, blocks)
    ensures var m := Matches(arms.pat, v);
            m.Some? ==>
              var env1, big1 := env + m.value, big + m.value;
              && Agrees(env1, big1)
              && !NeedsSplit(arms.body) && WellFormed(arms.body, env1.Keys, loops, blocks)
              && (arms.guard.Some? ==> !NeedsSplit(arms.guard.value) && WellFormed(arms.guard.value, env1.Keys, loops, blocks))
  {
    hide Matches, NeedsSplit, WellFormed, Unions, Distinct;
    var m := Matches(arms.pat, v);
    if m.Some? {
      MatchBindsNames(arms.pat, v);
      assert (env + m.value).Keys == env.Keys + NameSet(Names(arms.pat));
    }
  }

  lemma {:induction false} ArmsAreDirect(h: Host, arms: Arms, v: Value, env: Env, big: Env, tr: Trace, fuel: nat, loops: seq<LoopSig>, blocks: seq<nat>)
    requires !ArmsNeedSplit(arms) && ArmsWellFormed(arms, env.Keys, loops, blocks) && Agrees(env, big)
    ensures EvalArms(h, arms, v, big, tr, 0) == EvalArms(h, arms, v, env, tr, fuel)
    ensures Quiet(EvalArms(h, arms, v, env, tr, fuel), tr)
    decreases arms
  {
    if arms.Arm? {
      hide Eval, EvalArms, Matches, NeedsSplit, ArmsNeedSplit, WellFormed, ArmsWellFormed, Agrees;
      DirectParts(arms, v, env, big, loops, blocks);
      MeaningOfArms(h, arms, v, env, tr, fuel);
      MeaningOfArms(h, arms, v, big, tr, 0);
      ArmsAreDirect(h, arms.rest, v, env, big, tr, fuel, loops, blocks);
      var matched := Matches(arms.pat, v);
      if matched.Some? {
        var env1, big1 := env + matched.value, big + matched.value;
        if arms.guard.Some? { ExprIsDirect(h, arms.guard.value, env1, big1, tr, fuel, loops, blocks); }
        ExprIsDirect(h, arms.body, env1, big1, tr, fuel, loops, blocks);
      }
    }
  }
}
