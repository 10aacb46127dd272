/** What an evaluation that fails reports, read off the trace of its calls and cleanups alone; and what the values that
    drive branches, operators and cleanups mean. */
module EvaluationReports {
  import opened Values
  import opened Patterns
  import opened Hir
  import opened Planning
  import opened PlannerCorrectness
  import StateTable

  /** The defects that calls and cleanups raised, in the order they did. */
  function RaisedIn(tr: Trace): seq<Value>
    decreases |tr|
  {
    if |tr| == 0 then [] else
    RaisedIn(tr[..|tr| - 1]) + match tr[|tr| - 1].answer case Answered(_) => [] case Raised(d) => [d]
  }

  /** Once something was raised only cleanups run. */
  ghost predicate OnlyClosesFollow(tr: Trace) {
    forall i, j | 0 <= i < j < |tr| && tr[i].answer.Raised? :: tr[j].request.CloseOf?
  }

  /** The trace goes on and nothing new was raised. */
  ghost predicate Calm(tr: Trace, tr1: Trace) {
    |tr| <= |tr1| && tr1[..|tr|] == tr && RaisedIn(tr1[|tr|..]) == [] && OnlyClosesFollow(tr1[|tr|..])
  }

  /** A result throws exactly when something was raised since `tr`, and then with all that was, in order; in front of that
      stands the defect of an operator if one started it, for operators leave no event. */
  ghost predicate Reported(tr: Trace, r: Result) {
    r.Done? ==>
      && |tr| <= |r.trace| && r.trace[..|tr|] == tr && OnlyClosesFollow(r.trace[|tr|..])
      && var raised := RaisedIn(r.trace[|tr|..]);
         if r.completion.Threw?
         then r.completion.defects != [] && (r.completion.defects == raised || r.completion.defects[1..] == raised)
         else raised == []
  }

  ghost predicate ListReported(tr: Trace, r: Listed) {
    match r case Values(_, tr1) => Calm(tr, tr1) case Stopped(stopped) => Reported(tr, stopped)
  }

  // ----- traces -----

  lemma {:induction false} RaisedJoin(a: Trace, b: Trace)
    ensures RaisedIn(a + b) == RaisedIn(a) + RaisedIn(b)
    decreases |b|
  {
    if |b| == 0 {
      assert a + b == a;
    } else {
      RaisedJoin(a, b[..|b| - 1]);
      assert (a + b)[..|a + b| - 1] == a + b[..|b| - 1];
    }
  }

  lemma Unmoved(tr: Trace)
    ensures Calm(tr, tr)
  {
    assert tr[|tr|..] == [];
  }

  lemma CalmIsReported(tr: Trace, tr1: Trace, c: Completion)
    requires Calm(tr, tr1) && !c.Threw?
    ensures Reported(tr, Done(c, tr1))
  {}

  lemma ReportedIsCalm(tr: Trace, r: Result)
    requires Reported(tr, r) && r.Done? && !r.completion.Threw?
    ensures Calm(tr, r.trace)
  {}

  lemma Cut(tr: Trace, tr1: Trace, tr2: Trace)
    requires |tr| <= |tr1| <= |tr2| && tr1[..|tr|] == tr && tr2[..|tr1|] == tr1
    ensures tr2[..|tr|] == tr && tr2[|tr|..] == tr1[|tr|..] + tr2[|tr1|..]
  {
    assert tr2[..|tr|] == tr2[..|tr1|][..|tr|];
    assert tr2 == tr1 + tr2[|tr1|..] && tr1 == tr + tr1[|tr|..];
  }

  lemma ClosesAfterCalm(a: Trace, b: Trace)
    requires RaisedIn(a) == [] && OnlyClosesFollow(b)
    ensures OnlyClosesFollow(a + b)
  {
    hide RaisedIn;
    forall i | 0 <= i < |a| ensures a[i].answer.Answered? { AllAnswered(a, i); }
    forall i, j | 0 <= i < j < |a + b| && (a + b)[i].answer.Raised? ensures (a + b)[j].request.CloseOf? {
      assert (a + b)[i] == b[i - |a|] && (a + b)[j] == b[j - |a|];
    }
  }

  lemma {:induction false} AllAnswered(tr: Trace, i: nat)
    requires RaisedIn(tr) == [] && i < |tr|
    ensures tr[i].answer.Answered?
    decreases |tr|
  {
    if i < |tr| - 1 { AllAnswered(tr[..|tr| - 1], i); }
  }

  lemma JoinedTraces(tr: Trace, tr1: Trace, tr2: Trace)
    requires |tr| <= |tr1| <= |tr2| && tr1[..|tr|] == tr && tr2[..|tr1|] == tr1
    requires RaisedIn(tr1[|tr|..]) == [] && OnlyClosesFollow(tr2[|tr1|..])
    ensures tr2[..|tr|] == tr && RaisedIn(tr2[|tr|..]) == RaisedIn(tr2[|tr1|..]) && OnlyClosesFollow(tr2[|tr|..])
  {
    hide RaisedIn, OnlyClosesFollow;
    Cut(tr, tr1, tr2);
    RaisedJoin(tr1[|tr|..], tr2[|tr1|..]);
    ClosesAfterCalm(tr1[|tr|..], tr2[|tr1|..]);
  }

  /** What is reported after a calm beginning is reported of the whole. */
  lemma Afterwards(tr: Trace, tr1: Trace, r: Result)
    requires Calm(tr, tr1) && Reported(tr1, r)
    ensures Reported(tr, r)
  {
    hide RaisedIn, OnlyClosesFollow;
    if r.Done? { JoinedTraces(tr, tr1, r.trace); }
  }

  lemma CalmAfterwards(tr: Trace, tr1: Trace, tr2: Trace)
    requires Calm(tr, tr1) && Calm(tr1, tr2)
    ensures Calm(tr, tr2)
  {
    hide RaisedIn, OnlyClosesFollow;
    JoinedTraces(tr, tr1, tr2);
  }

  lemma OneEvent(tr: Trace, e: Event)
    ensures (tr + [e])[..|tr|] == tr && OnlyClosesFollow((tr + [e])[|tr|..])
    ensures RaisedIn((tr + [e])[|tr|..]) == match e.answer case Answered(_) => [] case Raised(d) => [d]
  {
    assert (tr + [e])[|tr|..] == [e] && [e][..0] == [];
  }

  /** A cleanup that fails joins the defects at the end; one that answers changes nothing. */
  lemma ClosedReported(h: Host, tr: Trace, closer: string, value: Value, r: Result)
    requires Reported(tr, r)
    ensures Reported(tr, Close(h, closer, value, r))
  {
    if r.Done? {
      var e := Event(CloseOf(closer, value), h.answer(r.trace, CloseOf(closer, value)));
      var new1 := r.trace[|tr|..];
      assert (r.trace + [e])[|tr|..] == new1 + [e] && (r.trace + [e])[..|tr|] == r.trace[..|tr|];
      assert (new1 + [e])[..|new1|] == new1;
      assert OnlyClosesFollow(new1 + [e]);
      assert RaisedIn(new1 + [e]) == RaisedIn(new1) + match e.answer case Answered(_) => [] case Raised(d) => [d];
      if e.answer.Raised? && r.completion.Threw? && r.completion.defects != RaisedIn(new1) {
        assert (r.completion.defects + [e.answer.defect])[1..] == r.completion.defects[1..] + [e.answer.defect];
      }
    }
  }

  // ----- every evaluation -----

  /** Whatever an expression does: it throws exactly when something was raised on the way, and no failure of a call, an
      operator or a cleanup is missing from what it throws. */
  lemma {:induction false} FailuresAreReported(h: Host, e: Expr, env: Env, tr: Trace, fuel: nat)
    ensures Reported(tr, Eval(h, e, env, tr, fuel))
    decreases fuel, e, 1
  {
    hide Reported, Calm, RaisedIn, OnlyClosesFollow, Close;
    Unmoved(tr);
    match e
    case Const(v) => CalmIsReported(tr, tr, Normal(v));
    case Local(name) => CalmIsReported(tr, tr, Normal(if name in env then env[name] else Undefined));
    case Binary(_, _, _) => OperatorReported(h, e, env, tr, fuel);
    case Logical(_, lhs, rhs) =>
      FailuresAreReported(h, lhs, env, tr, fuel);
      Next(h, rhs, env, tr, Eval(h, lhs, env, tr, fuel), fuel);
    case Call(values) => CallReported(h, values, env, tr, fuel);
    case Block(stmts) => StmtsReported(h, stmts, env, tr, fuel);
    case LabeledBlock(_, body) =>
      FailuresAreReported(h, body, env, tr, fuel);
      Renamed(tr, Eval(h, body, env, tr, fuel));
    case If(cond, thn, els) =>
      FailuresAreReported(h, cond, env, tr, fuel);
      var c := Eval(h, cond, env, tr, fuel);
      Renamed(tr, c);
      Next(h, thn, env, tr, c, fuel);
      if els.Some? { Next(h, els.value, env, tr, c, fuel); }
    case MatchOn(scrutinee, arms) =>
      FailuresAreReported(h, scrutinee, env, tr, fuel);
      var s := Eval(h, scrutinee, env, tr, fuel);
      if s.Done? && s.completion.Normal? {
        ReportedIsCalm(tr, s);
        ArmsReported(h, arms, s.completion.value, env, s.trace, fuel);
        Afterwards(tr, s.trace, EvalArms(h, arms, s.completion.value, env, s.trace, fuel));
      }
    case StateLoop(_, _, _) => StateLoopReported(h, e, env, tr, fuel);
    case For(_, _, _, _, source, _, _, _, _, _) =>
      FailuresAreReported(h, source, env, tr, fuel);
      var it := Eval(h, source, env, tr, fuel);
      if it.Done? && it.completion.Normal? {
        ReportedIsCalm(tr, it);
        ForReported(h, e, env, it.completion.value, it.trace, fuel);
        Afterwards(tr, it.trace, EvalFor(h, e, env, it.completion.value, it.trace, fuel));
      }
    case Break(_, value) =>
      FailuresAreReported(h, value, env, tr, fuel);
      Renamed(tr, Eval(h, value, env, tr, fuel));
    case Continue(target) => CalmIsReported(tr, tr, Continued(target, map[]));
    case ContinueTransition(target, replacements) =>
      ReplacementsReported(h, replacements, env, map[], tr, fuel);
      var r := EvalReplacements(h, replacements, env, map[], tr, fuel);
      if r.Replaced? { CalmIsReported(tr, r.trace, Continued(target, r.updates)); }
  }

  /** A completion that is no defect may be given another name. */
  lemma Renamed(tr: Trace, r: Result)
    requires Reported(tr, r)
    ensures r.Done? && !r.completion.Threw? ==> forall c: Completion | !c.Threw? :: Reported(tr, Done(c, r.trace))
  {}

  lemma {:induction false} Next(h: Host, e: Expr, env: Env, tr: Trace, r: Result, fuel: nat)
    requires Reported(tr, r)
    ensures r.Done? && r.completion.Normal? ==> Reported(tr, Eval(h, e, env, r.trace, fuel))
    decreases fuel, e, 2
  {
    hide Reported, Calm;
    if r.Done? && r.completion.Normal? {
      ReportedIsCalm(tr, r);
      FailuresAreReported(h, e, env, r.trace, fuel);
      Afterwards(tr, r.trace, Eval(h, e, env, r.trace, fuel));
    }
  }

  lemma {:induction false} OperatorReported(h: Host, e: Expr, env: Env, tr: Trace, fuel: nat)
    requires e.Binary?
    ensures Reported(tr, Eval(h, e, env, tr, fuel))
    decreases fuel, e, 0
  {
    hide RaisedIn, OnlyClosesFollow;
    FailuresAreReported(h, e.lhs, env, tr, fuel);
    var l := Eval(h, e.lhs, env, tr, fuel);
    if l.Done? && l.completion.Normal? { Next(h, e.rhs, env, tr, l, fuel); }
  }

  lemma AnswerReported(h: Host, vs: seq<Value>, tr: Trace)
    ensures var answer := h.answer(tr, CallOf(vs));
            Reported(tr, Done(if answer.Answered? then Normal(answer.value) else Threw([answer.defect]), tr + [Event(CallOf(vs), answer)]))
  {
    hide RaisedIn, OnlyClosesFollow;
    OneEvent(tr, Event(CallOf(vs), h.answer(tr, CallOf(vs))));
  }

  lemma {:induction false} CallReported(h: Host, values: Exprs, env: Env, tr: Trace, fuel: nat)
    ensures Reported(tr, Eval(h, Call(values), env, tr, fuel))
    decreases fuel, values, 2
  {
    hide RaisedIn, OnlyClosesFollow, EvalAll, Reported, Calm;
    ListIsReported(h, values, env, tr, fuel);
    var r := EvalAll(h, values, env, tr, fuel);
    if r.Values? {
      AnswerReported(h, r.values, r.trace);
      Afterwards(tr, r.trace, Eval(h, Call(values), env, tr, fuel));
    }
  }

  lemma {:induction false} ListIsReported(h: Host, es: Exprs, env: Env, tr: Trace, fuel: nat)
    ensures ListReported(tr, EvalAll(h, es, env, tr, fuel))
    decreases fuel, es, 1
  {
    hide Reported, Calm, Eval;
    Unmoved(tr);
    if es.Arg? {
      FailuresAreReported(h, es.head, env, tr, fuel);
      var v := Eval(h, es.head, env, tr, fuel);
      if v.Done? && v.completion.Normal? {
        ReportedIsCalm(tr, v);
        ListIsReported(h, es.tail, env, v.trace, fuel);
        ListAfterwards(tr, v.trace, EvalAll(h, es.tail, env, v.trace, fuel));
      }
    }
  }

  lemma ListAfterwards(tr: Trace, tr1: Trace, r: Listed)
    requires Calm(tr, tr1) && ListReported(tr1, r)
    ensures ListReported(tr, r)
  {
    hide Reported, Calm;
    match r case Values(_, tr2) => CalmAfterwards(tr, tr1, tr2); case Stopped(s) => Afterwards(tr, tr1, s);
  }

  lemma {:induction false} InitsReported(h: Host, bs: BindList, env: Env, tr: Trace, fuel: nat)
    ensures ListReported(tr, EvalInits(h, bs, env, tr, fuel))
    decreases fuel, bs, 1
  {
    hide Reported, Calm, Eval;
    Unmoved(tr);
    if bs.Bind? {
      FailuresAreReported(h, bs.value, env, tr, fuel);
      var v := Eval(h, bs.value, env, tr, fuel);
      if v.Done? && v.completion.Normal? {
        var env1 := env[bs.name := v.completion.value];
        ReportedIsCalm(tr, v);
        InitsReported(h, bs.rest, env1, v.trace, fuel);
        ListAfterwards(tr, v.trace, EvalInits(h, bs.rest, env1, v.trace, fuel));
      }
    }
  }

  lemma {:induction false} ReplacementsReported(h: Host, bs: BindList, env: Env, updates: Env, tr: Trace, fuel: nat)
    ensures match EvalReplacements(h, bs, env, updates, tr, fuel) case Replaced(_, tr1) => Calm(tr, tr1) case Interrupted(r) => Reported(tr, r)
    decreases fuel, bs, 1
  {
    hide Reported, Calm, Eval;
    Unmoved(tr);
    if bs.Bind? {
      FailuresAreReported(h, bs.value, env, tr, fuel);
      var v := Eval(h, bs.value, env, tr, fuel);
      if v.Done? && v.completion.Normal? {
        ReportedIsCalm(tr, v);
        ReplacementsReported(h, bs.rest, env, updates[bs.name := v.completion.value], v.trace, fuel);
        match EvalReplacements(h, bs.rest, env, updates[bs.name := v.completion.value], v.trace, fuel)
        case Replaced(_, tr1) => CalmAfterwards(tr, v.trace, tr1);
        case Interrupted(r) => Afterwards(tr, v.trace, r);
      }
    }
  }

  lemma {:induction false} StmtsReported(h: Host, ss: Stmts, env: Env, tr: Trace, fuel: nat)
    ensures Reported(tr, EvalStmts(h, ss, env, tr, fuel))
    decreases fuel, ss, 1
  {
    hide Reported, Calm, Eval, Close;
    Unmoved(tr);
    CalmIsReported(tr, tr, Normal(Undefined));
    match ss
    case Tail(tail) => if tail.Some? { FailuresAreReported(h, tail.value, env, tr, fuel); }
    case Let(name, value, closer, rest) =>
      FailuresAreReported(h, value, env, tr, fuel);
      var v := Eval(h, value, env, tr, fuel);
      if v.Done? && v.completion.Normal? {
        var r := EvalStmts(h, rest, env[name := v.completion.value], v.trace, fuel);
        ReportedIsCalm(tr, v);
        StmtsReported(h, rest, env[name := v.completion.value], v.trace, fuel);
        Afterwards(tr, v.trace, r);
        if closer.Some? { ClosedReported(h, tr, closer.value, v.completion.value, r); }
      }
    case Do(value, rest) =>
      FailuresAreReported(h, value, env, tr, fuel);
      var v := Eval(h, value, env, tr, fuel);
      if v.Done? && v.completion.Normal? {
        ReportedIsCalm(tr, v);
        StmtsReported(h, rest, env, v.trace, fuel);
        Afterwards(tr, v.trace, EvalStmts(h, rest, env, v.trace, fuel));
      }
    case Return(result, _, _) =>
      Renamed(tr, Done(Normal(Undefined), tr));
      if result.Some? {
        FailuresAreReported(h, result.value, env, tr, fuel);
        Renamed(tr, Eval(h, result.value, env, tr, fuel));
      }
  }

  lemma {:induction false} ArmsReported(h: Host, arms: Arms, v: Value, env: Env, tr: Trace, fuel: nat)
    ensures Reported(tr, EvalArms(h, arms, v, env, tr, fuel))
    decreases fuel, arms, 1
  {
    hide Reported, Calm, Eval, Matches;
    Unmoved(tr);
    CalmIsReported(tr, tr, Normal(Undefined));
    if arms.Arm? {
      ArmsReported(h, arms.rest, v, env, tr, fuel);
      var matched := Matches(arms.pat, v);
      if matched.Some? {
        var inner := env + matched.value;
        FailuresAreReported(h, arms.body, inner, tr, fuel);
        if arms.guard.Some? {
          FailuresAreReported(h, arms.guard.value, inner, tr, fuel);
          var g := Eval(h, arms.guard.value, inner, tr, fuel);
          if g.Done? && g.completion.Normal? {
            Next(h, arms.body, inner, tr, g, fuel);
            ReportedIsCalm(tr, g);
            ArmsReported(h, arms.rest, v, env, g.trace, fuel);
            Afterwards(tr, g.trace, EvalArms(h, arms.rest, v, env, g.trace, fuel));
          }
        }
      }
    }
  }

  lemma {:induction false} StateLoopReported(h: Host, e: Expr, env: Env, tr: Trace, fuel: nat)
    requires e.StateLoop?
    ensures Reported(tr, Eval(h, e, env, tr, fuel))
    decreases fuel, e, 0
  {
    hide Reported, Calm, EvalLoop, EvalInits;
    InitsReported(h, e.bindings, env, tr, fuel);
    var r := EvalInits(h, e.bindings, env, tr, fuel);
    if r.Values? {
      var inner := WithValues(env, BoundNames(e.bindings), r.values);
      LoopReported(h, e.target, e.body, inner, r.trace, fuel);
      Afterwards(tr, r.trace, EvalLoop(h, e.target, e.body, inner, r.trace, fuel));
    }
  }

  lemma {:induction false} LoopReported(h: Host, target: nat, body: Expr, env: Env, tr: Trace, fuel: nat)
    ensures Reported(tr, EvalLoop(h, target, body, env, tr, fuel))
    decreases fuel, body, 3
  {
    if fuel == 0 { return; }
    hide Reported, Calm, Eval;
    FailuresAreReported(h, body, env, tr, fuel - 1);
    var r := Eval(h, body, env, tr, fuel - 1);
    Renamed(tr, r);
    if r.Done? && (r.completion.Normal? || (r.completion.Continued? && r.completion.loop == target)) {
      var env1 := if r.completion.Normal? then env else env + r.completion.updates;
      ReportedIsCalm(tr, r);
      LoopReported(h, target, body, env1, r.trace, fuel - 1);
      Afterwards(tr, r.trace, EvalLoop(h, target, body, env1, r.trace, fuel - 1));
    }
  }

  lemma {:induction false} ForReported(h: Host, e: Expr, env: Env, it: Value, tr: Trace, fuel: nat)
    requires e.For?
    ensures Reported(tr, EvalFor(h, e, env, it, tr, fuel))
    decreases fuel, e, 0
  {
    if fuel == 0 { return; }
    hide Reported, Calm, Eval, EvalArms, Matches, StepPattern, ForEnv, BoundTo;
    var s := Eval(h, e.step, env[e.iteratorName := it], tr, fuel - 1);
    FailuresAreReported(h, e.step, env[e.iteratorName := it], tr, fuel - 1);
    if !(s.Done? && s.completion.Normal?) { return; }
    Renamed(tr, s);
    ReportedIsCalm(tr, s);
    var matched := Matches(StepPattern(e.iteration, e.itemName, e.successorName), s.completion.value);
    if matched.None? { return; }
    var bound := matched.value;
    var arm := Arm(e.pat, None, e.body, NoArms);
    ArmsReported(h, arm, BoundTo(bound, e.itemName), ForEnv(e, env, bound), s.trace, fuel - 1);
    var r := EvalArms(h, arm, BoundTo(bound, e.itemName), ForEnv(e, env, bound), s.trace, fuel - 1);
    Afterwards(tr, s.trace, r);
    Renamed(tr, r);
    if r.Done? && (r.completion.Normal? || (r.completion.Continued? && r.completion.loop == e.target)) {
      ReportedIsCalm(tr, r);
      ForReported(h, e, env, BoundTo(bound, e.successorName), r.trace, fuel - 1);
      Afterwards(tr, r.trace, EvalFor(h, e, env, BoundTo(bound, e.successorName), r.trace, fuel - 1));
    }
  }

  /** So does a planned table: it finishes only when nothing was raised, and is defected with all that was. */
  lemma PlannedTableReports(h: Host, parameters: seq<string>, args: seq<Value>, body: Expr, o: StateTable.Outcome, tr: Trace)
    requires Plannable(parameters, body) && |parameters| == |args|
    requires HaltsWith(h, TableOf(PlanCallable(parameters, body)), Launch(args), o, tr)
    ensures OnlyClosesFollow(tr)
    ensures match o
            case Finished(_) => RaisedIn(tr) == []
            case Defected(defects) => defects != [] && (defects == RaisedIn(tr) || defects[1..] == RaisedIn(tr))
  {
    hide Eval, Plannable, HaltsWith, RaisedIn, OnlyClosesFollow, TableOf, PlanCallable, WithValues;
    PlannedTableRunsTheBody(h, parameters, args, body, o, tr);
    var fuel :| Meaning(h, parameters, args, body, fuel) == Some((o, tr));
    FailuresAreReported(h, body, WithValues(map[], parameters, args), [], fuel);
    assert tr[0..] == tr;
  }

  // ----- what drives branches, operators and cleanups -----

  /** A condition that is the boolean `true` takes the first branch, one that is `false` the other. */
  lemma BooleansChoose(h: Host, cond: Expr, thn: Expr, els: Expr, env: Env, tr: Trace, fuel: nat, b: bool)
    requires var c := Eval(h, cond, env, tr, fuel); c.Done? && c.completion == Normal(Scalar(Boolean(b)))
    ensures var c := Eval(h, cond, env, tr, fuel);
            && Eval(h, If(cond, thn, Some(els)), env, tr, fuel) == Eval(h, if b then thn else els, env, c.trace, fuel)
            && Eval(h, Logical(true, cond, thn), env, tr, fuel) == (if b then Eval(h, thn, env, c.trace, fuel) else c)
            && Eval(h, Logical(false, cond, thn), env, tr, fuel) == (if b then c else Eval(h, thn, env, c.trace, fuel))
  {}

  /** A managed binding is closed once, with its value, after everything behind it and whatever that came to; the closer's
      own failure is added at the end. */
  lemma LetClosesOnce(h: Host, name: string, value: Expr, closer: string, rest: Stmts, env: Env, tr: Trace, fuel: nat)
    requires var v := Eval(h, value, env, tr, fuel);
             && v.Done? && v.completion.Normal?
             && EvalStmts(h, rest, env[name := v.completion.value], v.trace, fuel).Done?
    ensures var v := Eval(h, value, env, tr, fuel);
            var r := EvalStmts(h, rest, env[name := v.completion.value], v.trace, fuel);
            var request := CloseOf(closer, v.completion.value);
            var answer := h.answer(r.trace, request);
            EvalStmts(h, Let(name, value, Some(closer), rest), env, tr, fuel) ==
              Done(match answer
                   case Answered(_) => r.completion
                   case Raised(d) => if r.completion.Threw? then Threw(r.completion.defects + [d]) else Threw([d]),
                   r.trace + [Event(request, answer)])
  {
    assert forall d: Value :: [] + [d] == [d];
  }

  /** An eager operator gives what the host computes from both operands, or throws what it raises. */
  lemma OperatorAnswers(h: Host, op: string, lhs: Expr, rhs: Expr, env: Env, tr: Trace, fuel: nat)
    requires var l := Eval(h, lhs, env, tr, fuel); l.Done? && l.completion.Normal?
    requires var r := Eval(h, rhs, env, Eval(h, lhs, env, tr, fuel).trace, fuel); r.Done? && r.completion.Normal?
    ensures var l := Eval(h, lhs, env, tr, fuel);
            var r := Eval(h, rhs, env, l.trace, fuel);
            Eval(h, Binary(op, lhs, rhs), env, tr, fuel) ==
              Done(match h.binary(op, l.completion.value, r.completion.value) case Answered(v) => Normal(v) case Raised(d) => Threw([d]), r.trace)
  {}
}
