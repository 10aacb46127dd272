/** What a `for` loop makes of its iterator, with the variants written out: each step that yields an item runs the body on
    that item and goes on with the iterator that came with it; any other step ends the loop. */
module Iteration {
  import opened Values
  import opened Patterns
  import opened Hir
  import opened StateTable
  import opened Planning
  import opened PlannerCorrectness

  /** The step reports an item and the iterator that follows it. */
  predicate Yields(iteration: IterationAbi, v: Value) {
    && v.Variant? && v.enumName == iteration.enumName && v.variant == iteration.yielded
    && iteration.item in v.fields && iteration.next in v.fields
  }

  /** The body with the pattern matched against the item; an item the pattern rejects is skipped. */
  function BodyOn(h: Host, e: Expr, env: Env, item: Value, next: Value, tr: Trace, fuel: nat): Result
    requires e.For?
  {
    match Matches(e.pat, item)
    case None => Done(Normal(Undefined), tr)
    case Some(bound) => Eval(h, e.body, env[e.itemName := item][e.successorName := next][e.iteratorName := next] + bound, tr, fuel)
  }

  function StepOn(h: Host, e: Expr, env: Env, it: Value, tr: Trace, fuel: nat): Result
    requires e.For?
  {
    Eval(h, e.step, env[e.iteratorName := it], tr, fuel)
  }

  lemma FieldsTakenApart(iteration: IterationAbi, itemName: string, successorName: string, fields: map<string, Value>)
    requires itemName != successorName
    ensures MatchFields(StepPattern(iteration, itemName, successorName).fields, fields) ==
            if iteration.item in fields && iteration.next in fields
            then Some(map[itemName := fields[iteration.item], successorName := fields[iteration.next]]) else None
  {
    var second := Field(iteration.next, Binding(successorName, None), NoFields);
    var first := Field(iteration.item, Binding(itemName, None), second);
    assert MatchFields(NoFields, fields) == Some(map[]);
    if iteration.next in fields {
      var n := fields[iteration.next];
      assert map[successorName := n] + map[] == map[successorName := n];
      assert MatchFields(second, fields) == Some(map[successorName := n]);
      if iteration.item in fields {
        var x := fields[iteration.item];
        assert MatchFields(first, fields) == Join(Some(map[itemName := x]), Some(map[successorName := n]));
        assert map[itemName := x] + map[successorName := n] == map[itemName := x, successorName := n];
      }
    }
  }

  lemma StepTakenApart(iteration: IterationAbi, itemName: string, successorName: string, v: Value)
    requires itemName != successorName
    ensures Matches(StepPattern(iteration, itemName, successorName), v) ==
            if Yields(iteration, v) then Some(map[itemName := v.fields[iteration.item], successorName := v.fields[iteration.next]]) else None
  {
    if v.Variant? { FieldsTakenApart(iteration, itemName, successorName, v.fields); }
  }

  lemma NamesBound(e: Expr, env: Env, item: Value, next: Value)
    requires e.For? && e.itemName != e.successorName
    ensures ForEnv(e, env, map[e.itemName := item, e.successorName := next])
            == env[e.itemName := item][e.successorName := next][e.iteratorName := next]
  {}

  lemma ArmIsBody(h: Host, e: Expr, env: Env, item: Value, next: Value, tr: Trace, fuel: nat)
    requires e.For?
    ensures EvalArms(h, Arm(e.pat, None, e.body, NoArms), item, env[e.itemName := item][e.successorName := next][e.iteratorName := next], tr, fuel)
            == BodyOn(h, e, env, item, next, tr, fuel)
  {
    hide Eval, Matches;
    assert EvalArms(h, NoArms, item, env[e.itemName := item][e.successorName := next][e.iteratorName := next], tr, fuel) == Done(Normal(Undefined), tr);
  }

  // ----- one pass -----

  /** A step that yields an item and an iterator: the body runs on the item; when it ends normally or continues the loop
      the next step is taken with that iterator; a break of the loop gives the `some` variant with its value. */
  lemma PassTakesItemAndNext(h: Host, e: Expr, env: Env, it: Value, tr: Trace, fuel: nat)
    requires e.For? && e.itemName != e.successorName && fuel > 0
    requires var s := StepOn(h, e, env, it, tr, fuel - 1); s.Done? && s.completion.Normal? && Yields(e.iteration, s.completion.value)
    ensures var s := StepOn(h, e, env, it, tr, fuel - 1);
            var item, next := s.completion.value.fields[e.iteration.item], s.completion.value.fields[e.iteration.next];
            var r := BodyOn(h, e, env, item, next, s.trace, fuel - 1);
            EvalFor(h, e, env, it, tr, fuel) ==
              if r.Done? && (r.completion.Normal? || (r.completion.Continued? && r.completion.loop == e.target))
              then EvalFor(h, e, env, next, r.trace, fuel - 1)
              else if r.Done? && r.completion.Broke? && r.completion.loop == e.target
              then Done(Normal(match e.option
                               case None => r.completion.value
                               case Some(abi) => Variant(abi.enumName, abi.some, map[abi.someValue := r.completion.value])), r.trace)
              else r
  {
    var v := StepOn(h, e, env, it, tr, fuel - 1).completion.value;
    StepTakenApart(e.iteration, e.itemName, e.successorName, v);
    var item, next := v.fields[e.iteration.item], v.fields[e.iteration.next];
    NamesBound(e, env, item, next);
    ArmIsBody(h, e, env, item, next, StepOn(h, e, env, it, tr, fuel - 1).trace, fuel - 1);
    hide Eval, EvalArms, Matches, StepPattern, ForEnv, BodyOn;
  }

  /** Any other step ends the loop with the `none` variant. */
  lemma ExhaustionEnds(h: Host, e: Expr, env: Env, it: Value, tr: Trace, fuel: nat)
    requires e.For? && e.itemName != e.successorName && fuel > 0
    requires var s := StepOn(h, e, env, it, tr, fuel - 1); s.Done? && s.completion.Normal? && !Yields(e.iteration, s.completion.value)
    ensures EvalFor(h, e, env, it, tr, fuel) ==
              Done(Normal(match e.option case None => Undefined case Some(abi) => Variant(abi.enumName, abi.none, map[])),
                   StepOn(h, e, env, it, tr, fuel - 1).trace)
  {
    StepTakenApart(e.iteration, e.itemName, e.successorName, StepOn(h, e, env, it, tr, fuel - 1).completion.value);
    hide Eval, Matches, StepPattern;
  }

  // ----- a whole loop -----

  const NEXT := Callable("next")
  const VISIT := Callable("visit")

  /** A callable over an iterator: it asks for one item after the other and hands each to a visitor. */
  function VisitAll(iteration: IterationAbi, option: Option<OptionAbi>): Expr {
    For(0, "iterator", "item", "successor", Local("items"), Call(Arg(Const(NEXT), Arg(Local("iterator"), NoExprs))),
        Binding("x", None), Call(Arg(Const(VISIT), Arg(Local("x"), NoExprs))), iteration, option)
  }

  /** The host's iterators, one after the other, yield these items; the last of them yields nothing. */
  ghost predicate Iterates(h: Host, iteration: IterationAbi, its: seq<Value>, xs: seq<Value>) {
    && |its| == |xs| + 1 && iteration.item != iteration.next
    && (forall j, tr | 0 <= j < |xs| ::
          h.answer(tr, CallOf([NEXT, its[j]])) == Answered(Variant(iteration.enumName, iteration.yielded, map[iteration.item := xs[j], iteration.next := its[j + 1]])))
    && (forall tr :: var a := h.answer(tr, CallOf([NEXT, its[|xs|]])); a.Answered? && !Yields(iteration, a.value))
    && (forall j, tr | 0 <= j < |xs| :: h.answer(tr, CallOf([VISIT, xs[j]])).Answered?)
  }

  function Requests(tr: Trace): (r: seq<Request>)
    ensures |r| == |tr| && forall i | 0 <= i < |r| :: r[i] == tr[i].request
  {
    seq(|tr|, i requires 0 <= i < |tr| => tr[i].request)
  }

  /** Each item is visited before the next one is asked for, and the exhausted iterator is asked last. */
  function Visits(its: seq<Value>, xs: seq<Value>): seq<Request>
    requires |its| == |xs| + 1
  {
    if |xs| == 0 then [CallOf([NEXT, its[0]])]
    else [CallOf([NEXT, its[0]]), CallOf([VISIT, xs[0]])] + Visits(its[1..], xs[1..])
  }

  function Exhausted(option: Option<OptionAbi>): Value {
    match option case None => Undefined case Some(abi) => Variant(abi.enumName, abi.none, map[])
  }

  lemma TwoOperands(h: Host, callee: Value, name: string, env: Env, tr: Trace, fuel: nat)
    requires name in env
    ensures var request := CallOf([callee, env[name]]); var answer := h.answer(tr, request);
            Eval(h, Call(Arg(Const(callee), Arg(Local(name), NoExprs))), env, tr, fuel)
            == Done(if answer.Answered? then Normal(answer.value) else Threw([answer.defect]), tr + [Event(request, answer)])
  {
    assert EvalAll(h, NoExprs, env, tr, fuel) == Values([], tr);
    assert EvalAll(h, Arg(Local(name), NoExprs), env, tr, fuel) == Values([env[name]], tr);
    assert EvalAll(h, Arg(Const(callee), Arg(Local(name), NoExprs)), env, tr, fuel) == Values([callee] + [env[name]], tr);
    assert [callee] + [env[name]] == [callee, env[name]];
  }

  lemma OneVisit(h: Host, iteration: IterationAbi, option: Option<OptionAbi>, its: seq<Value>, xs: seq<Value>, env: Env, tr: Trace, fuel: nat)
      returns (tr1: Trace)
    requires Iterates(h, iteration, its, xs) && |xs| > 0 && fuel > 0
    ensures EvalFor(h, VisitAll(iteration, option), env, its[0], tr, fuel) == EvalFor(h, VisitAll(iteration, option), env, its[1], tr1, fuel - 1)
    ensures Requests(tr1) == Requests(tr) + [CallOf([NEXT, its[0]]), CallOf([VISIT, xs[0]])]
  {
    var e := VisitAll(iteration, option);
    TwoOperands(h, NEXT, "iterator", env["iterator" := its[0]], tr, fuel - 1);
    var s := StepOn(h, e, env, its[0], tr, fuel - 1);
    PassTakesItemAndNext(h, e, env, its[0], tr, fuel);
    var inner := env["item" := xs[0]]["successor" := its[1]]["iterator" := its[1]] + map["x" := xs[0]];
    TwoOperands(h, VISIT, "x", inner, s.trace, fuel - 1);
    assert BodyOn(h, e, env, xs[0], its[1], s.trace, fuel - 1) == Eval(h, e.body, inner, s.trace, fuel - 1);
    tr1 := Eval(h, e.body, inner, s.trace, fuel - 1).trace;
  }

  lemma NothingToVisit(h: Host, iteration: IterationAbi, option: Option<OptionAbi>, its: seq<Value>, xs: seq<Value>, env: Env, tr: Trace, fuel: nat)
      returns (end: Trace)
    requires Iterates(h, iteration, its, xs) && |xs| == 0 && fuel > 0
    ensures EvalFor(h, VisitAll(iteration, option), env, its[0], tr, fuel) == Done(Normal(Exhausted(option)), end)
    ensures Requests(end) == Requests(tr) + [CallOf([NEXT, its[0]])]
  {
    TwoOperands(h, NEXT, "iterator", env["iterator" := its[0]], tr, fuel - 1);
    ExhaustionEnds(h, VisitAll(iteration, option), env, its[0], tr, fuel);
    end := StepOn(h, VisitAll(iteration, option), env, its[0], tr, fuel - 1).trace;
  }

  lemma IteratesOn(h: Host, iteration: IterationAbi, its: seq<Value>, xs: seq<Value>)
    requires Iterates(h, iteration, its, xs) && |xs| > 0
    ensures Iterates(h, iteration, its[1..], xs[1..])
  {}

  /** The loop calls the visitor on every item in the order in which the iterators yield them. */
  lemma {:induction false} ItemsAreVisitedInOrder(h: Host, iteration: IterationAbi, option: Option<OptionAbi>, its: seq<Value>, xs: seq<Value>,
                                                  env: Env, tr: Trace, fuel: nat) returns (end: Trace)
    requires Iterates(h, iteration, its, xs) && fuel > |xs|
    ensures EvalFor(h, VisitAll(iteration, option), env, its[0], tr, fuel) == Done(Normal(Exhausted(option)), end)
    ensures Requests(end) == Requests(tr) + Visits(its, xs)
    decreases |xs|
  {
    assert |its| == |xs| + 1;
    hide EvalFor, Eval, Iterates, VisitAll, Requests;
    if |xs| == 0 {
      end := NothingToVisit(h, iteration, option, its, xs, env, tr, fuel);
    } else {
      var tr1 := OneVisit(h, iteration, option, its, xs, env, tr, fuel);
      IteratesOn(h, iteration, its, xs);
      end := ItemsAreVisitedInOrder(h, iteration, option, its[1..], xs[1..], env, tr1, fuel - 1);
      assert Requests(tr) + [CallOf([NEXT, its[0]]), CallOf([VISIT, xs[0]])] + Visits(its[1..], xs[1..]) == Requests(tr) + Visits(its, xs);
    }
  }

  lemma OperandsWellFormed(callee: Value, name: string, names: set<string>, loops: seq<LoopSig>)
    requires name in names
    ensures WellFormed(Call(Arg(Const(callee), Arg(Local(name), NoExprs))), names, loops, [])
  {
    assert ExprsWellFormed(NoExprs, names, loops, []);
    assert ExprsWellFormed(Arg(Local(name), NoExprs), names, loops, []);
  }

  lemma VisitAllIsPlannable(iteration: IterationAbi, option: Option<OptionAbi>)
    ensures Plannable(["items"], VisitAll(iteration, option))
  {
    var e := VisitAll(iteration, option);
    assert Names(e.pat) == ["x"] && NameSet(["items"]) == {"items"};
    var names := ["iterator", "item", "successor"] + ["x"];
    assert names == ["iterator", "item", "successor", "x"];
    OperandsWellFormed(NEXT, "iterator", {"items"} + {"iterator"}, []);
    var inside := {"items"} + {"iterator", "item", "successor"} + NameSet(["x"]);
    var loops := [LoopSig(0, [], false)];
    assert [] + loops == loops;
    OperandsWellFormed(VISIT, "x", inside, loops);
  }

  /** So does the planned table: entered with the first iterator it halts with the `none` variant after exactly these
      calls. */
  lemma PlannedLoopVisitsInOrder(h: Host, iteration: IterationAbi, option: Option<OptionAbi>, its: seq<Value>, xs: seq<Value>) returns (end: Trace)
    requires Iterates(h, iteration, its, xs)
    ensures HaltsWith(h, TableOf(PlanCallable(["items"], VisitAll(iteration, option))), Launch([its[0]]), Finished(Exhausted(option)), end)
    ensures Requests(end) == Visits(its, xs)
  {
    var e, fuel := VisitAll(iteration, option), |xs| + 1;
    var env := WithValues(map[], ["items"], [its[0]]);
    assert env == map["items" := its[0]] by {
      assert ["items"][1..] == [] && [its[0]][1..] == [];
    }
    end := ItemsAreVisitedInOrder(h, iteration, option, its, xs, env, [], fuel);
    assert Requests([]) + Visits(its, xs) == Visits(its, xs);
    VisitAllIsPlannable(iteration, option);
    hide Requests, Visits, Iterates, Plannable, WithValues, EvalFor;
    assert Eval(h, e, env, [], fuel) == Done(Normal(Exhausted(option)), end);
    assert Meaning(h, ["items"], [its[0]], e, fuel) == Some((Finished(Exhausted(option)), end));
    PlannedTableRunsTheBody(h, ["items"], [its[0]], e, Finished(Exhausted(option)), end);
  }
}
