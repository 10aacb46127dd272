/** The task runtime never gets stuck: whatever has happened, every execution can still settle. */
module TaskProgress {
  import opened Values
  import opened Tasks

  /** How many steps an execution has to go once everyone younger has settled. */
  function ToGo(phase: Phase): nat {
    match phase
    case Created => 5
    case Running => 4
    case Abandoned(_, _) => 3
    case Rejected(_, _) => 2
    case Joining(_, _, _) => 1
    case Settled(_, _) => 0
  }

  /** The step an execution takes next when its recipe has nothing left to do and no cleanup fails. */
  function NextAction(phase: Phase, x: Id): Action {
    match phase
    case Created => Start(x)
    case Running => Complete(x, Undefined)
    case Abandoned(_, _) => CloseFrames(x, [])
    case Rejected(_, _) => Catch(x)
    case Joining(_, _, _) => JoinDone(x, [])
    case Settled(_, _) => Start(x)
  }

  /** Everyone from this one on has settled. */
  predicate SettledFrom(w: World, x: nat) {
    forall y: Id | x <= y < |w.executions| :: w.executions[y].phase.Settled?
  }

  lemma NextAdvances(w: World, x: Id)
    requires Inv(w) && x < |w.executions| && !w.executions[x].phase.Settled? && SettledFrom(w, x + 1)
    ensures var v := Step(w, NextAction(w.executions[x].phase, x));
            && |v.executions| == |w.executions| && ToGo(v.executions[x].phase) < ToGo(w.executions[x].phase)
            && SettledFrom(v, x + 1)
  {
    WaitedForAreSettled(w, x);
    StepOnward(w, NextAction(w.executions[x].phase, x));
    hide AppendChildDefects, WithFailures, OutcomesOf, CancelAll, OutcomeOf, Inv, Ordered, AllSettled;
  }

  lemma WaitedForAreSettled(w: World, x: Id)
    requires Inv(w) && x < |w.executions| && SettledFrom(w, x + 1)
    ensures Ordered(w.executions) && AllSettled(w.executions, Waiting(w.executions[x].phase))
  {
    assert Accounted(w.executions, x);
  }

  lemma {:induction false} SettleOne(w: World, x: Id) returns (actions: seq<Action>)
    requires Inv(w) && x < |w.executions| && SettledFrom(w, x + 1)
    ensures Ordered(w.executions) && |Run(w, actions).executions| == |w.executions| && SettledFrom(Run(w, actions), x)
    decreases ToGo(w.executions[x].phase)
  {
    actions := [];
    if !w.executions[x].phase.Settled? {
      var next := NextAction(w.executions[x].phase, x);
      NextAdvances(w, x);
      StepKeeps(w, next);
      hide Inv, Step, ToGo, NextAction;
      var rest := SettleOne(StepOrdered(w, next), x);
      actions := [next] + rest;
      RunGoesOn(w, next, rest);
    }
  }

  lemma RunGoesOn(w: World, a: Action, rest: seq<Action>)
    requires Ordered(w.executions)
    ensures Run(w, [a] + rest) == Run(StepOrdered(w, a), rest)
  {
    assert ([a] + rest)[1..] == rest;
  }

  lemma {:induction false} RunInTurn(w: World, first: seq<Action>, second: seq<Action>)
    requires Ordered(w.executions)
    ensures Run(w, first + second) == Run(Run(w, first), second)
    decreases |first|
  {
    hide Step;
    if |first| == 0 {
      assert first + second == second;
    } else {
      RunInTurn(StepOrdered(w, first[0]), first[1..], second);
      assert (first + second)[1..] == first[1..] + second;
    }
  }

  lemma {:induction false} SettleFrom(w: World, x: nat) returns (actions: seq<Action>)
    requires Inv(w) && x <= |w.executions|
    ensures Ordered(w.executions) && |Run(w, actions).executions| == |w.executions| && SettledFrom(Run(w, actions), x)
    decreases |w.executions| - x
  {
    actions := [];
    if x < |w.executions| {
      var younger := SettleFrom(w, x + 1);
      RunKeeps(w, younger);
      hide Inv, Step, Run;
      var own := SettleOne(Run(w, younger), x);
      RunInTurn(w, younger, own);
      actions := younger + own;
    }
  }

  /** In every interleaving, whatever failed and whoever was cancelled: there are steps after which every execution has
      settled. Nobody waits for itself, not even round about, and nobody waits for a child that cannot end. */
  lemma EveryoneCanSettle(before: seq<Action>)
    ensures exists after :: var w := Run(Run(EMPTY, before), after);
              |w.executions| == |Run(EMPTY, before).executions| && SettledFrom(w, 0)
  {
    Reachable(before);
    var after := SettleFrom(Run(EMPTY, before), 0);
  }
}
