/** The task runtime as it works: executions whose flags, child lists and outcomes are updated in place, and one counter
    for all settlements. Every method is proved to take the step of module Tasks it stands for. */
module TaskRuntime {
  import opened Values
  import Activation
  import opened Tasks

  class TaskRuntime {
    var executions: seq<Execution>
    var settlements: nat
    ghost var history: seq<Happening>

    ghost function State(): World
      reads this
    {
      World(executions, settlements, history)
    }

    constructor ()
      ensures State() == EMPTY
    {
      executions := [];
      settlements := 0;
      history := [];
    }

    method SpawnRoot() returns (x: Id)
      requires Inv(State())
      modifies this
      ensures State() == Step(old(State()), Action.SpawnRoot) && Inv(State()) && x == |old(executions)|
    {
      StepKeeps(State(), Action.SpawnRoot);
      x := |executions|;
      executions := executions + [Fresh()];
    }

    method Start(x: Id)
      requires Inv(State()) && x < |executions| && executions[x].phase.Created?
      modifies this
      ensures State() == Step(old(State()), Action.Start(x)) && Inv(State())
    {
      StepKeeps(State(), Action.Start(x));
      executions := executions[x := executions[x].(phase := Running)];
    }

    /** A running recipe spawns a child: the owner's context and the owner itself adopt it. */
    method Spawn(x: Id) returns (child: Id)
      requires Inv(State()) && x < |executions| && executions[x].phase.Running?
      modifies this
      ensures State() == Step(old(State()), Action.Spawn(x)) && Inv(State()) && child == |old(executions)|
    {
      StepKeeps(State(), Action.Spawn(x));
      child := |executions|;
      var e := executions[x];
      executions := executions[x := e.(children := e.children + [child], adopted := e.adopted + [child])];
      executions := executions + [Fresh()];
    }

    // ----- cancellation -----

    method Cancel(x: Id)
      requires Ordered(executions) && x < |executions|
      modifies this
      ensures State() == Step(old(State()), CancelCall(x)) && Ordered(executions)
      ensures executions == Marked(old(executions), Below(old(executions), x))
      ensures Inv(old(State())) ==> Inv(State())
      decreases |executions| - x, 1
    {
      ghost var start := State();
      CancelReaches(executions, x);
      CancelUnfolds(start, x);
      if Inv(start) { StepKeeps(start, CancelCall(x)); }
      hide CancelOne, CancelAll, Below, Inv, Ordered, Step, OnlyAborts, Later;
      if !executions[x].phase.Settled? && !executions[x].aborted {
        executions := executions[x := executions[x].(aborted := true)];
        CancelChildren(x, executions[x].children);
      }
    }

    /** Cancel whatever has not settled, in the order of the list. */
    method CancelChildren(x: Id, children: seq<Id>)
      requires Ordered(executions) && x < |executions| && Later(executions, children, x)
      modifies this
      ensures executions == CancelAll(old(executions), children, x)
      ensures settlements == old(settlements) && history == old(history)
      decreases |executions| - x, 0
    {
      hide CancelAll, CancelOne, Ordered, OnlyAborts, Below, BelowAll, Inv;
      ghost var last := |old(executions)|;
      var i := 0;
      assert children[0..] == children;
      while i < |children|
        invariant i <= |children| && |executions| == last && Ordered(executions)
        invariant CancelAll(executions, children[i..], x) == CancelAll(old(executions), children, x)
        invariant settlements == old(settlements) && history == old(history)
      {
        assert children[i..][1..] == children[i + 1..];
        NextCancelled(executions, children[i..], x);
        if !executions[children[i]].phase.Settled? {
          Cancel(children[i]);
        }
        i := i + 1;
      }
      NoneCancelled(executions, children[i..], x);
    }

    // ----- the drive of one execution -----

    method SettleAs(x: Id, outcome: Outcome)
      requires x < |executions|
      modifies this
      ensures State() == Settle(old(State()), x, outcome)
    {
      executions := executions[x := executions[x].(phase := Settled(outcome, settlements))];
      settlements := settlements + 1;
      history := history + [Ended(x)];
    }

    /** Cancel the children, take their list over and wait for them. */
    method JoinChildren(x: Id, caught: Activation.Defect, pending: bool)
      requires Inv(State()) && x < |executions|
      modifies this
      ensures State() == CaughtBy(old(State()), x, caught, pending)
    {
      var children := executions[x].children;
      CancelChildren(x, children);
      executions := executions[x := executions[x].(phase := Joining(children, caught, pending), children := [])];
    }

    /** The recipe came back with a value: the last checkpoint decides whether it counts. */
    method Complete(x: Id, value: Value)
      requires Inv(State()) && x < |executions| && executions[x].phase.Running?
      modifies this
      ensures State() == Step(old(State()), Action.Complete(x, value)) && Inv(State())
    {
      StepKeeps(State(), Action.Complete(x, value));
      if executions[x].aborted {
        JoinChildren(x, CANCELLATION, false);
      } else {
        SettleAs(x, Produced(value));
      }
    }

    method Reject(x: Id, defect: Activation.Defect, pending: bool)
      requires Inv(State()) && x < |executions| && executions[x].phase.Running?
      modifies this
      ensures State() == Step(old(State()), Throw(x, defect, pending)) && Inv(State())
    {
      StepKeeps(State(), Throw(x, defect, pending));
      executions := executions[x := executions[x].(phase := Rejected(defect, pending))];
    }

    /** A suspended activation is given up: its children are cancelled and waited for before it is. */
    method Abandon(x: Id, failure: Activation.Defect)
      requires Inv(State()) && x < |executions| && executions[x].phase.Running?
      modifies this
      ensures State() == Step(old(State()), Action.Abandon(x, failure)) && Inv(State())
    {
      StepKeeps(State(), Action.Abandon(x, failure));
      var children := executions[x].children;
      CancelChildren(x, children);
      executions := executions[x := executions[x].(phase := Abandoned(children, failure), children := [])];
    }

    /** All children are in: the activation is cancelled and its cleanups run. */
    method CloseFrames(x: Id, failures: seq<Activation.Defect>)
      requires Inv(State()) && x < |executions| && executions[x].phase.Abandoned? && AllSettled(executions, executions[x].phase.waiting)
      modifies this
      ensures State() == Step(old(State()), Action.CloseFrames(x, failures)) && Inv(State())
    {
      StepKeeps(State(), Action.CloseFrames(x, failures));
      var phase := executions[x].phase;
      var primary := Append(phase.failure, OutcomesOf(executions, phase.waiting));
      history := history + [ClosedFrames(x)];
      executions := executions[x := executions[x].(phase := Rejected(WithFailures(primary, failures), false))];
    }

    method Catch(x: Id)
      requires Inv(State()) && x < |executions| && executions[x].phase.Rejected?
      modifies this
      ensures State() == Step(old(State()), Action.Catch(x)) && Inv(State())
    {
      StepKeeps(State(), Action.Catch(x));
      JoinChildren(x, executions[x].phase.caught, executions[x].phase.pending);
    }

    /** The children are in: close what is pending, decide the outcome, settle. */
    method JoinDone(x: Id, failures: seq<Activation.Defect>)
      requires Inv(State()) && x < |executions| && executions[x].phase.Joining? && AllSettled(executions, executions[x].phase.waiting)
      modifies this
      ensures State() == Step(old(State()), Action.JoinDone(x, failures)) && Inv(State())
    {
      StepKeeps(State(), Action.JoinDone(x, failures));
      var phase := executions[x].phase;
      var failure := Append(phase.caught, OutcomesOf(executions, phase.waiting));
      if phase.pending {
        history := history + [ClosedFrames(x)];
        failure := WithFailures(failure, failures);
      }
      SettleAs(x, OutcomeOf(failure));
    }

    // ----- select and race -----

    /** What the callback of a select computes: the settled handle with the smallest number. */
    method FirstSettlement(handles: seq<Id>) returns (winner: Option<nat>)
      requires forall k | 0 <= k < |handles| :: handles[k] < |executions|
      ensures winner.Some? ==> Wins(executions, handles, winner.value)
      ensures winner.None? <==> forall k | 0 <= k < |handles| :: !executions[handles[k]].phase.Settled?
    {
      winner := None;
      var index := 0;
      while index < |handles|
        invariant index <= |handles|
        invariant winner.Some? ==> winner.value < index && Wins(executions, handles[..index], winner.value)
        invariant winner.None? <==> forall k | 0 <= k < index :: !executions[handles[k]].phase.Settled?
      {
        var e := executions[handles[index]];
        if e.phase.Settled? && (winner.None? || e.phase.number < executions[handles[winner.value]].phase.number) {
          winner := Some(index);
        }
        index := index + 1;
      }
      assert handles[..index] == handles;
    }
  }

  /** Children's defects are taken in the order of the list. */
  method Append(primary: Activation.Defect, outcomes: seq<Outcome>) returns (result: Activation.Defect)
    ensures result == AppendChildDefects(primary, outcomes)
  {
    result := primary;
    var i := 0;
    while i < |outcomes|
      invariant i <= |outcomes| && AppendChildDefects(result, outcomes[i..]) == AppendChildDefects(primary, outcomes)
    {
      assert outcomes[i..][1..] == outcomes[i + 1..];
      var defects := ChildDefects(outcomes[i]);
      ghost var before := result;
      var j := 0;
      while j < |defects|
        invariant j <= |defects| && AppendDefects(result, defects[j..]) == AppendDefects(before, defects)
      {
        assert defects[j..][1..] == defects[j + 1..];
        if !(result == defects[j] || (result.Aggregate? && defects[j] in result.errors)) {
          result := Activation.AddDefect(Some(result), defects[j]);
        }
        j := j + 1;
      }
      i := i + 1;
    }
  }
}
