/** The driver as it works: loops over the frame stack, popping, unwinding and writing results in place. Each method is
    proved to take the steps of module Activation, so what holds of every run there holds of the driver. */
module ActivationDriver {
  import opened Values
  import opened Activation

  class ActivationDriver {
    var frames: seq<Frame>
    var status: Status
    var nextCleanup: Cleanup
    const owned: bool
    const run: Behaviour

    ghost var events: seq<Event>
    ghost var raised: Option<Defect>
    ghost var since: nat
    ghost var replaced: bool

    ghost function State(): Machine
      reads this
    {
      Machine(frames, events, nextCleanup, status, raised, since, replaced)
    }

    constructor (args: seq<Value>, owned: bool, run: Behaviour)
      ensures State() == Launch(args) && this.owned == owned && this.run == run
    {
      frames := [NewFrame(args, None)];
      status := Active;
      nextCleanup := 0;
      this.owned := owned;
      this.run := run;
      events := [];
      raised := None;
      since := 0;
      replaced := false;
    }

    // ----- cleanups -----

    method RunCleanup(cleanup: Cleanup) returns (failure: Option<Defect>)
      modifies `events
      ensures failure == run(cleanup) && events == old(events) + [Ran(cleanup, failure)]
    {
      failure := run(cleanup);
      events := events + [Ran(cleanup, failure)];
    }

    /** The cleanups of one scope, from its end. */
    method CloseScope(cleanups: seq<Cleanup>, primary: Option<Defect>) returns (defect: Option<Defect>)
      modifies `events
      ensures events == old(events) + RunScope(run, cleanups)
      ensures defect == Collect(primary, Failures(RunScope(run, cleanups)))
    {
      hide RunScope, Collect, Failures, AddDefect;
      defect := primary;
      var index: nat := |cleanups|;
      ghost var ran: seq<Event> := [];
      NothingRan(run, primary);
      assert cleanups[..index] == cleanups;
      while index > 0
        invariant index <= |cleanups|
        invariant events == old(events) + ran && ran + RunScope(run, cleanups[..index]) == RunScope(run, cleanups)
        invariant defect == Collect(primary, Failures(ran))
      {
        index := index - 1;
        var failure := RunCleanup(cleanups[index]);
        ghost var e := Ran(cleanups[index], failure);
        OneMore(primary, ran, e);
        LatestFirst(run, cleanups, index);
        Regroup(ran, [e], RunScope(run, cleanups[..index]));
        ran := ran + [e];
        if failure.Some? {
          defect := Some(AddDefect(defect, failure.value));
        }
      }
      LatestFirst(run, cleanups, 0);
      assert ran + [] == ran;
    }

    /** Pop scopes until `depth` are left and run each; failures join the primary defect. */
    method UnwindScopes(scopes: seq<seq<Cleanup>>, depth: nat, primary: Option<Defect>) returns (left: seq<seq<Cleanup>>, defect: Option<Defect>)
      modifies `events
      ensures left == Cut(scopes, depth)
      ensures events == old(events) + RunScopes(run, scopes, depth)
      ensures defect == Collect(primary, Failures(RunScopes(run, scopes, depth)))
    {
      hide RunScopes, RunScope, Collect, Failures;
      left, defect := scopes, primary;
      ghost var ran: seq<Event> := [];
      NothingRan(run, primary);
      while |left| > depth
        invariant |left| <= |scopes| && left == scopes[..|left|] && (|left| < |scopes| ==> |left| >= depth)
        invariant events == old(events) + ran && ran + RunScopes(run, left, depth) == RunScopes(run, scopes, depth)
        invariant defect == Collect(primary, Failures(ran))
      {
        var cleanups := left[|left| - 1];
        ghost var mine := RunScope(run, cleanups);
        InnermostFirst(run, left, depth);
        left := left[..|left| - 1];
        defect := CloseScope(cleanups, defect);
        FailuresJoin(ran, mine);
        CollectJoins(primary, Failures(ran), Failures(mine));
        Regroup(ran, mine, RunScopes(run, left, depth));
        ran := ran + mine;
      }
      InnermostFirst(run, left, depth);
      assert ran + [] == ran;
    }

    /** Pop every frame that is left. */
    method UnwindActivation(primary: Defect) returns (defect: Defect)
      modifies `frames, `events
      ensures frames == [] && events == old(events) + RunFrames(run, old(frames))
      ensures Some(defect) == Collect(Some(primary), Failures(RunFrames(run, old(frames))))
    {
      hide RunScopes, RunScope, RunFrames, Collect, Failures;
      defect := primary;
      ghost var ran: seq<Event> := [];
      NothingRan(run, Some(primary));
      while |frames| != 0
        invariant events == old(events) + ran && ran + RunFrames(run, frames) == RunFrames(run, old(frames))
        invariant Some(defect) == Collect(Some(primary), Failures(ran))
        decreases |frames|
      {
        var frame := frames[|frames| - 1];
        ghost var mine := RunScopes(run, frame.scopes, 0);
        TopFrameFirst(run, frames);
        frames := frames[..|frames| - 1];
        var _, collected := UnwindScopes(frame.scopes, 0, Some(defect));
        FailuresJoin(ran, mine);
        CollectJoins(Some(primary), Failures(ran), Failures(mine));
        CollectSome(Some(defect), Failures(mine));
        defect := collected.value;
        Regroup(ran, mine, RunFrames(run, frames));
        ran := ran + mine;
      }
      TopFrameFirst(run, frames);
      assert ran + [] == ran;
    }

    /** An owned activation keeps its frames for its execution; any other unwinds now. */
    method ThrowActivationDefect(primary: Defect)
      modifies this
      ensures State() == ThrowDefect(run, owned, old(State()), primary)
    {
      if owned {
        status := Pending(primary);
      } else {
        var defect := UnwindActivation(primary);
        status := Failed(defect);
      }
    }

    method Raise(defect: Defect)
      modifies this
      ensures State() == RaiseDefect(run, owned, old(State()), defect)
    {
      raised, since := Some(defect), |events|;
      ThrowActivationDefect(defect);
    }

    // ----- operations of a state function on its own frame -----

    method RegisterCleanup() returns (thrown: Option<Defect>)
      requires |frames| > 0
      modifies this
      ensures (State(), thrown) == DoAction(run, old(State()), Register)
    {
      var top := |frames| - 1;
      var scopes := frames[top].scopes;
      if |scopes| == 0 {
        raised, since := Some(TYPE_ERROR), |events|;
        return Some(TYPE_ERROR);
      }
      var inner := scopes[|scopes| - 1] + [nextCleanup];
      frames := frames[top := frames[top].(scopes := scopes[|scopes| - 1 := inner])];
      events := events + [Registered(nextCleanup)];
      nextCleanup := nextCleanup + 1;
      thrown := None;
    }

    method EnterCleanupScope() returns (thrown: Option<Defect>)
      requires |frames| > 0
      modifies this
      ensures (State(), thrown) == DoAction(run, old(State()), Enter)
    {
      var top := |frames| - 1;
      frames := frames[top := frames[top].(scopes := frames[top].scopes + [[]])];
      thrown := None;
    }

    method UnwindCleanupScopes(depth: nat) returns (thrown: Option<Defect>)
      requires |frames| > 0
      modifies this
      ensures (State(), thrown) == DoAction(run, old(State()), Unwind(depth))
    {
      var top := |frames| - 1;
      raised, since := None, |events|;
      var left;
      left, thrown := UnwindScopes(frames[top].scopes, depth, None);
      frames := frames[top := frames[top].(scopes := left)];
    }

    method LeaveCleanupScope() returns (thrown: Option<Defect>)
      requires |frames| > 0
      modifies this
      ensures (State(), thrown) == DoAction(run, old(State()), Leave)
    {
      var open := |frames[|frames| - 1].scopes|;
      if open == 0 {
        raised, since := Some(TYPE_ERROR), |events|;
        return Some(TYPE_ERROR);
      }
      if open == 1 {
        raised, since := Some(NOT_NESTED), |events|;
        return Some(NOT_NESTED);
      }
      thrown := UnwindCleanupScopes(open - 1);
    }

    /** Everything a state function does before its terminal, or up to what it throws. */
    method CallStateFunction(actions: seq<BodyAction>) returns (thrown: Option<Defect>)
      requires |frames| > 0
      modifies this
      ensures (State(), thrown) == DoActions(run, old(State()), actions)
    {
      thrown := None;
      var i := 0;
      while i < |actions| && thrown.None?
        invariant i <= |actions| && |frames| > 0
        invariant DoActions(run, old(State()), actions) == if thrown.Some? then (State(), thrown) else DoActions(run, State(), actions[i..])
      {
        assert actions[i..][1..] == actions[i + 1..];
        match actions[i] {
          case Register => thrown := RegisterCleanup();
          case Enter => thrown := EnterCleanupScope();
          case Unwind(depth) => thrown := UnwindCleanupScopes(depth);
          case Leave => thrown := LeaveCleanupScope();
        }
        i := i + 1;
      }
    }

    // ----- terminals -----

    method WriteTop(resumeState: nat, slot: Option<nat>, value: Value)
      requires |frames| > 0
      modifies `frames
      ensures frames == old(frames)[|old(frames)| - 1 := old(frames[|frames| - 1]).(resumeState := resumeState,
                          locals := if slot.Some? then old(frames[|frames| - 1]).locals[slot.value := value] else old(frames[|frames| - 1]).locals)]
    {
      var top := frames[|frames| - 1];
      top := top.(resumeState := resumeState);
      if slot.Some? { top := top.(locals := top.locals[slot.value := value]); }
      frames := frames[|frames| - 1 := top];
    }

    method DeliverResult(resultSlot: Option<nat>, value: Value)
      modifies this
      ensures State() == Deliver(old(State()), resultSlot, value)
    {
      if |frames| == 0 {
        status := Finished(value);
      } else if resultSlot.Some? {
        WriteTop(frames[|frames| - 1].resumeState, resultSlot, value);
      }
    }

    method PushFrame(args: seq<Value>, resultSlot: Option<nat>)
      modifies `frames
      ensures frames == old(frames) + [NewFrame(args, resultSlot)]
    {
      frames := frames + [NewFrame(args, resultSlot)];
    }

    /** Pop the top frame and run everything it still holds. */
    method PopFrame() returns (frame: Frame, defect: Option<Defect>)
      requires |frames| > 0
      modifies this
      ensures frame == old(TopFrame(State())) && (State(), defect) == Unwound(run, Popped(old(State())), frame.scopes, 0)
    {
      frame := frames[|frames| - 1];
      frames := frames[..|frames| - 1];
      raised, since := None, |events|;
      var left;
      left, defect := UnwindScopes(frame.scopes, 0, None);
    }

    method Dispatch(terminal: Terminal)
      requires |frames| > 0
      modifies this
      ensures State() == DoTerminal(run, owned, old(State()), terminal)
    {
      match terminal {
        case Push(target, resumeState, resultSlot) =>
          WriteTop(resumeState, None, Undefined);
          match target {
            case Nymph(args) => PushFrame(args, Some(resultSlot));
            case External(Value(v)) => WriteTop(resumeState, Some(resultSlot), v);
            case External(Throws(d)) => Raise(d);
          }
        case Tail(target) =>
          var frame, defect := PopFrame();
          if defect.Some? {
            ThrowActivationDefect(defect.value);
          } else {
            match target {
              case Nymph(args) => PushFrame(args, frame.resultSlot);
              case External(Value(v)) => DeliverResult(frame.resultSlot, v);
              case External(Throws(d)) => Raise(d);
            }
          }
        case Return(value) =>
          var frame, defect := PopFrame();
          if defect.Some? {
            ThrowActivationDefect(defect.value);
          } else {
            DeliverResult(frame.resultSlot, value);
          }
        case Suspend(effect, resumeState, resultSlot) =>
          WriteTop(resumeState, None, Undefined);
          match effect {
            case Value(v) => status := Suspended(resultSlot, v);
            case Throws(d) => Raise(d);
          }
        case Resume(value, resumeState, resultSlot) => WriteTop(resumeState, Some(resultSlot), value);
        case Raise(d) => Raise(d);
        case NotATerminal => Raise(NON_TERMINAL);
        case Unknown => Raise(UNKNOWN_TERMINAL);
      }
    }

    /** Call the top frame again and again until the activation is no longer active, or the given turns are used up. */
    method Drive(turns: seq<Turn>)
      requires Placed(owned, State())
      modifies this
      ensures State() == Run(run, owned, old(State()), Drives(turns))
      ensures Inv(owned, old(State())) ==> Inv(owned, State())
    {
      ghost var start := State();
      var i := 0;
      while i < |turns| && status.Active? && |frames| > 0
        invariant i <= |turns|
        invariant Run(run, owned, start, Drives(turns)) == Run(run, owned, State(), Drives(turns[i..]))
      {
        assert Drives(turns[i..])[1..] == Drives(turns[i + 1..]);
        var thrown := CallStateFunction(turns[i].actions);
        if thrown.Some? {
          ThrowActivationDefect(thrown.value);
        } else {
          Dispatch(turns[i].terminal);
        }
        i := i + 1;
      }
      NothingToDrive(run, owned, State(), turns[i..]);
      if Inv(owned, start) { RunKeeps(run, owned, start, Drives(turns)); }
    }

    // ----- settling from outside -----

    /** A suspension is settled once: a second attempt is refused. */
    method ResumeWith(value: Value) returns (ok: bool)
      requires Placed(owned, State())
      modifies this
      ensures State() == Step(run, owned, old(State()), Settle(value)) && ok == old(status).Suspended?
    {
      ok := status.Suspended?;
      if ok {
        WriteTop(frames[|frames| - 1].resumeState, Some(status.resultSlot), value);
        status := Active;
      }
    }

    method CancelWith(reason: Defect) returns (ok: bool)
      modifies this
      ensures State() == Step(run, owned, old(State()), Cancel(reason)) && ok == old(status).Suspended?
    {
      ok := status.Suspended?;
      if ok {
        raised, since := Some(reason), |events|;
        var defect := UnwindActivation(reason);
        status := Failed(defect);
      }
    }

    /** The owner finalises a pending defect, under a primary defect of its own if it has one. */
    method FinalizeDefect(primary: Option<Defect>) returns (defect: Option<Defect>)
      modifies this
      ensures State() == Step(run, owned, old(State()), Finalize(primary))
      ensures defect == if old(status).Pending? then Some(status.defect) else None
      ensures old(status).Pending? ==> status.Failed?
    {
      if !status.Pending? { return None; }
      var first := status.defect;
      if primary.Some? {
        first := primary.value;
        raised, since, replaced := primary, |events|, true;
      }
      var last := UnwindActivation(first);
      status := Failed(last);
      defect := Some(last);
    }
  }

  function Drives(turns: seq<Turn>): (r: seq<Command>)
    ensures |r| == |turns| && forall i | 0 <= i < |r| :: r[i] == Drive(turns[i])
  {
    seq(|turns|, i requires 0 <= i < |turns| => Drive(turns[i]))
  }

  lemma OneMore(primary: Option<Defect>, events: seq<Event>, e: Event)
    ensures Collect(primary, Failures(events + [e])) ==
              if e.Ran? && e.failure.Some? then Some(AddDefect(Collect(primary, Failures(events)), e.failure.value))
              else Collect(primary, Failures(events))
  {
    FailuresJoin(events, [e]);
    assert [e][1..] == [];
    CollectJoins(primary, Failures(events), Failures([e]));
    if e.Ran? && e.failure.Some? {
      assert Failures([e]) == [e.failure.value];
      assert [e.failure.value][1..] == [];
    }
  }

  lemma NothingRan(run: Behaviour, primary: Option<Defect>)
    ensures Collect(primary, Failures([])) == primary
  {}

  lemma LatestFirst(run: Behaviour, cleanups: seq<Cleanup>, index: nat)
    requires index <= |cleanups|
    ensures RunScope(run, []) == []
    ensures index < |cleanups| ==>
      RunScope(run, cleanups[..index + 1]) == [Ran(cleanups[index], run(cleanups[index]))] + RunScope(run, cleanups[..index])
  {
    if index < |cleanups| { assert cleanups[..index + 1][..index] == cleanups[..index]; }
  }

  lemma TopFrameFirst(run: Behaviour, frames: seq<Frame>)
    ensures RunFrames(run, frames) ==
              if |frames| == 0 then [] else RunScopes(run, frames[|frames| - 1].scopes, 0) + RunFrames(run, frames[..|frames| - 1])
  {
  }

  lemma InnermostFirst(run: Behaviour, scopes: seq<seq<Cleanup>>, depth: nat)
    ensures RunScopes(run, scopes, depth) ==
              if |scopes| <= depth then [] else RunScope(run, scopes[|scopes| - 1]) + RunScopes(run, scopes[..|scopes| - 1], depth)
  {}

  /** Once an activation is not active, driving it is refused. */
  lemma {:induction false} NothingToDrive(run: Behaviour, owned: bool, m: Machine, turns: seq<Turn>)
    requires |turns| > 0 ==> !(m.status.Active? && |m.frames| > 0)
    ensures Run(run, owned, m, Drives(turns)) == m
    decreases |turns|
  {
    if |turns| > 0 {
      assert Drives(turns)[1..] == Drives(turns[1..]);
      NothingToDrive(run, owned, m, turns[1..]);
    }
  }
}
