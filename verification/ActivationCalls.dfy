/** What calls hand over: where a pushed callable starts, what a caller finds when the call gives a value back, and what
    an activation finishes with. Everything is said of the frames before and after, over whole runs of the driver. */
module ActivationCalls {
  import opened Values
  import opened Activation

  /** A frame about to run its callable from the beginning. */
  ghost predicate Starts(frame: Frame, args: seq<Value>, resultSlot: Option<nat>) {
    && frame.resumeState == 0 && frame.scopes == [[]] && frame.resultSlot == resultSlot
    && (forall i: nat :: i in frame.locals <==> i < |args|)
    && forall i: nat | i < |args| :: frame.locals[i] == args[i]
  }

  /** The frame goes on at `resumeState` with these locals; it still gives its result to the same slot. */
  predicate GoesOn(before: Frame, after: Frame, resumeState: nat, locals: Locals) {
    after.resumeState == resumeState && after.locals == locals && after.resultSlot == before.resultSlot
  }

  /** Only the top frame is another one. */
  predicate OthersSame(before: seq<Frame>, after: seq<Frame>) {
    |before| == |after| > 0 && after[..|after| - 1] == before[..|before| - 1]
  }

  /** The turn ends the frame with a value: by returning it or by a tail call to something that answers it. */
  predicate Gives(terminal: Terminal, v: Value) {
    terminal == Return(v) || terminal == Tail(External(Value(v)))
  }

  ghost predicate StaysAbove(run: Behaviour, owned: bool, m: Machine, commands: seq<Command>, n: nat)
    decreases |commands|
  {
    |m.frames| > n && (|commands| > 0 ==> StaysAbove(run, owned, Step(run, owned, m, commands[0]), commands[1..], n))
  }

  // ----- what the cleanup operations of a turn do to the frame -----

  /** A cleanup operation that does not throw changes the scopes of the top frame, and only these: it registers in the
      innermost, opens one more, or closes those above a depth. */
  lemma OperationOnScopes(run: Behaviour, m: Machine, action: BodyAction)
    requires |m.frames| > 0 && DoAction(run, m, action).1.None?
    ensures var after := DoAction(run, m, action).0;
            var was := m.frames[|m.frames| - 1];
            && OthersSame(m.frames, after.frames) && after.status == m.status
            && var frame := after.frames[|after.frames| - 1];
               && frame == was.(scopes := frame.scopes)
               && match action
                  case Register =>
                    && |was.scopes| == |frame.scopes| > 0
                    && frame.scopes[..|frame.scopes| - 1] == was.scopes[..|was.scopes| - 1]
                    && frame.scopes[|frame.scopes| - 1] == was.scopes[|was.scopes| - 1] + [m.next] && after.next == m.next + 1
                  case Enter => frame.scopes == was.scopes + [[]]
                  case Unwind(depth) => frame.scopes == if |was.scopes| <= depth then was.scopes else was.scopes[..depth]
                  case Leave => |was.scopes| > 1 && frame.scopes == was.scopes[..|was.scopes| - 1]
  {
    hide RunScopes, Collect, Failures;
  }

  lemma OperationOnFrames(run: Behaviour, m: Machine, action: BodyAction)
    requires |m.frames| > 0
    ensures var after := DoAction(run, m, action).0;
            && OthersSame(m.frames, after.frames) && after.status == m.status
            && var frame := after.frames[|after.frames| - 1]; frame == m.frames[|m.frames| - 1].(scopes := frame.scopes)
  {
    hide RunScopes, Collect, Failures;
  }

  lemma {:induction false} OperationsOnFrames(run: Behaviour, m: Machine, actions: seq<BodyAction>)
    requires |m.frames| > 0
    ensures var after := DoActions(run, m, actions).0;
            && OthersSame(m.frames, after.frames) && after.status == m.status
            && var frame := after.frames[|after.frames| - 1]; frame == m.frames[|m.frames| - 1].(scopes := frame.scopes)
    decreases |actions|
  {
    hide DoAction;
    if |actions| > 0 {
      OperationOnFrames(run, m, actions[0]);
      var (m1, defect) := DoAction(run, m, actions[0]);
      if defect.None? { OperationsOnFrames(run, m1, actions[1..]); }
    }
  }

  /** A turn that leaves the activation in order did its operations without a defect. */
  lemma TurnInOrder(run: Behaviour, owned: bool, m: Machine, turn: Turn) returns (m1: Machine)
    requires m.status.Active? && |m.frames| > 0
    requires var after := Step(run, owned, m, Drive(turn)); !after.status.Pending? && !after.status.Failed?
    ensures OthersSame(m.frames, m1.frames) && m1.status.Active?
    ensures var frame := m1.frames[|m1.frames| - 1]; frame == m.frames[|m.frames| - 1].(scopes := frame.scopes)
    ensures Step(run, owned, m, Drive(turn)) == DoTerminal(run, owned, m1, turn.terminal)
    ensures turn.actions == [] ==> m1 == m
  {
    hide RunFrames, Collect, Failures, DoTerminal;
    OperationsOnFrames(run, m, turn.actions);
    m1 := DoActions(run, m, turn.actions).0;
  }

  // ----- one turn -----

  /** A push suspends the caller and starts the callee; a call to something outside writes the answer at once. */
  lemma PushStarts(run: Behaviour, owned: bool, m: Machine, turn: Turn)
    requires m.status.Active? && |m.frames| > 0 && turn.terminal.Push?
    requires var after := Step(run, owned, m, Drive(turn)); !after.status.Pending? && !after.status.Failed?
    ensures var after, t, n := Step(run, owned, m, Drive(turn)), turn.terminal, |m.frames|;
            var caller := m.frames[n - 1];
            && after.status.Active?
            && match t.target
               case Nymph(args) =>
                 && |after.frames| == n + 1 && OthersSame(m.frames, after.frames[..n])
                 && GoesOn(caller, after.frames[n - 1], t.resumeState, caller.locals)
                 && Starts(after.frames[n], args, Some(t.resultSlot))
               case External(answer) =>
                 && answer.Value? && OthersSame(m.frames, after.frames)
                 && GoesOn(caller, after.frames[n - 1], t.resumeState, caller.locals[t.resultSlot := answer.value])
  {
    var m1 := TurnInOrder(run, owned, m, turn);
    hide DoActions, RunFrames, Collect, Failures;
  }

  /** A tail call puts the callee in the caller's place; whoever waited for the caller waits for it. */
  lemma TailStarts(run: Behaviour, owned: bool, m: Machine, turn: Turn, args: seq<Value>)
    requires m.status.Active? && |m.frames| > 0 && turn.terminal == Tail(Nymph(args))
    requires var after := Step(run, owned, m, Drive(turn)); !after.status.Pending? && !after.status.Failed?
    ensures var after, n := Step(run, owned, m, Drive(turn)), |m.frames|;
            after.status.Active? && OthersSame(m.frames, after.frames) && Starts(after.frames[n - 1], args, m.frames[n - 1].resultSlot)
  {
    var m1 := TurnInOrder(run, owned, m, turn);
    hide DoActions, RunFrames, RunScopes, Collect, Failures;
  }

  /** Resuming writes the value and goes on. */
  lemma ResumeGoesOn(run: Behaviour, owned: bool, m: Machine, turn: Turn)
    requires m.status.Active? && |m.frames| > 0 && turn.terminal.Resume?
    requires var after := Step(run, owned, m, Drive(turn)); !after.status.Pending? && !after.status.Failed?
    ensures var after, t, n := Step(run, owned, m, Drive(turn)), turn.terminal, |m.frames|;
            && after.status.Active? && OthersSame(m.frames, after.frames)
            && GoesOn(m.frames[n - 1], after.frames[n - 1], t.resumeState, m.frames[n - 1].locals[t.resultSlot := t.value])
  {
    var m1 := TurnInOrder(run, owned, m, turn);
    hide DoActions, RunFrames, Collect, Failures;
  }

  /** A suspension hands the effect's value out; settling it writes what comes back and goes on. */
  lemma SuspensionGoesOn(run: Behaviour, owned: bool, m: Machine, turn: Turn, result: Value)
    requires m.status.Active? && |m.frames| > 0 && turn.terminal.Suspend?
    requires var after := Step(run, owned, m, Drive(turn)); !after.status.Pending? && !after.status.Failed?
    ensures var suspended, t, n := Step(run, owned, m, Drive(turn)), turn.terminal, |m.frames|;
            var settled := Step(run, owned, suspended, Settle(result));
            && t.effect.Value? && suspended.status == Suspended(t.resultSlot, t.effect.value)
            && settled.status.Active? && OthersSame(m.frames, settled.frames)
            && GoesOn(m.frames[n - 1], settled.frames[n - 1], t.resumeState, m.frames[n - 1].locals[t.resultSlot := result])
  {
    var m1 := TurnInOrder(run, owned, m, turn);
    hide DoActions, RunFrames, Collect, Failures;
  }

  // ----- runs above a frame -----

  /** While the stack stays above `n`, the frames below `n` are not touched, and whoever is at `n` keeps the slot its
      result goes to. */
  lemma StepAbove(run: Behaviour, owned: bool, m: Machine, c: Command, n: nat)
    requires |m.frames| > n && |Step(run, owned, m, c).frames| > n
    ensures var after := Step(run, owned, m, c);
            after.frames[..n] == m.frames[..n] && after.frames[n].resultSlot == m.frames[n].resultSlot
  {
    hide RunScopes, RunFrames, Collect, Failures, DoAction;
    if c.Drive? && m.status.Active? {
      OperationsOnFrames(run, m, c.turn.actions);
      var (m1, defect) := DoActions(run, m, c.turn.actions);
      assert m1.frames[..n] == m.frames[..n];
      if defect.None? { TerminalAbove(run, owned, m1, c.turn.terminal, n); }
    }
  }

  lemma TerminalAbove(run: Behaviour, owned: bool, m: Machine, terminal: Terminal, n: nat)
    requires |m.frames| > n && |DoTerminal(run, owned, m, terminal).frames| > n
    ensures var after := DoTerminal(run, owned, m, terminal);
            after.frames[..n] == m.frames[..n] && after.frames[n].resultSlot == m.frames[n].resultSlot
  {
    hide RunScopes, RunFrames, Collect, Failures, Unwound, NewFrame;
    UnwoundFrames(run, Popped(m), TopFrame(m).scopes);
    if (terminal.Push? || terminal.Tail?) && terminal.target.Nymph? {
      SlotOfNew(terminal.target.args, if terminal.Push? then Some(terminal.resultSlot) else TopFrame(m).resultSlot);
    }
  }

  lemma SlotOfNew(args: seq<Value>, resultSlot: Option<nat>)
    ensures NewFrame(args, resultSlot).resultSlot == resultSlot
  {}

  lemma UnwoundFrames(run: Behaviour, m: Machine, scopes: seq<seq<Cleanup>>)
    ensures Unwound(run, m, scopes, 0).0.frames == m.frames
  {}

  lemma {:induction false} RunAbove(run: Behaviour, owned: bool, m: Machine, commands: seq<Command>, n: nat)
    requires StaysAbove(run, owned, m, commands, n)
    ensures var after := Run(run, owned, m, commands);
            |m.frames| > n && |after.frames| > n && after.frames[..n] == m.frames[..n] && after.frames[n].resultSlot == m.frames[n].resultSlot
    decreases |commands|
  {
    hide Step;
    if |commands| > 0 {
      StepAbove(run, owned, m, commands[0], n);
      RunAbove(run, owned, Step(run, owned, m, commands[0]), commands[1..], n);
    }
  }

  // ----- the theorems -----

  lemma FrameEnds(run: Behaviour, owned: bool, m: Machine, terminal: Terminal, v: Value)
    requires m.status.Active? && |m.frames| > 0 && Gives(terminal, v)
    requires var after := DoTerminal(run, owned, m, terminal); !after.status.Pending? && !after.status.Failed?
    ensures var after, n := DoTerminal(run, owned, m, terminal), |m.frames| - 1;
            && |after.frames| == n
            && (n == 0 ==> after.status == Finished(v))
            && (n > 0 ==> after.status.Active? && after.frames[..n - 1] == m.frames[..n - 1])
            && (n > 0 && m.frames[n].resultSlot.Some? ==>
                  after.frames[n - 1] == m.frames[n - 1].(locals := m.frames[n - 1].locals[m.frames[n].resultSlot.value := v]))
  {
    hide RunFrames, RunScopes, Collect, Failures;
    var n := |m.frames| - 1;
    var m1 := Unwound(run, Popped(m), m.frames[n].scopes, 0).0;
    assert m1.frames == m.frames[..n] && m1.status == m.status;
    assert DoTerminal(run, owned, m, terminal) == Deliver(m1, m.frames[n].resultSlot, v);
  }

  /** A turn that gives a value and fails nothing: the frame is gone, the frame below finds the value in the slot that was
      reserved for it, or, when there is none, the activation is finished with it. */
  lemma ValueIsGiven(run: Behaviour, owned: bool, m: Machine, last: Turn, v: Value)
    requires m.status.Active? && |m.frames| > 0 && Gives(last.terminal, v)
    requires var after := Step(run, owned, m, Drive(last)); !after.status.Pending? && !after.status.Failed?
    ensures var after, n := Step(run, owned, m, Drive(last)), |m.frames| - 1;
            && |after.frames| == n
            && (n == 0 ==> after.status == Finished(v))
            && (n > 0 ==> after.status.Active? && after.frames[..n - 1] == m.frames[..n - 1])
            && (n > 0 && m.frames[n].resultSlot.Some? ==>
                  after.frames[n - 1] == m.frames[n - 1].(locals := m.frames[n - 1].locals[m.frames[n].resultSlot.value := v]))
  {
    var m1 := TurnInOrder(run, owned, m, last);
    FrameEnds(run, owned, m1, last.terminal, v);
    hide Step, DoTerminal;
    var n := |m.frames| - 1;
    if n > 0 {
      assert m1.frames[..n] == m.frames[..n];
      assert m1.frames[n - 1] == m1.frames[..n][n - 1] && m.frames[n - 1] == m.frames[..n][n - 1];
      assert m1.frames[..n - 1] == m1.frames[..n][..n - 1] && m.frames[..n - 1] == m.frames[..n][..n - 1];
    }
  }

  /** A call, from push to return. The caller pushes a callable; whatever runs after that above the caller's frame, tail
      calls, suspensions and further calls included, in the end the frame that stands for the call gives `v`. If nothing
      failed, the caller goes on where it said it would, with `v` in the slot it named and its other locals as they were,
      and the frames below it are the same. */
  lemma CallGivesBack(run: Behaviour, owned: bool, m: Machine, call: Turn, args: seq<Value>, s: nat, k: nat,
                      commands: seq<Command>, last: Turn, v: Value)
    requires m.status.Active? && |m.frames| > 0 && call.terminal == Push(Nymph(args), s, k)
    requires var m1 := Step(run, owned, m, Drive(call)); StaysAbove(run, owned, m1, commands, |m.frames|)
    requires var m2 := Run(run, owned, Step(run, owned, m, Drive(call)), commands);
             && m2.status.Active? && |m2.frames| == |m.frames| + 1 && Gives(last.terminal, v)
             && var after := Step(run, owned, m2, Drive(last)); !after.status.Pending? && !after.status.Failed?
    ensures var m2 := Run(run, owned, Step(run, owned, m, Drive(call)), commands);
            var after, n := Step(run, owned, m2, Drive(last)), |m.frames|;
            && after.status.Active? && OthersSame(m.frames, after.frames)
            && GoesOn(m.frames[n - 1], after.frames[n - 1], s, m.frames[n - 1].locals[k := v])
            && (call.actions == [] ==> after.frames[n - 1].scopes == m.frames[n - 1].scopes)
  {
    hide Run, StaysAbove, DoActions, DoTerminal, RunFrames, Collect, Failures;
    var m1, n := Step(run, owned, m, Drive(call)), |m.frames|;
    RunAbove(run, owned, m1, commands, n);
    PushedInOrder(run, owned, m, call);
    PushStarts(run, owned, m, call);
    var m2 := Run(run, owned, m1, commands);
    ValueIsGiven(run, owned, m2, last, v);
    hide Step;
    assert m2.frames[..n] == m1.frames[..n];
    assert m2.frames[n - 1] == m2.frames[..n][n - 1] == m1.frames[n - 1];
    var after := Step(run, owned, m2, Drive(last));
    assert after.frames[..n - 1] == m2.frames[..n - 1] == m1.frames[..n][..n - 1] == m.frames[..n - 1];
    if call.actions == [] { PushKeepsScopes(run, owned, m, call); }
  }

  /** A push after which the stack is higher has not failed. */
  lemma PushedInOrder(run: Behaviour, owned: bool, m: Machine, call: Turn)
    requires m.status.Active? && |m.frames| > 0 && call.terminal.Push? && call.terminal.target.Nymph?
    requires |Step(run, owned, m, Drive(call)).frames| > |m.frames|
    ensures Step(run, owned, m, Drive(call)).status.Active?
  {
    hide RunFrames, Collect, Failures;
    OperationsOnFrames(run, m, call.actions);
  }

  lemma PushKeepsScopes(run: Behaviour, owned: bool, m: Machine, call: Turn)
    requires m.status.Active? && |m.frames| > 0 && call.terminal.Push? && call.terminal.target.Nymph? && call.actions == []
    ensures var n := |m.frames|; |Step(run, owned, m, Drive(call)).frames| == n + 1 && Step(run, owned, m, Drive(call)).frames[n - 1].scopes == m.frames[n - 1].scopes
  {}

  /** An activation with one frame left, reached by any run: the value that frame gives is what the activation finishes
      with, unless a cleanup failed. */
  lemma ActivationFinishesWith(run: Behaviour, owned: bool, args: seq<Value>, commands: seq<Command>, last: Turn, v: Value)
    requires var m := Run(run, owned, Launch(args), commands); m.status.Active? && |m.frames| == 1
    requires Gives(last.terminal, v)
    ensures var after := Step(run, owned, Run(run, owned, Launch(args), commands), Drive(last));
            after.status == Finished(v) || after.status.Pending? || after.status.Failed?
  {
    hide Run, Step, Launch;
    var m := Run(run, owned, Launch(args), commands);
    var after := Step(run, owned, m, Drive(last));
    if !after.status.Pending? && !after.status.Failed? { ValueIsGiven(run, owned, m, last, v); }
  }

  /** Nothing else finishes an activation. */
  lemma OnlyAGivenValueFinishes(run: Behaviour, owned: bool, m: Machine, c: Command, v: Value)
    requires !m.status.Finished? && Step(run, owned, m, c).status == Finished(v)
    ensures |m.frames| == 1 && c.Drive? && Gives(c.turn.terminal, v)
  {
    hide RunScopes, RunFrames, Collect, Failures, DoAction;
    if c.Drive? && |m.frames| > 0 { OperationsOnFrames(run, m, c.turn.actions); }
  }

  /** No cleanup of the frame fails. */
  ghost predicate QuietFrame(run: Behaviour, frame: Frame) {
    forall i, c | 0 <= i < |frame.scopes| && c in frame.scopes[i] :: run(c).None?
  }

  /** A turn without operations of its own that ends its frame fails only if a cleanup of that frame does. */
  lemma QuietEndGives(run: Behaviour, owned: bool, m: Machine, v: Value)
    requires m.status.Active? && |m.frames| > 0 && QuietFrame(run, m.frames[|m.frames| - 1])
    ensures var after := Step(run, owned, m, Drive(Turn([], Return(v)))); !after.status.Pending? && !after.status.Failed?
  {
    QuietScopes(run, m.frames[|m.frames| - 1].scopes);
  }

  lemma {:induction false} QuietScopes(run: Behaviour, scopes: seq<seq<Cleanup>>)
    requires forall i, c | 0 <= i < |scopes| && c in scopes[i] :: run(c).None?
    ensures Failures(RunScopes(run, scopes, 0)) == []
    decreases |scopes|
  {
    if |scopes| > 0 {
      var last := |scopes| - 1;
      QuietScope(run, scopes[last]);
      forall i, c | 0 <= i < |scopes[..last]| && c in scopes[..last][i] ensures run(c).None? { assert scopes[i] == scopes[..last][i]; }
      QuietScopes(run, scopes[..last]);
      FailuresJoin(RunScope(run, scopes[last]), RunScopes(run, scopes[..last], 0));
    }
  }

  lemma {:induction false} QuietScope(run: Behaviour, cleanups: seq<Cleanup>)
    requires forall c | c in cleanups :: run(c).None?
    ensures Failures(RunScope(run, cleanups)) == []
    decreases |cleanups|
  {
    if |cleanups| > 0 {
      var init, last := cleanups[..|cleanups| - 1], cleanups[|cleanups| - 1];
      QuietScope(run, init);
      assert ([Ran(last, run(last))] + RunScope(run, init))[1..] == RunScope(run, init);
    }
  }

  // ----- what is raised -----

  /** The defect itself, or one aggregate that begins with it. */
  ghost predicate Begins(reported: Defect, d: Defect) {
    reported == d || (reported.Aggregate? && ErrorsOf(d) <= reported.errors)
  }

  /** What a turn raises, before any cleanup runs: its terminal says so, what it calls outside throws, it is no terminal
      at all, or its first operation is not possible in the scopes that are open. */
  ghost predicate TurnRaises(run: Behaviour, frame: Frame, turn: Turn, d: Defect) {
    if turn.actions == [] then
      match turn.terminal
      case Raise(defect) => d == defect
      case Push(target, _, _) => target == External(Throws(d))
      case Tail(target) => target == External(Throws(d)) && QuietFrame(run, frame)
      case Suspend(effect, _, _) => effect == Throws(d)
      case NotATerminal => d == NON_TERMINAL
      case Unknown => d == UNKNOWN_TERMINAL
      case _ => false
    else
      match turn.actions[0]
      case Register => frame.scopes == [] && d == TYPE_ERROR
      case Leave => |frame.scopes| <= 1 && d == if frame.scopes == [] then TYPE_ERROR else NOT_NESTED
      case _ => false
  }

  ghost predicate Raises(run: Behaviour, m: Machine, c: Command, d: Defect) {
    match c
    case Drive(turn) => m.status.Active? && |m.frames| > 0 && TurnRaises(run, m.frames[|m.frames| - 1], turn, d)
    case Cancel(reason) => m.status.Suspended? && d == reason
    case Finalize(primary) => m.status.Pending? && d == if primary.Some? then primary.value else m.status.defect
    case Settle(_) => false
  }

  /** What is raised is what is reported, with the failures of the cleanups behind it: an activation that an execution
      owns keeps the defect for its owner, any other ends with it at once. */
  lemma RaisedIsReported(run: Behaviour, owned: bool, m: Machine, c: Command, d: Defect)
    requires Raises(run, m, c, d)
    ensures var after := Step(run, owned, m, c);
            if owned && c.Drive? then after.status == Pending(d) else after.status.Failed? && after.frames == [] && Begins(after.status.defect, d)
  {
    hide RunFrames, RunScopes, Collect, Failures, Begins;
    if c.Drive? {
      if c.turn.actions == [] && c.turn.terminal.Tail? {
        QuietScopes(run, m.frames[|m.frames| - 1].scopes);
        NothingCollected();
      }
      AnyUnwindingReports(run, d);
    } else {
      UnwindingReports(run, m, d);
      UnwindingReports(run, m.(raised := Some(d), since := |m.events|), d);
      UnwindingReports(run, m.(raised := Some(d), since := |m.events|, replaced := true), d);
    }
  }

  lemma NothingCollected()
    ensures Collect(None, []) == None
  {}

  lemma UnwindingReports(run: Behaviour, m: Machine, d: Defect)
    ensures var after := UnwindAll(run, m, d); after.status.Failed? && after.frames == [] && Begins(after.status.defect, d)
  {
    ReportedInOrder(Some(d), Failures(RunFrames(run, m.frames)));
  }

  /** Whatever frames are left, unwinding them reports what was raised. */
  lemma AnyUnwindingReports(run: Behaviour, d: Defect)
    ensures forall m1 :: UnwindAll(run, m1, d).status.Failed? && UnwindAll(run, m1, d).frames == [] && Begins(UnwindAll(run, m1, d).status.defect, d)
  {
    forall m1 ensures UnwindAll(run, m1, d).status.Failed? && UnwindAll(run, m1, d).frames == [] && Begins(UnwindAll(run, m1, d).status.defect, d) {
      UnwindingReports(run, m1, d);
    }
  }
}
