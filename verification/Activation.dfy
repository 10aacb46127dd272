/** A running activation: a stack of frames, each with nested scopes of registered cleanups, and the steps the driver
    takes with it. Cleanups and defects are recorded in a history, against which the order, the number and the
    reporting of cleanups are proved for every run. */
module Activation {
  import opened Values

  /** One registration of a cleanup; numbers are handed out in order. */
  type Cleanup = nat

  datatype Defect = Error(code: nat) | Aggregate(errors: seq<Defect>)

  const TYPE_ERROR := Error(0)
  const NOT_NESTED := Error(1)
  const NON_TERMINAL := Error(2)
  const UNKNOWN_TERMINAL := Error(3)

  datatype Event = Registered(cleanup: Cleanup) | Ran(cleanup: Cleanup, failure: Option<Defect>)

  /** What running a cleanup comes to: a suspended cleanup counts as a failure. */
  type Behaviour = Cleanup -> Option<Defect>

  type Locals = map<nat, Value>

  /** The root frame has no slot to give its result to. */
  datatype Frame = Frame(resumeState: nat, locals: Locals, scopes: seq<seq<Cleanup>>, resultSlot: Option<nat>)

  // ----- what a state function does before it hands back a terminal -----

  datatype Answer = Value(value: Value) | Throws(defect: Defect)
  datatype Target = Nymph(args: seq<Value>) | External(answer: Answer)

  datatype BodyAction = Register | Enter | Unwind(depth: nat) | Leave

  datatype Terminal =
    | Push(target: Target, resumeState: nat, resultSlot: nat)
    | Tail(target: Target)
    | Return(value: Value)
    | Suspend(effect: Answer, resumeState: nat, resultSlot: nat)
    | Resume(value: Value, resumeState: nat, resultSlot: nat)
    | Raise(defect: Defect)
    | NotATerminal
    | Unknown

  /** One call of a state function: its cleanup operations in order, then its terminal. */
  datatype Turn = Turn(actions: seq<BodyAction>, terminal: Terminal)

  datatype Status =
    | Active
    | Suspended(resultSlot: nat, value: Value)
    | Finished(value: Value)
    | Pending(defect: Defect)
    | Failed(defect: Defect)

  /** `raised` and `since` describe the defect in flight: what was raised, if anything was, and where in the history
      the cleanup failures that belong to it begin; `replaced` tells that the owner finalised under another primary. */
  datatype Machine = Machine(frames: seq<Frame>, events: seq<Event>, next: Cleanup, status: Status,
                             raised: Option<Defect>, since: nat, replaced: bool)

  // ----- cleanup failures -----

  /** A failure joins the defect in flight; an aggregate takes it in, anything else becomes one. */
  function AddDefect(primary: Option<Defect>, cleanup: Defect): Defect {
    if primary.None? then cleanup
    else Aggregate((if primary.value.Aggregate? then primary.value.errors else [primary.value]) + [cleanup])
  }

  function Collect(primary: Option<Defect>, failures: seq<Defect>): Option<Defect>
    decreases |failures|
  {
    if |failures| == 0 then primary else Collect(Some(AddDefect(primary, failures[0])), failures[1..])
  }

  function Failures(events: seq<Event>): seq<Defect>
    decreases |events|
  {
    if |events| == 0 then [] else
    (if events[0].Ran? && events[0].failure.Some? then [events[0].failure.value] else []) + Failures(events[1..])
  }

  // ----- running cleanups -----

  /** One scope, last registered first. */
  function RunScope(run: Behaviour, cleanups: seq<Cleanup>): seq<Event>
    decreases |cleanups|
  {
    if |cleanups| == 0 then [] else
    var last := cleanups[|cleanups| - 1];
    [Ran(last, run(last))] + RunScope(run, cleanups[..|cleanups| - 1])
  }

  /** The scopes above `depth`, innermost first. */
  function RunScopes(run: Behaviour, scopes: seq<seq<Cleanup>>, depth: nat): seq<Event>
    decreases |scopes|
  {
    if |scopes| <= depth then [] else
    RunScope(run, scopes[|scopes| - 1]) + RunScopes(run, scopes[..|scopes| - 1], depth)
  }

  function RunFrames(run: Behaviour, frames: seq<Frame>): seq<Event>
    decreases |frames|
  {
    if |frames| == 0 then [] else
    RunScopes(run, frames[|frames| - 1].scopes, 0) + RunFrames(run, frames[..|frames| - 1])
  }

  function Cut<T>(s: seq<T>, depth: nat): seq<T> {
    if |s| <= depth then s else s[..depth]
  }

  // ----- steps of the driver -----

  function TopFrame(m: Machine): Frame
    requires |m.frames| > 0
  {
    m.frames[|m.frames| - 1]
  }

  function WithTop(m: Machine, frame: Frame): Machine
    requires |m.frames| > 0
  {
    m.(frames := m.frames[|m.frames| - 1 := frame])
  }

  function Popped(m: Machine): Machine
    requires |m.frames| > 0
  {
    m.(frames := m.frames[..|m.frames| - 1])
  }

  function Pushed(m: Machine, args: seq<Value>, resultSlot: Option<nat>): Machine {
    m.(frames := m.frames + [NewFrame(args, resultSlot)])
  }

  function NewFrame(args: seq<Value>, resultSlot: Option<nat>): Frame {
    Frame(0, map i: nat | i < |args| :: args[i], [[]], resultSlot)
  }

  /** A defect in flight: an activation owned by an execution keeps its frames for it, any other unwinds at once. */
  function ThrowDefect(run: Behaviour, owned: bool, m: Machine, primary: Defect): Machine {
    if owned then m.(status := Pending(primary)) else UnwindAll(run, m, primary)
  }

  function UnwindAll(run: Behaviour, m: Machine, primary: Defect): Machine {
    var ran := RunFrames(run, m.frames);
    var defect := Collect(Some(primary), Failures(ran));
    m.(frames := [], events := m.events + ran, status := Failed(if defect.Some? then defect.value else primary))
  }

  /** The code itself raises: from here on cleanup failures belong to this defect. */
  function RaiseDefect(run: Behaviour, owned: bool, m: Machine, defect: Defect): Machine {
    ThrowDefect(run, owned, m.(raised := Some(defect), since := |m.events|), defect)
  }

  /** Run scopes that have left the frame stack; the first failure starts a defect. */
  function Unwound(run: Behaviour, m: Machine, scopes: seq<seq<Cleanup>>, depth: nat): (Machine, Option<Defect>) {
    var ran := RunScopes(run, scopes, depth);
    (m.(events := m.events + ran, raised := None, since := |m.events|), Collect(None, Failures(ran)))
  }

  /** One cleanup operation of a state function on its own frame, with the defect it throws. */
  function DoAction(run: Behaviour, m: Machine, action: BodyAction): (Machine, Option<Defect>)
    requires |m.frames| > 0
  {
    var frame := TopFrame(m);
    var open := |frame.scopes|;
    match action
    case Register =>
      if open == 0 then (m.(raised := Some(TYPE_ERROR), since := |m.events|), Some(TYPE_ERROR)) else
      var scopes := frame.scopes[open - 1 := frame.scopes[open - 1] + [m.next]];
      (WithTop(m, frame.(scopes := scopes)).(events := m.events + [Registered(m.next)], next := m.next + 1), None)
    case Enter => (WithTop(m, frame.(scopes := frame.scopes + [[]])), None)
    case Unwind(depth) => Unwound(run, WithTop(m, frame.(scopes := Cut(frame.scopes, depth))), frame.scopes, depth)
    case Leave =>
      if open == 0 then (m.(raised := Some(TYPE_ERROR), since := |m.events|), Some(TYPE_ERROR)) else
      if open == 1 then (m.(raised := Some(NOT_NESTED), since := |m.events|), Some(NOT_NESTED)) else
      Unwound(run, WithTop(m, frame.(scopes := frame.scopes[..open - 1])), frame.scopes, open - 1)
  }

  function DoActions(run: Behaviour, m: Machine, actions: seq<BodyAction>): (r: (Machine, Option<Defect>))
    requires |m.frames| > 0
    ensures |r.0.frames| == |m.frames|
    decreases |actions|
  {
    if |actions| == 0 then (m, None) else
    var (m1, defect) := DoAction(run, m, actions[0]);
    if defect.Some? then (m1, defect) else DoActions(run, m1, actions[1..])
  }

  /** A value for the frame below, or for whoever started the activation. */
  function Deliver(m: Machine, resultSlot: Option<nat>, value: Value): Machine {
    if |m.frames| == 0 then m.(status := Finished(value)) else
    if resultSlot.None? then m else
    WithTop(m, TopFrame(m).(locals := TopFrame(m).locals[resultSlot.value := value]))
  }

  function DoTerminal(run: Behaviour, owned: bool, m: Machine, terminal: Terminal): Machine
    requires |m.frames| > 0
  {
    var frame := TopFrame(m);
    match terminal
    case Push(target, resumeState, resultSlot) =>
      var m1 := WithTop(m, frame.(resumeState := resumeState));
      (match target
       case Nymph(args) => Pushed(m1, args, Some(resultSlot))
       case External(Value(v)) => WithTop(m1, TopFrame(m1).(locals := frame.locals[resultSlot := v]))
       case External(Throws(d)) => RaiseDefect(run, owned, m1, d))
    case Tail(target) =>
      var (m1, defect) := Unwound(run, Popped(m), frame.scopes, 0);
      if defect.Some? then ThrowDefect(run, owned, m1, defect.value) else
      (match target
       case Nymph(args) => Pushed(m1, args, frame.resultSlot)
       case External(Value(v)) => Deliver(m1, frame.resultSlot, v)
       case External(Throws(d)) => RaiseDefect(run, owned, m1, d))
    case Return(value) =>
      var (m1, defect) := Unwound(run, Popped(m), frame.scopes, 0);
      if defect.Some? then ThrowDefect(run, owned, m1, defect.value) else Deliver(m1, frame.resultSlot, value)
    case Suspend(effect, resumeState, resultSlot) =>
      var m1 := WithTop(m, frame.(resumeState := resumeState));
      if effect.Throws? then RaiseDefect(run, owned, m1, effect.defect)
      else m1.(status := Suspended(resultSlot, effect.value))
    case Resume(value, resumeState, resultSlot) =>
      WithTop(m, frame.(resumeState := resumeState, locals := frame.locals[resultSlot := value]))
    case Raise(defect) => RaiseDefect(run, owned, m, defect)
    case NotATerminal => RaiseDefect(run, owned, m, NON_TERMINAL)
    case Unknown => RaiseDefect(run, owned, m, UNKNOWN_TERMINAL)
  }

  function TakeTurn(run: Behaviour, owned: bool, m: Machine, turn: Turn): Machine
    requires |m.frames| > 0
  {
    var (m1, defect) := DoActions(run, m, turn.actions);
    if defect.Some? then ThrowDefect(run, owned, m1, defect.value) else DoTerminal(run, owned, m1, turn.terminal)
  }

  /** What can happen to an activation from outside: the driver calls the top frame, a suspension is settled one way or
      the other, the execution that owns it finalises its pending defect, perhaps under another primary one. */
  datatype Command = Drive(turn: Turn) | Settle(value: Value) | Cancel(reason: Defect) | Finalize(primary: Option<Defect>)

  /** A command that does not apply is refused and changes nothing. */
  function Step(run: Behaviour, owned: bool, m: Machine, c: Command): Machine {
    match c
    case Drive(turn) => if m.status.Active? && |m.frames| > 0 then TakeTurn(run, owned, m, turn) else m
    case Settle(value) =>
      if m.status.Suspended? && |m.frames| > 0
      then WithTop(m, TopFrame(m).(locals := TopFrame(m).locals[m.status.resultSlot := value])).(status := Active) else m
    case Cancel(reason) =>
      if m.status.Suspended? then UnwindAll(run, m.(raised := Some(reason), since := |m.events|), reason) else m
    case Finalize(primary) =>
      if !m.status.Pending? then m
      else if primary.None? then UnwindAll(run, m, m.status.defect)
      else UnwindAll(run, m.(raised := primary, since := |m.events|, replaced := true), primary.value)
  }

  function Run(run: Behaviour, owned: bool, m: Machine, commands: seq<Command>): Machine
    decreases |commands|
  {
    if |commands| == 0 then m else Run(run, owned, Step(run, owned, m, commands[0]), commands[1..])
  }

  function Launch(args: seq<Value>): Machine {
    Machine([NewFrame(args, None)], [], 0, Active, None, 0, false)
  }

  // ----- replaying the history -----

  /** The cleanups registered and not yet run, oldest first, or `None` when one ran that was not the latest. */
  function Replay(events: seq<Event>): Option<seq<Cleanup>>
    decreases |events|
  {
    if |events| == 0 then Some([]) else
    var open := Replay(events[..|events| - 1]);
    if open.None? then None else
    match events[|events| - 1]
    case Registered(c) => Some(open.value + [c])
    case Ran(c, _) =>
      if |open.value| > 0 && open.value[|open.value| - 1] == c then Some(open.value[..|open.value| - 1]) else None
  }

  function Flat(scopes: seq<seq<Cleanup>>): seq<Cleanup>
    decreases |scopes|
  {
    if |scopes| == 0 then [] else Flat(scopes[..|scopes| - 1]) + scopes[|scopes| - 1]
  }

  /** Every cleanup the frames still hold, in the order of registration. */
  function Held(frames: seq<Frame>): seq<Cleanup>
    decreases |frames|
  {
    if |frames| == 0 then [] else Held(frames[..|frames| - 1]) + Flat(frames[|frames| - 1].scopes)
  }

  lemma ReplayOne(events: seq<Event>, e: Event)
    ensures Replay(events + [e]) ==
            var open := Replay(events);
            if open.None? then None
            else if e.Registered? then Some(open.value + [e.cleanup])
            else if |open.value| > 0 && open.value[|open.value| - 1] == e.cleanup then Some(open.value[..|open.value| - 1])
            else None
  {
    assert (events + [e])[..|events|] == events;
  }

  /** A scope at the end of what is held runs down to what was held before it. */
  lemma {:induction false} ScopeRuns(run: Behaviour, events: seq<Event>, rest: seq<Cleanup>, cleanups: seq<Cleanup>)
    requires Replay(events) == Some(rest + cleanups)
    ensures Replay(events + RunScope(run, cleanups)) == Some(rest)
    decreases |cleanups|
  {
    hide Replay;
    if |cleanups| == 0 {
      assert events + [] == events && rest + [] == rest;
    } else {
      var last := cleanups[|cleanups| - 1];
      var e := Ran(last, run(last));
      var init := cleanups[..|cleanups| - 1];
      ReplayOne(events, e);
      assert (rest + cleanups)[..|rest + cleanups| - 1] == rest + init;
      ScopeRuns(run, events + [e], rest, init);
      assert events + [e] + RunScope(run, init) == events + RunScope(run, cleanups);
    }
  }

  lemma Regroup<T>(a: seq<T>, b: seq<T>, c: seq<T>)
    ensures a + b + c == a + (b + c)
  {
  }

  lemma FlatLast(scopes: seq<seq<Cleanup>>)
    requires |scopes| > 0
    ensures Flat(scopes) == Flat(scopes[..|scopes| - 1]) + scopes[|scopes| - 1]
  {
  }

  lemma {:induction false} ScopesRun(run: Behaviour, events: seq<Event>, rest: seq<Cleanup>, scopes: seq<seq<Cleanup>>, depth: nat)
    requires Replay(events) == Some(rest + Flat(scopes))
    ensures Replay(events + RunScopes(run, scopes, depth)) == Some(rest + Flat(Cut(scopes, depth)))
    decreases |scopes|
  {
    hide Replay, Flat, RunScope;
    if |scopes| <= depth {
      assert events + [] == events;
    } else {
      var init, last := scopes[..|scopes| - 1], scopes[|scopes| - 1];
      FlatLast(scopes);
      Regroup(rest, Flat(init), last);
      ScopeRuns(run, events, rest + Flat(init), last);
      ScopesRun(run, events + RunScope(run, last), rest, init, depth);
      assert Cut(init, depth) == Cut(scopes, depth);
      Regroup(events, RunScope(run, last), RunScopes(run, init, depth));
    }
  }

  lemma {:induction false} FramesRun(run: Behaviour, events: seq<Event>, frames: seq<Frame>)
    requires Replay(events) == Some(Held(frames))
    ensures Replay(events + RunFrames(run, frames)) == Some([])
    decreases |frames|
  {
    hide Replay, RunScopes;
    if |frames| == 0 {
      assert events + [] == events;
    } else {
      var init, last := frames[..|frames| - 1], frames[|frames| - 1];
      ScopesRun(run, events, Held(init), last.scopes, 0);
      assert Cut(last.scopes, 0) == [] && Held(init) + [] == Held(init);
      FramesRun(run, events + RunScopes(run, last.scopes, 0), init);
      Regroup(events, RunScopes(run, last.scopes, 0), RunFrames(run, init));
    }
  }

  // ----- what holds of every run -----

  ghost predicate Numbered(m: Machine) {
    && (forall i | 0 <= i < |m.events| && m.events[i].Registered? :: m.events[i].cleanup < m.next)
    && (forall i, j | 0 <= i < j < |m.events| && m.events[i].Registered? && m.events[j].Registered? ::
          m.events[i].cleanup != m.events[j].cleanup)
  }

  /** The history replays to what the frames hold. */
  ghost predicate Tracked(m: Machine) {
    Replay(m.events) == Some(Held(m.frames))
  }

  /** The defect in flight is the raised one, if any, with every cleanup failure since joined on in order; until there
      is one no cleanup has failed. */
  ghost predicate Reported(m: Machine) {
    m.since <= |m.events| &&
    match m.status
    case Active => Failures(m.events) == []
    case Suspended(_, _) => Failures(m.events) == []
    case Finished(_) => Failures(m.events) == []
    case Pending(d) => Carries(m, d)
    case Failed(d) => Carries(m, d)
  }

  /** The defect is the one in flight, and no failure from before it has been left out. */
  ghost predicate Carries(m: Machine, d: Defect)
    requires m.since <= |m.events|
  {
    Some(d) == Collect(m.raised, Failures(m.events[m.since..])) && (!m.replaced ==> Failures(m.events[..m.since]) == [])
  }

  /** An activation that has ended holds no frame; one that can go on has one. Only an owned one keeps a defect
      pending. */
  ghost predicate Placed(owned: bool, m: Machine) {
    match m.status
    case Active => |m.frames| > 0
    case Suspended(_, _) => |m.frames| > 0
    case Pending(_) => owned
    case Finished(_) => m.frames == []
    case Failed(_) => m.frames == []
  }

  ghost predicate Inv(owned: bool, m: Machine) {
    Numbered(m) && Tracked(m) && Reported(m) && Placed(owned, m) && Slotted(m)
  }

  /** Only the root frame has nowhere to deliver to. */
  ghost predicate Slotted(m: Machine) {
    forall i | 0 <= i < |m.frames| :: m.frames[i].resultSlot.None? <==> i == 0
  }

  function Failure(e: Event): seq<Defect> {
    if e.Ran? && e.failure.Some? then [e.failure.value] else []
  }

  lemma FailuresHead(e: Event, rest: seq<Event>)
    ensures Failures([e] + rest) == Failure(e) + Failures(rest)
  {
    assert ([e] + rest)[1..] == rest;
  }

  lemma {:induction false} FailuresJoin(a: seq<Event>, b: seq<Event>)
    ensures Failures(a + b) == Failures(a) + Failures(b)
    decreases |a|
  {
    if |a| == 0 {
      assert a + b == b;
    } else {
      hide Failures, Failure;
      FailuresJoin(a[1..], b);
      FailuresHead(a[0], a[1..]);
      FailuresHead(a[0], a[1..] + b);
      Regroup([a[0]], a[1..], b);
      Regroup(Failure(a[0]), Failures(a[1..]), Failures(b));
      assert [a[0]] + a[1..] == a;
    }
  }

  lemma {:induction false} CollectJoins(primary: Option<Defect>, a: seq<Defect>, b: seq<Defect>)
    ensures Collect(Collect(primary, a), b) == Collect(primary, a + b)
    decreases |a|
  {
    if |a| == 0 {
      assert a + b == b;
    } else {
      CollectJoins(Some(AddDefect(primary, a[0])), a[1..], b);
      assert (a + b)[1..] == a[1..] + b;
    }
  }

  lemma {:induction false} CollectSome(primary: Option<Defect>, failures: seq<Defect>)
    ensures Collect(primary, failures).None? <==> primary.None? && failures == []
    decreases |failures|
  {
    if |failures| > 0 { CollectSome(Some(AddDefect(primary, failures[0])), failures[1..]); }
  }

  function ErrorsOf(d: Defect): seq<Defect> {
    if d.Aggregate? then d.errors else [d]
  }

  /** What is reported: nothing, a single defect as it is, or one aggregate whose errors are those of the first defect
      followed by every later failure in the order the cleanups ran. */
  lemma {:induction false} ReportedInOrder(primary: Option<Defect>, failures: seq<Defect>)
    ensures var all := (if primary.Some? then [primary.value] else []) + failures;
            Collect(primary, failures) ==
              if |all| == 0 then None else if |all| == 1 then Some(all[0]) else Some(Aggregate(ErrorsOf(all[0]) + all[1..]))
    decreases |failures|
  {
    if |failures| > 0 {
      var first := AddDefect(primary, failures[0]);
      ReportedInOrder(Some(first), failures[1..]);
      var all := (if primary.Some? then [primary.value] else []) + failures;
      if primary.Some? {
        assert all[1..] == failures && [first] + failures[1..] == [first] + failures[1..];
        if |failures| == 1 {
          assert failures == [failures[0]];
        } else {
          assert ErrorsOf(primary.value) + [failures[0]] + failures[1..] == ErrorsOf(primary.value) + failures;
        }
      } else {
        assert all == failures && [first] + failures[1..] == failures;
      }
    }
  }

  // ----- one lemma for each kind of step -----

  lemma {:induction false} RanOnly(run: Behaviour, cleanups: seq<Cleanup>)
    ensures forall i | 0 <= i < |RunScope(run, cleanups)| :: RunScope(run, cleanups)[i].Ran?
    decreases |cleanups|
  {
    if |cleanups| > 0 { RanOnly(run, cleanups[..|cleanups| - 1]); }
  }

  lemma {:induction false} ScopesRanOnly(run: Behaviour, scopes: seq<seq<Cleanup>>, depth: nat)
    ensures forall i | 0 <= i < |RunScopes(run, scopes, depth)| :: RunScopes(run, scopes, depth)[i].Ran?
    decreases |scopes|
  {
    if |scopes| > depth {
      RanOnly(run, scopes[|scopes| - 1]);
      ScopesRanOnly(run, scopes[..|scopes| - 1], depth);
    }
  }

  lemma {:induction false} FramesRanOnly(run: Behaviour, frames: seq<Frame>)
    ensures forall i | 0 <= i < |RunFrames(run, frames)| :: RunFrames(run, frames)[i].Ran?
    decreases |frames|
  {
    if |frames| > 0 {
      ScopesRanOnly(run, frames[|frames| - 1].scopes, 0);
      FramesRanOnly(run, frames[..|frames| - 1]);
    }
  }

  lemma NumberedAfter(m: Machine, ran: seq<Event>, m1: Machine)
    requires Numbered(m) && m1.events == m.events + ran && m1.next == m.next
    requires forall i | 0 <= i < |ran| :: ran[i].Ran?
    ensures Numbered(m1)
  {}

  /** The frames are all unwound under a defect in flight. */
  lemma UnwindAllKeeps(run: Behaviour, owned: bool, m: Machine, primary: Defect)
    requires Numbered(m) && Tracked(m) && m.since <= |m.events|
    requires Carries(m, primary)
    ensures Inv(owned, UnwindAll(run, m, primary))
  {
    hide Replay, RunFrames, Held, Collect, Failures;
    var ran := RunFrames(run, m.frames);
    var m1 := UnwindAll(run, m, primary);
    FramesRun(run, m.events, m.frames);
    HeldByNone();
    FramesRanOnly(run, m.frames);
    NumberedAfter(m, ran, m1);
    CollectSome(Some(primary), Failures(ran));
    assert m1.events[m.since..] == m.events[m.since..] + ran && m1.events[..m.since] == m.events[..m.since];
    FailuresJoin(m.events[m.since..], ran);
    CollectJoins(m.raised, Failures(m.events[m.since..]), Failures(ran));
  }

  lemma HeldByNone()
    ensures Held([]) == []
  {}

  lemma ThrowKeeps(run: Behaviour, owned: bool, m: Machine, primary: Defect)
    requires Numbered(m) && Tracked(m) && Slotted(m) && m.since <= |m.events|
    requires Carries(m, primary)
    ensures Inv(owned, ThrowDefect(run, owned, m, primary))
  {
    hide Numbered, Tracked, Collect, Failures, Inv, UnwindAll;
    if owned {
      PendingKeeps(owned, m, primary);
    } else {
      UnwindAllKeeps(run, owned, m, primary);
    }
  }

  lemma PendingKeeps(owned: bool, m: Machine, primary: Defect)
    requires owned && Numbered(m) && Tracked(m) && Slotted(m) && m.since <= |m.events|
    requires Carries(m, primary)
    ensures Inv(owned, m.(status := Pending(primary)))
  {
    hide Replay, Collect, Failures;
  }

  lemma RaiseKeeps(run: Behaviour, owned: bool, m: Machine, defect: Defect)
    requires Numbered(m) && Tracked(m) && Slotted(m) && Failures(m.events) == []
    ensures Inv(owned, RaiseDefect(run, owned, m, defect))
  {
    var m1 := m.(raised := Some(defect), since := |m.events|);
    assert m1.events[m1.since..] == [] && m1.events[..m1.since] == m1.events;
    ThrowKeeps(run, owned, m1, defect);
  }

  /** Replacing the top frame's scopes changes only the end of what is held. */
  lemma HeldTop(frames: seq<Frame>, frame: Frame)
    requires |frames| > 0
    ensures Held(frames[|frames| - 1 := frame]) == Held(frames[..|frames| - 1]) + Flat(frame.scopes)
  {
    assert frames[|frames| - 1 := frame][..|frames| - 1] == frames[..|frames| - 1];
  }

  lemma HeldPushed(frames: seq<Frame>, args: seq<Value>, resultSlot: Option<nat>)
    ensures Held(frames + [NewFrame(args, resultSlot)]) == Held(frames)
  {
    assert (frames + [NewFrame(args, resultSlot)])[..|frames|] == frames;
    var scopes: seq<seq<Cleanup>> := [[]];
    assert scopes[..0] == [] && Flat(scopes) == [] + [];
    assert NewFrame(args, resultSlot).scopes == scopes;
    assert Held(frames) + [] == Held(frames);
  }

  /** Scopes at the end of what is held are run down to `depth`; without a failure nothing is in flight. */
  lemma UnwoundKeeps(run: Behaviour, m: Machine, scopes: seq<seq<Cleanup>>, depth: nat)
    requires Numbered(m) && Failures(m.events) == []
    ensures var (m1, defect) := Unwound(run, m, scopes, depth);
            && Numbered(m1) && m1.frames == m.frames && m1.since <= |m1.events|
            && defect == Collect(m1.raised, Failures(m1.events[m1.since..]))
            && Failures(m1.events[..m1.since]) == []
            && (defect.None? ==> Failures(m1.events) == [])
  {
    hide Replay, RunScopes, Held, Collect, Failures;
    var ran := RunScopes(run, scopes, depth);
    var m1 := Unwound(run, m, scopes, depth).0;
    ScopesRanOnly(run, scopes, depth);
    NumberedAfter(m, ran, m1);
    assert m1.events[m1.since..] == ran && m1.events[..m1.since] == m.events;
    CollectSome(None, Failures(ran));
    FailuresJoin(m.events, ran);
  }

  /** Between two operations of a state function: nothing has failed and the history is tracked. */
  ghost predicate Sane(m: Machine) {
    |m.frames| > 0 && Numbered(m) && Tracked(m) && Slotted(m) && m.status.Active? && Failures(m.events) == []
  }

  /** After an operation that threw: the defect is the one in flight. */
  ghost predicate Broken(m: Machine, defect: Defect) {
    Numbered(m) && Tracked(m) && Slotted(m) && m.since <= |m.events| && Carries(m, defect)
  }

  lemma RegisterKeeps(run: Behaviour, m: Machine)
    requires Sane(m) && |TopFrame(m).scopes| > 0
    ensures Sane(DoAction(run, m, Register).0)
  {
    hide Replay, Failures;
    var frame, open := TopFrame(m), |TopFrame(m).scopes|;
    var m1 := DoAction(run, m, Register).0;
    var scopes := frame.scopes[open - 1 := frame.scopes[open - 1] + [m.next]];
    assert scopes[..open - 1] == frame.scopes[..open - 1];
    assert Flat(scopes) == Flat(frame.scopes) + [m.next];
    HeldTop(m.frames, frame.(scopes := scopes));
    assert Held(m1.frames) == Held(m.frames) + [m.next];
    ReplayOne(m.events, Registered(m.next));
    FailuresJoin(m.events, [Registered(m.next)]);
    assert Failures([Registered(m.next)]) == [] by { OneRegistered(m.next); }
  }

  lemma OneRegistered(c: Cleanup)
    ensures Failures([Registered(c)]) == []
  {
    assert [Registered(c)][1..] == [];
  }

  lemma EnterKeeps(run: Behaviour, m: Machine)
    requires Sane(m)
    ensures Sane(DoAction(run, m, Enter).0)
  {
    hide Replay, Failures;
    var frame := TopFrame(m);
    var scopes := frame.scopes + [[]];
    assert scopes[..|frame.scopes|] == frame.scopes;
    assert Flat(scopes) == Flat(frame.scopes);
    HeldTop(m.frames, frame.(scopes := scopes));
  }

  /** Unwinding the top frame to `depth`, as `Unwind` and `Leave` do. */
  lemma TopUnwindKeeps(run: Behaviour, m: Machine, depth: nat)
    requires Sane(m)
    ensures var frame := TopFrame(m);
            var (m1, defect) := Unwound(run, WithTop(m, frame.(scopes := Cut(frame.scopes, depth))), frame.scopes, depth);
            if defect.Some? then Broken(m1, defect.value) else Sane(m1)
  {
    hide Replay, Failures, Collect, RunScopes;
    var frame := TopFrame(m);
    var cut := WithTop(m, frame.(scopes := Cut(frame.scopes, depth)));
    UnwoundKeeps(run, cut, frame.scopes, depth);
    HeldTop(m.frames, frame.(scopes := Cut(frame.scopes, depth)));
    ScopesRun(run, m.events, Held(m.frames[..|m.frames| - 1]), frame.scopes, depth);
  }

  lemma ActionKeeps(run: Behaviour, m: Machine, action: BodyAction)
    requires Sane(m)
    ensures var (m1, defect) := DoAction(run, m, action);
            if defect.Some? then Broken(m1, defect.value) else Sane(m1)
  {
    assert |m.frames| > 0;
    hide Sane, Broken, Unwound;
    var open := |TopFrame(m).scopes|;
    match action
    case Register => if open > 0 { RegisterKeeps(run, m); } else { ErrorBreaks(m, TYPE_ERROR); }
    case Enter => EnterKeeps(run, m);
    case Unwind(depth) => TopUnwindKeeps(run, m, depth);
    case Leave =>
      if open > 1 {
        TopUnwindKeeps(run, m, open - 1);
      } else {
        ErrorBreaks(m, if open == 0 then TYPE_ERROR else NOT_NESTED);
      }
  }

  lemma ErrorBreaks(m: Machine, d: Defect)
    requires Sane(m)
    ensures Broken(m.(raised := Some(d), since := |m.events|), d)
  {
    hide Replay, Held, Numbered, Slotted;
    var m1 := m.(raised := Some(d), since := |m.events|);
    assert m1.events[m1.since..] == [] && m1.events[..m1.since] == m.events;
    assert Numbered(m1) && Slotted(m1) by { SameHistory(m, m1); }
  }

  lemma SameHistory(m: Machine, m1: Machine)
    requires Numbered(m) && Slotted(m) && m1.events == m.events && m1.next == m.next && m1.frames == m.frames
    ensures Numbered(m1) && Slotted(m1)
  {}

  lemma {:induction false} ActionsKeep(run: Behaviour, m: Machine, actions: seq<BodyAction>)
    requires Sane(m)
    ensures var (m1, defect) := DoActions(run, m, actions);
            if defect.Some? then Broken(m1, defect.value) else Sane(m1)
    decreases |actions|
  {
    assert |m.frames| > 0;
    hide Sane, Broken, DoAction;
    if |actions| > 0 {
      ActionKeeps(run, m, actions[0]);
      var (m1, defect) := DoAction(run, m, actions[0]);
      if defect.None? { ActionsKeep(run, m1, actions[1..]); }
    }
  }

  lemma BrokenThrows(run: Behaviour, owned: bool, m: Machine, defect: Defect)
    requires Broken(m, defect)
    ensures Inv(owned, ThrowDefect(run, owned, m, defect))
  {
    ThrowKeeps(run, owned, m, defect);
  }

  /** Changing anything of the top frame but its scopes and its result slot. */
  lemma TopChanged(m: Machine, frame: Frame)
    requires Sane(m) && frame.scopes == TopFrame(m).scopes && frame.resultSlot == TopFrame(m).resultSlot
    ensures Sane(WithTop(m, frame))
  {
    hide Replay, Failures;
    HeldTop(m.frames, frame);
    assert m.frames[|m.frames| - 1 := TopFrame(m)] == m.frames;
  }

  lemma SaneIsInv(owned: bool, m: Machine)
    requires Sane(m) && m.since <= |m.events|
    ensures Inv(owned, m)
    ensures forall slot, v :: Inv(owned, m.(status := Suspended(slot, v)))
  {
    hide Replay, Failures, Collect;
  }

  lemma PushedKeeps(m: Machine, args: seq<Value>, resultSlot: Option<nat>)
    requires Numbered(m) && Tracked(m) && Slotted(m) && m.status.Active? && Failures(m.events) == []
    requires resultSlot.None? <==> m.frames == []
    ensures Sane(Pushed(m, args, resultSlot))
  {
    hide Replay, Failures;
    HeldPushed(m.frames, args, resultSlot);
  }

  /** The frame below may be the one that is gone: then the activation is finished. */
  lemma DeliverKeeps(owned: bool, m: Machine, resultSlot: Option<nat>, v: Value)
    requires Numbered(m) && Tracked(m) && Slotted(m) && m.status.Active? && Failures(m.events) == [] && m.since <= |m.events|
    requires resultSlot.None? <==> m.frames == []
    ensures Inv(owned, Deliver(m, resultSlot, v))
  {
    hide Replay, Failures, Collect;
    if |m.frames| > 0 {
      var frame := TopFrame(m).(locals := TopFrame(m).locals[resultSlot.value := v]);
      TopChanged(m, frame);
      SaneIsInv(owned, WithTop(m, frame));
    }
  }

  /** The top frame is popped and everything it holds is run. */
  lemma PopKeeps(run: Behaviour, m: Machine)
    requires Sane(m)
    ensures var (m1, defect) := Unwound(run, Popped(m), TopFrame(m).scopes, 0);
            && m1.status.Active? && m1.since <= |m1.events|
            && (TopFrame(m).resultSlot.None? <==> m1.frames == [])
            && if defect.Some? then Broken(m1, defect.value)
               else Numbered(m1) && Tracked(m1) && Slotted(m1) && Failures(m1.events) == []
  {
    hide Replay, Failures, Collect, RunScopes;
    var frame := TopFrame(m);
    UnwoundKeeps(run, Popped(m), frame.scopes, 0);
    ScopesRun(run, m.events, Held(m.frames[..|m.frames| - 1]), frame.scopes, 0);
    assert Cut(frame.scopes, 0) == [] && Held(m.frames[..|m.frames| - 1]) + [] == Held(m.frames[..|m.frames| - 1]);
  }

  lemma TerminalKeeps(run: Behaviour, owned: bool, m: Machine, terminal: Terminal)
    requires Sane(m) && m.since <= |m.events|
    ensures Inv(owned, DoTerminal(run, owned, m, terminal))
  {
    hide Replay, Failures, Collect, Inv, Sane, Numbered, Tracked, Slotted, Unwound, RaiseDefect, ThrowDefect, Broken;
    SaneParts(m);
    var frame := TopFrame(m);
    match terminal
    case Push(target, resumeState, resultSlot) =>
      var m1 := WithTop(m, frame.(resumeState := resumeState));
      TopChanged(m, frame.(resumeState := resumeState));
      SaneParts(m1);
      if target.Nymph? {
        PushedKeeps(m1, target.args, Some(resultSlot));
        SaneIsInv(owned, Pushed(m1, target.args, Some(resultSlot)));
      } else if target.answer.Value? {
        TopChanged(m1, TopFrame(m1).(locals := frame.locals[resultSlot := target.answer.value]));
        SaneIsInv(owned, WithTop(m1, TopFrame(m1).(locals := frame.locals[resultSlot := target.answer.value])));
      } else {
        RaiseKeeps(run, owned, m1, target.answer.defect);
      }
    case Tail(target) =>
      PopKeeps(run, m);
      var (m1, defect) := Unwound(run, Popped(m), frame.scopes, 0);
      if defect.Some? {
        BrokenThrows(run, owned, m1, defect.value);
      } else if target.Nymph? {
        PushedKeeps(m1, target.args, frame.resultSlot);
        SaneIsInv(owned, Pushed(m1, target.args, frame.resultSlot));
      } else if target.answer.Value? {
        DeliverKeeps(owned, m1, frame.resultSlot, target.answer.value);
      } else {
        RaiseKeeps(run, owned, m1, target.answer.defect);
      }
    case Return(value) =>
      PopKeeps(run, m);
      var (m1, defect) := Unwound(run, Popped(m), frame.scopes, 0);
      if defect.Some? {
        BrokenThrows(run, owned, m1, defect.value);
      } else {
        DeliverKeeps(owned, m1, frame.resultSlot, value);
      }
    case Suspend(effect, resumeState, resultSlot) =>
      var m1 := WithTop(m, frame.(resumeState := resumeState));
      TopChanged(m, frame.(resumeState := resumeState));
      SaneParts(m1);
      if effect.Throws? { RaiseKeeps(run, owned, m1, effect.defect); } else { SaneIsInv(owned, m1); }
    case Resume(value, resumeState, resultSlot) =>
      TopChanged(m, frame.(resumeState := resumeState, locals := frame.locals[resultSlot := value]));
      SaneIsInv(owned, WithTop(m, frame.(resumeState := resumeState, locals := frame.locals[resultSlot := value])));
    case Raise(defect) => RaiseKeeps(run, owned, m, defect);
    case NotATerminal => RaiseKeeps(run, owned, m, NON_TERMINAL);
    case Unknown => RaiseKeeps(run, owned, m, UNKNOWN_TERMINAL);
  }

  lemma SaneParts(m: Machine)
    requires Sane(m)
    ensures |m.frames| > 0 && Numbered(m) && Tracked(m) && Slotted(m) && m.status.Active? && Failures(m.events) == []
  {}

  lemma {:induction false} ActionsSince(run: Behaviour, m: Machine, actions: seq<BodyAction>)
    requires |m.frames| > 0 && m.since <= |m.events|
    ensures DoActions(run, m, actions).0.since <= |DoActions(run, m, actions).0.events|
    decreases |actions|
  {
    hide RunScopes, Collect;
    if |actions| > 0 {
      var (m1, defect) := DoAction(run, m, actions[0]);
      if defect.None? { ActionsSince(run, m1, actions[1..]); }
    }
  }

  /** Every step, whatever the state functions do, whichever cleanups fail, keeps what holds of a run. */
  lemma StepKeeps(run: Behaviour, owned: bool, m: Machine, c: Command)
    requires Inv(owned, m)
    ensures Inv(owned, Step(run, owned, m, c))
  {
    match c
    case Drive(turn) => if m.status.Active? { TurnKeeps(run, owned, m, turn); }
    case Settle(value) => if m.status.Suspended? { SettleKeeps(run, owned, m, value); }
    case Cancel(reason) =>
      if m.status.Suspended? {
        var m1 := m.(raised := Some(reason), since := |m.events|);
        assert m1.events[m1.since..] == [] && m1.events[..m1.since] == m.events;
        UnwindAllKeeps(run, owned, m1, reason);
      }
    case Finalize(primary) =>
      if m.status.Pending? {
        if primary.None? {
          UnwindAllKeeps(run, owned, m, m.status.defect);
        } else {
          var m1 := m.(raised := primary, since := |m.events|, replaced := true);
          assert m1.events[m1.since..] == [];
          UnwindAllKeeps(run, owned, m1, primary.value);
        }
      }
  }

  lemma TurnKeeps(run: Behaviour, owned: bool, m: Machine, turn: Turn)
    requires Inv(owned, m) && m.status.Active?
    ensures Inv(owned, TakeTurn(run, owned, m, turn))
  {
    assert Sane(m) && m.since <= |m.events|;
    hide Inv, Sane, Broken, DoActions, DoTerminal, ThrowDefect;
    ActionsKeep(run, m, turn.actions);
    ActionsSince(run, m, turn.actions);
    var (m1, defect) := DoActions(run, m, turn.actions);
    if defect.Some? {
      BrokenThrows(run, owned, m1, defect.value);
    } else {
      SaneParts(m1);
      TerminalKeeps(run, owned, m1, turn.terminal);
    }
  }

  lemma SettleKeeps(run: Behaviour, owned: bool, m: Machine, value: Value)
    requires Inv(owned, m) && m.status.Suspended?
    ensures Inv(owned, Step(run, owned, m, Settle(value)))
  {
    hide Replay, Failures, Collect;
    var active := m.(status := Active);
    var frame := TopFrame(m).(locals := TopFrame(m).locals[m.status.resultSlot := value]);
    TopChanged(active, frame);
    SaneIsInv(owned, WithTop(active, frame));
  }

  lemma {:induction false} RunKeeps(run: Behaviour, owned: bool, m: Machine, commands: seq<Command>)
    requires Inv(owned, m)
    ensures Inv(owned, Run(run, owned, m, commands))
    decreases |commands|
  {
    hide Inv, Step;
    if |commands| > 0 {
      StepKeeps(run, owned, m, commands[0]);
      RunKeeps(run, owned, Step(run, owned, m, commands[0]), commands[1..]);
    }
  }

  lemma LaunchHolds(owned: bool, args: seq<Value>)
    ensures Inv(owned, Launch(args))
  {
    HeldPushed([], args, None);
    assert [] + [NewFrame(args, None)] == [NewFrame(args, None)];
  }

  // ----- the theorems -----

  function Registrations(events: seq<Event>, c: Cleanup): nat
    decreases |events|
  {
    if |events| == 0 then 0 else
    Registrations(events[..|events| - 1], c) + if events[|events| - 1] == Registered(c) then 1 else 0
  }

  function Runnings(events: seq<Event>, c: Cleanup): nat
    decreases |events|
  {
    if |events| == 0 then 0 else
    Runnings(events[..|events| - 1], c) + if events[|events| - 1].Ran? && events[|events| - 1].cleanup == c then 1 else 0
  }

  /** In a history that replays, a cleanup has run as often as it was registered, less what is still open. */
  lemma {:induction false} ReplayCounts(events: seq<Event>, c: Cleanup)
    requires Replay(events).Some?
    ensures Registrations(events, c) == Runnings(events, c) + multiset(Replay(events).value)[c]
    decreases |events|
  {
    if |events| > 0 {
      var init, last := events[..|events| - 1], events[|events| - 1];
      ReplayCounts(init, c);
      var open := Replay(init).value;
      if last.Ran? {
        assert open == open[..|open| - 1] + [last.cleanup];
      }
    }
  }

  lemma {:induction false} OneRegistration(events: seq<Event>, c: Cleanup)
    requires forall i, j | 0 <= i < j < |events| && events[i].Registered? && events[j].Registered? :: events[i].cleanup != events[j].cleanup
    ensures Registrations(events, c) == if Registered(c) in events then 1 else 0
    decreases |events|
  {
    if |events| > 0 {
      var init, last := events[..|events| - 1], events[|events| - 1];
      OneRegistration(init, c);
      assert events == init + [last];
      if last == Registered(c) {
        assert Registered(c) !in init;
      }
    }
  }

  /** For every run of an activation, whatever its state functions do, however it is resumed or cancelled and whichever
      cleanups fail: each cleanup that has run was the latest registered one still open; and once the activation has
      ended, each registered cleanup has run exactly once and nothing else has. */
  lemma CleanupsRunOnceLatestFirst(run: Behaviour, owned: bool, args: seq<Value>, commands: seq<Command>, c: Cleanup)
    ensures var m := Run(run, owned, Launch(args), commands);
            && Replay(m.events) == Some(Held(m.frames))
            && (m.status.Finished? || m.status.Failed? ==>
                  m.frames == [] && Runnings(m.events, c) == if Registered(c) in m.events then 1 else 0)
  {
    hide Run, Replay;
    LaunchHolds(owned, args);
    RunKeeps(run, owned, Launch(args), commands);
    var m := Run(run, owned, Launch(args), commands);
    HeldByNone();
    ReplayCounts(m.events, c);
    OneRegistration(m.events, c);
  }

  /** While an activation has not failed no cleanup has; when it has failed, or keeps its defect pending, the defect is
      what was raised, if anything was, joined by every cleanup failure since in the order the cleanups ran. */
  lemma DefectsAreReportedInRunOrder(run: Behaviour, owned: bool, args: seq<Value>, commands: seq<Command>)
    ensures var m := Run(run, owned, Launch(args), commands);
            match m.status
            case Active => Failures(m.events) == []
            case Suspended(_, _) => Failures(m.events) == []
            case Finished(_) => Failures(m.events) == []
            case Pending(d) => m.since <= |m.events| && InFlight(m, d)
            case Failed(d) => m.since <= |m.events| && InFlight(m, d)
  {
    hide Run, Replay;
    LaunchHolds(owned, args);
    RunKeeps(run, owned, Launch(args), commands);
    var m := Run(run, owned, Launch(args), commands);
    ReportedInOrder(m.raised, Failures(m.events[m.since..]));
  }

  ghost predicate InFlight(m: Machine, d: Defect)
    requires m.since <= |m.events|
  {
    var all := (if m.raised.Some? then [m.raised.value] else []) + Failures(m.events[m.since..]);
    && (!m.replaced ==> Failures(m.events[..m.since]) == [])
    && |all| > 0 && d == if |all| == 1 then all[0] else Aggregate(ErrorsOf(all[0]) + all[1..])
  }

  lemma {:induction false} ActionsKeepPrimary(run: Behaviour, m: Machine, actions: seq<BodyAction>)
    requires |m.frames| > 0
    ensures DoActions(run, m, actions).0.replaced == m.replaced
    decreases |actions|
  {
    hide RunScopes, Collect;
    if |actions| > 0 {
      var (m1, defect) := DoAction(run, m, actions[0]);
      if defect.None? { ActionsKeepPrimary(run, m1, actions[1..]); }
    }
  }

  /** Only an owner that finalises under another primary defect replaces what was raised. */
  lemma {:induction false} PrimaryStays(run: Behaviour, owned: bool, m: Machine, commands: seq<Command>)
    requires forall i | 0 <= i < |commands| :: commands[i].Finalize? ==> commands[i].primary.None?
    ensures Run(run, owned, m, commands).replaced == m.replaced
    decreases |commands|
  {
    hide RunScopes, RunFrames, Collect;
    if |commands| > 0 {
      if commands[0].Drive? && |m.frames| > 0 {
        hide DoActions;
        ActionsKeepPrimary(run, m, commands[0].turn.actions);
      }
      assert Step(run, owned, m, commands[0]).replaced == m.replaced;
      PrimaryStays(run, owned, Step(run, owned, m, commands[0]), commands[1..]);
    }
  }

  /** Unless an owner finalises under another primary defect, no failure of the whole run is missing from the report. */
  lemma EveryFailureIsReported(run: Behaviour, owned: bool, args: seq<Value>, commands: seq<Command>)
    requires forall i | 0 <= i < |commands| :: commands[i].Finalize? ==> commands[i].primary.None?
    ensures var m := Run(run, owned, Launch(args), commands);
            m.status.Pending? || m.status.Failed? ==> ReportsAll(m, m.status.defect)
  {
    hide Run, Failures, InFlight, ReportsAll;
    DefectsAreReportedInRunOrder(run, owned, args, commands);
    PrimaryStays(run, owned, Launch(args), commands);
    var m := Run(run, owned, Launch(args), commands);
    if m.status.Pending? || m.status.Failed? { InFlightReportsAll(m, m.status.defect); }
  }

  /** The defect is what was raised, if anything was, with every failed cleanup of the history behind it. */
  ghost predicate ReportsAll(m: Machine, d: Defect) {
    var all := (if m.raised.Some? then [m.raised.value] else []) + Failures(m.events);
    |all| > 0 && d == if |all| == 1 then all[0] else Aggregate(ErrorsOf(all[0]) + all[1..])
  }

  lemma InFlightReportsAll(m: Machine, d: Defect)
    requires m.since <= |m.events| && InFlight(m, d) && !m.replaced
    ensures ReportsAll(m, d)
  {
    hide Failures;
    FailuresJoin(m.events[..m.since], m.events[m.since..]);
    assert m.events[..m.since] + m.events[m.since..] == m.events;
  }
}
