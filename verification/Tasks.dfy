/** Structured concurrency as atomic steps between awaits. Executions are numbered as they are created; any step of any
    execution, and a cancellation of any handle, may come next. */
module Tasks {
  import opened Values
  import opened Activation

  /** An execution is created after the one that owns it. */
  type Id = nat

  /** What a cancelled execution throws. */
  const CANCELLATION := Error(4)

  datatype Outcome = Produced(value: Value) | Cancelled | Defected(defect: Defect)

  /** Where the drive of an execution is. `Abandoned`: its suspended activation waits for the children before it is
      cancelled. `Rejected`: the recipe has failed and the drive has yet to notice. `Joining`: the drive waits for the
      children; `pending` says that the activation still holds its frames. */
  datatype Phase =
    | Created
    | Running
    | Abandoned(waiting: seq<Id>, failure: Defect)
    | Rejected(caught: Defect, pending: bool)
    | Joining(waiting: seq<Id>, caught: Defect, pending: bool)
    | Settled(outcome: Outcome, number: nat)

  /** `children` is the list the execution keeps; `adopted` remembers every child it was ever given. */
  datatype Execution = Execution(phase: Phase, aborted: bool, children: seq<Id>, adopted: seq<Id>)

  datatype Happening = ClosedFrames(id: Id) | Ended(id: Id)

  datatype World = World(executions: seq<Execution>, settlements: nat, history: seq<Happening>)

  // ----- cancellation -----

  ghost predicate Later(es: seq<Execution>, cs: seq<Id>, above: int) {
    forall i | 0 <= i < |cs| :: above < cs[i] < |es|
  }

  /** Children are younger than their owner. */
  ghost predicate Ordered(es: seq<Execution>) {
    forall x | 0 <= x < |es| :: Later(es, es[x].children, x)
  }

  /** Only abort flags of unsettled executions have been raised. */
  ghost predicate OnlyAborts(es: seq<Execution>, fs: seq<Execution>) {
    && |fs| == |es|
    && forall x | 0 <= x < |es| :: fs[x] == es[x] || (fs[x] == es[x].(aborted := true) && !es[x].phase.Settled?)
  }

  /** Cancel an execution and, unless that was done before, every unsettled child below it. */
  function CancelOne(es: seq<Execution>, x: Id): (r: seq<Execution>)
    requires Ordered(es) && x < |es|
    ensures OnlyAborts(es, r) && Ordered(r)
    ensures r[x].aborted || r[x].phase.Settled?
    decreases |es| - x, 1, 0
  {
    if es[x].phase.Settled? || es[x].aborted then es
    else CancelAll(es[x := es[x].(aborted := true)], es[x].children, x)
  }

  function CancelAll(es: seq<Execution>, cs: seq<Id>, above: Id): (r: seq<Execution>)
    requires Ordered(es) && Later(es, cs, above) && above < |es|
    ensures OnlyAborts(es, r) && Ordered(r)
    ensures forall i | 0 <= i < |cs| :: r[cs[i]].aborted || r[cs[i]].phase.Settled?
    decreases |es| - above, 0, |cs|
  {
    if |cs| == 0 then es else
    CancelAll(if es[cs[0]].phase.Settled? then es else CancelOne(es, cs[0]), cs[1..], above)
  }

  // ----- whom a cancellation reaches -----

  /** Everyone a cancellation of `x` marks: `x`, if it has neither settled nor been cancelled, and whoever a cancellation
      of one of its children would mark. Below an execution that was cancelled before, nobody is. */
  function Below(es: seq<Execution>, x: Id): (r: set<Id>)
    requires Ordered(es) && x < |es|
    ensures forall z | z in r :: x <= z < |es| && !es[z].phase.Settled? && !es[z].aborted
    decreases |es| - x, 1, 0
  {
    if es[x].phase.Settled? || es[x].aborted then {} else {x} + BelowAll(es, es[x].children, x)
  }

  function BelowAll(es: seq<Execution>, cs: seq<Id>, above: Id): (r: set<Id>)
    requires Ordered(es) && Later(es, cs, above) && above < |es|
    ensures forall z | z in r :: above < z < |es| && !es[z].phase.Settled? && !es[z].aborted
    decreases |es| - above, 0, |cs|
  {
    if |cs| == 0 then {} else Below(es, cs[0]) + BelowAll(es, cs[1..], above)
  }

  /** Exactly the flags of `marked` are up in addition. */
  function Marked(es: seq<Execution>, marked: set<Id>): (r: seq<Execution>)
    ensures |r| == |es|
    ensures forall z | 0 <= z < |es| :: r[z] == if z in marked then es[z].(aborted := true) else es[z]
  {
    seq(|es|, z requires 0 <= z < |es| => if z in marked then es[z].(aborted := true) else es[z])
  }

  /** Everyone marked from `from` on has had its own cancellation carried through. */
  ghost predicate CarriedThrough(es: seq<Execution>, marked: set<Id>, from: nat)
    requires Ordered(es)
  {
    forall z | z in marked && from <= z < |es| :: Below(es, z) <= marked
  }

  lemma MarkedIsOrdered(es: seq<Execution>, marked: set<Id>)
    requires Ordered(es)
    ensures Ordered(Marked(es, marked))
  {
    forall x | 0 <= x < |es| ensures Later(Marked(es, marked), Marked(es, marked)[x].children, x) {
      assert Later(es, es[x].children, x);
    }
  }

  /** Whoever is below one that is below `x` is below `x`. */
  lemma {:induction false} BelowNests(es: seq<Execution>, x: Id, z: Id)
    requires Ordered(es) && x < |es| && z in Below(es, x)
    ensures Below(es, z) <= Below(es, x)
    decreases |es| - x, 1, 0
  {
    if z != x { BelowAllNests(es, es[x].children, x, z); }
  }

  lemma {:induction false} BelowAllNests(es: seq<Execution>, cs: seq<Id>, above: Id, z: Id)
    requires Ordered(es) && Later(es, cs, above) && above < |es| && z in BelowAll(es, cs, above)
    ensures Below(es, z) <= BelowAll(es, cs, above)
    decreases |es| - above, 0, |cs|
  {
    if z in Below(es, cs[0]) { BelowNests(es, cs[0], z); } else { BelowAllNests(es, cs[1..], above, z); }
  }

  lemma BelowStaysMarked(es: seq<Execution>, marked: set<Id>, x: Id, from: nat)
    requires Ordered(es) && x < |es| && CarriedThrough(es, marked, from)
    ensures CarriedThrough(es, marked + Below(es, x), from)
  {
    hide Below;
    forall z | z in marked + Below(es, x) && from <= z < |es| ensures Below(es, z) <= marked + Below(es, x) {
      if z !in marked { BelowNests(es, x, z); }
    }
  }

  lemma {:induction false} CancelMarks(es: seq<Execution>, marked: set<Id>, x: Id)
    requires Ordered(es) && x < |es| && Ordered(Marked(es, marked)) && CarriedThrough(es, marked, x)
    ensures CancelOne(Marked(es, marked), x) == Marked(es, marked + Below(es, x))
    decreases |es| - x, 1, 0
  {
    hide CarriedThrough, CancelAll, BelowAll;
    if es[x].phase.Settled? || es[x].aborted {
      assert marked + Below(es, x) == marked;
    } else if x in marked {
      assert Below(es, x) <= marked by { InMarked(es, marked, x); }
      assert marked + Below(es, x) == marked;
    } else {
      OneMoreMark(es, marked, x);
      MarkedIsOrdered(es, marked + {x});
      LaterCarried(es, marked, x);
      CancelAllMarks(es, marked + {x}, es[x].children, x);
      assert marked + {x} + BelowAll(es, es[x].children, x) == marked + Below(es, x);
    }
  }

  lemma InMarked(es: seq<Execution>, marked: set<Id>, x: Id)
    requires Ordered(es) && x < |es| && CarriedThrough(es, marked, x) && x in marked
    ensures Below(es, x) <= marked
  {}

  lemma OneMoreMark(es: seq<Execution>, marked: set<Id>, x: Id)
    requires x < |es|
    ensures Marked(es, marked)[x := Marked(es, marked)[x].(aborted := true)] == Marked(es, marked + {x})
  {}

  lemma LaterCarried(es: seq<Execution>, marked: set<Id>, x: Id)
    requires Ordered(es) && x < |es| && CarriedThrough(es, marked, x)
    ensures CarriedThrough(es, marked + {x}, x + 1)
  {
    hide Below;
    forall z | z in marked + {x} && x + 1 <= z < |es| ensures Below(es, z) <= marked + {x} {
      assert z in marked;
    }
  }

  lemma NextCancelled(es: seq<Execution>, cs: seq<Id>, above: Id)
    requires Ordered(es) && Later(es, cs, above) && above < |es| && |cs| > 0
    ensures var next := if es[cs[0]].phase.Settled? then es else CancelOne(es, cs[0]);
            |next| == |es| && CancelAll(es, cs, above) == CancelAll(next, cs[1..], above)
  {}

  lemma NextBelow(es: seq<Execution>, cs: seq<Id>, above: Id)
    requires Ordered(es) && Later(es, cs, above) && above < |es| && |cs| > 0
    ensures BelowAll(es, cs, above) == Below(es, cs[0]) + BelowAll(es, cs[1..], above)
    ensures es[cs[0]].phase.Settled? ==> Below(es, cs[0]) == {}
  {}

  lemma NoneCancelled(es: seq<Execution>, cs: seq<Id>, above: Id)
    requires Ordered(es) && above < |es| && cs == []
    ensures CancelAll(es, cs, above) == es && BelowAll(es, cs, above) == {}
  {}

  lemma {:induction false} CancelAllMarks(es: seq<Execution>, marked: set<Id>, cs: seq<Id>, above: Id)
    requires Ordered(es) && Later(es, cs, above) && above < |es| && Ordered(Marked(es, marked))
    requires CarriedThrough(es, marked, above + 1)
    ensures CancelAll(Marked(es, marked), cs, above) == Marked(es, marked + BelowAll(es, cs, above))
    decreases |es| - above, 0, |cs|
  {
    hide CarriedThrough, Below, BelowAll, CancelOne, CancelAll, Ordered;
    var now := Marked(es, marked);
    if |cs| == 0 {
      NoneCancelled(es, cs, above);
      NoneCancelled(now, cs, above);
      assert marked + {} == marked;
    } else {
      var c, rest := cs[0], cs[1..];
      var more := marked + Below(es, c);
      NextBelow(es, cs, above);
      NextCancelled(now, cs, above);
      if es[c].phase.Settled? {
        assert more == marked;
      } else {
        CarriedFrom(es, marked, above + 1, c);
        CancelMarks(es, marked, c);
      }
      MarkedIsOrdered(es, more);
      BelowStaysMarked(es, marked, c, above + 1);
      CancelAllMarks(es, more, rest, above);
      assert more + BelowAll(es, rest, above) == marked + BelowAll(es, cs, above);
    }
  }

  lemma CarriedFrom(es: seq<Execution>, marked: set<Id>, from: nat, later: nat)
    requires Ordered(es) && CarriedThrough(es, marked, from) && from <= later
    ensures CarriedThrough(es, marked, later)
  {}

  /** A cancellation marks exactly those below: no one else's flag goes up, and whatever child of a marked execution it
      does not mark had settled or been cancelled before. */
  lemma CancelReaches(es: seq<Execution>, x: Id)
    requires Ordered(es) && x < |es|
    ensures CancelOne(es, x) == Marked(es, Below(es, x))
    ensures forall z, c | z in Below(es, x) && c in es[z].children :: c < |es| && (c in Below(es, x) || es[c].phase.Settled? || es[c].aborted)
  {
    hide CancelOne;
    assert Marked(es, {}) == es;
    assert CarriedThrough(es, {}, x);
    CancelMarks(es, {}, x);
    assert {} + Below(es, x) == Below(es, x);
    forall z, c | z in Below(es, x) && c in es[z].children
      ensures c < |es| && (c in Below(es, x) || es[c].phase.Settled? || es[c].aborted)
    {
      BelowNests(es, x, z);
      assert Later(es, es[z].children, z);
      ChildBelow(es, es[z].children, z, c);
    }
  }

  lemma {:induction false} ChildBelow(es: seq<Execution>, cs: seq<Id>, above: Id, c: Id)
    requires Ordered(es) && Later(es, cs, above) && above < |es| && c in cs
    ensures c < |es| && (c in BelowAll(es, cs, above) || es[c].phase.Settled? || es[c].aborted)
    decreases |cs|
  {
    if c != cs[0] { ChildBelow(es, cs[1..], above, c); }
  }

  // ----- outcomes -----

  /** What a child adds to the defect of its owner: a defected child that was cancelled on the way contributes only
      what went wrong besides. */
  function ChildDefects(o: Outcome): seq<Defect> {
    if !o.Defected? then []
    else if o.defect.Aggregate? && |o.defect.errors| > 0 && o.defect.errors[0] == CANCELLATION then o.defect.errors[1..]
    else [o.defect]
  }

  /** A defect that is not there yet joins the others. */
  function AppendOne(primary: Defect, d: Defect): Defect {
    if primary == d || (primary.Aggregate? && d in primary.errors) then primary else AddDefect(Some(primary), d)
  }

  function AppendDefects(primary: Defect, defects: seq<Defect>): Defect
    decreases |defects|
  {
    if |defects| == 0 then primary else AppendDefects(AppendOne(primary, defects[0]), defects[1..])
  }

  function AppendChildDefects(primary: Defect, outcomes: seq<Outcome>): Defect
    decreases |outcomes|
  {
    if |outcomes| == 0 then primary
    else AppendChildDefects(AppendDefects(primary, ChildDefects(outcomes[0])), outcomes[1..])
  }

  function OutcomeOf(failure: Defect): Outcome {
    if failure == CANCELLATION then Cancelled else Defected(failure)
  }

  /** A primary defect with the failures of the cleanups that ran under it. */
  function WithFailures(primary: Defect, failures: seq<Defect>): Defect {
    var d := Collect(Some(primary), failures);
    if d.Some? then d.value else primary
  }

  // ----- steps -----

  predicate AllSettled(es: seq<Execution>, cs: seq<Id>) {
    forall i | 0 <= i < |cs| :: cs[i] < |es| && es[cs[i]].phase.Settled?
  }

  function OutcomesOf(es: seq<Execution>, cs: seq<Id>): seq<Outcome>
    requires AllSettled(es, cs)
  {
    seq(|cs|, i requires 0 <= i < |cs| => es[cs[i]].phase.outcome)
  }

  datatype Action =
    | SpawnRoot
    | Start(x: Id)
    | Spawn(x: Id)
    | CancelCall(x: Id)
    | Complete(x: Id, value: Value)
    | Throw(x: Id, defect: Defect, pending: bool)
    | Abandon(x: Id, failure: Defect)
    | CloseFrames(x: Id, failures: seq<Defect>)
    | Catch(x: Id)
    | JoinDone(x: Id, failures: seq<Defect>)

  function Fresh(): Execution {
    Execution(Created, false, [], [])
  }

  function SetPhase(w: World, x: Id, phase: Phase): World
    requires x < |w.executions|
  {
    w.(executions := w.executions[x := w.executions[x].(phase := phase)])
  }

  /** The drive has caught a failure: every child is cancelled, the list is taken over and waited for. */
  function CaughtBy(w: World, x: Id, caught: Defect, pending: bool): World
    requires Ordered(w.executions) && x < |w.executions|
  {
    var children := w.executions[x].children;
    var es := CancelAll(w.executions, children, x);
    w.(executions := es[x := es[x].(phase := Joining(children, caught, pending), children := [])])
  }

  function Settle(w: World, x: Id, outcome: Outcome): World
    requires x < |w.executions|
  {
    SetPhase(w, x, Settled(outcome, w.settlements)).(settlements := w.settlements + 1, history := w.history + [Ended(x)])
  }

  function SpawnIn(w: World, x: Id): World
    requires x < |w.executions|
  {
    var child := |w.executions|;
    var e := w.executions[x];
    w.(executions := w.executions[x := e.(children := e.children + [child], adopted := e.adopted + [child])] + [Fresh()])
  }

  /** A step that is not enabled changes nothing. */
  function Step(w: World, a: Action): World
    requires Ordered(w.executions)
  {
    if a.SpawnRoot? then w.(executions := w.executions + [Fresh()]) else
    if a.x >= |w.executions| then w else
    var es, x := w.executions, a.x;
    var phase := es[x].phase;
    match a
    case Start(_) => if phase.Created? then SetPhase(w, x, Running) else w
    case Spawn(_) => if phase.Running? then SpawnIn(w, x) else w
    case CancelCall(_) => w.(executions := CancelOne(es, x))
    case Complete(_, value) =>
      if !phase.Running? then w
      else if es[x].aborted then CaughtBy(w, x, CANCELLATION, false)
      else Settle(w, x, Produced(value))
    case Throw(_, defect, pending) => if phase.Running? then SetPhase(w, x, Rejected(defect, pending)) else w
    case Abandon(_, failure) =>
      if !phase.Running? then w else
      var after := CancelAll(es, es[x].children, x);
      w.(executions := after[x := after[x].(phase := Abandoned(es[x].children, failure), children := [])])
    case CloseFrames(_, failures) =>
      if !phase.Abandoned? || !AllSettled(es, phase.waiting) then w else
      var primary := AppendChildDefects(phase.failure, OutcomesOf(es, phase.waiting));
      SetPhase(w, x, Rejected(WithFailures(primary, failures), false)).(history := w.history + [ClosedFrames(x)])
    case Catch(_) => if phase.Rejected? then CaughtBy(w, x, phase.caught, phase.pending) else w
    case JoinDone(_, failures) =>
      if !phase.Joining? || !AllSettled(es, phase.waiting) then w else
      var primary := AppendChildDefects(phase.caught, OutcomesOf(es, phase.waiting));
      if phase.pending
      then Settle(w.(history := w.history + [ClosedFrames(x)]), x, OutcomeOf(WithFailures(primary, failures)))
      else Settle(w, x, OutcomeOf(primary))
  }

  /** A cancellation raises the flag and goes through the children, unless the execution has settled or was cancelled. */
  lemma CancelUnfolds(w: World, x: Id)
    requires Ordered(w.executions) && x < |w.executions|
    ensures Step(w, CancelCall(x)) == w.(executions := CancelOne(w.executions, x)) && Ordered(CancelOne(w.executions, x))
    ensures var es, e := w.executions, w.executions[x];
            if e.phase.Settled? || e.aborted then CancelOne(es, x) == es
            else var fs := es[x := e.(aborted := true)];
                 Ordered(fs) && Later(fs, e.children, x) && CancelOne(es, x) == CancelAll(fs, e.children, x)
  {}

  // ----- what every interleaving keeps -----

  function Waiting(phase: Phase): seq<Id> {
    if phase.Abandoned? || phase.Joining? then phase.waiting else []
  }

  /** Everything adopted is still listed, waited for, or settled. */
  ghost predicate Accounted(es: seq<Execution>, x: Id)
    requires x < |es|
  {
    && Later(es, Waiting(es[x].phase), x) && Later(es, es[x].adopted, x)
    && (forall i | 0 <= i < |es[x].adopted| ::
          var c := es[x].adopted[i]; c in es[x].children || c in Waiting(es[x].phase) || es[c].phase.Settled?)
  }

  /** Once the recipe is over no child is left in the list; whoever is waited for has been cancelled or is settled;
      a settlement as produced is never one of a cancelled execution. */
  ghost predicate Disciplined(es: seq<Execution>, x: Id)
    requires x < |es| && Later(es, Waiting(es[x].phase), x)
  {
    var e := es[x];
    && (e.phase.Created? ==> e.children == [] && e.adopted == [])
    && (e.phase.Abandoned? || e.phase.Joining? ==> e.children == [])
    && (forall i | 0 <= i < |Waiting(e.phase)| :: es[Waiting(e.phase)[i]].aborted || es[Waiting(e.phase)[i]].phase.Settled?)
    && (e.phase.Settled? && e.phase.outcome.Produced? ==> !e.aborted)
    && (e.phase.Settled? && !e.phase.outcome.Produced? ==> e.children == [])
  }

  ghost predicate NumberedOnce(w: World) {
    && (forall x | 0 <= x < |w.executions| && w.executions[x].phase.Settled? :: w.executions[x].phase.number < w.settlements)
    && (forall x, y | 0 <= x < y < |w.executions| && w.executions[x].phase.Settled? && w.executions[y].phase.Settled? ::
          w.executions[x].phase.number != w.executions[y].phase.number)
  }

  /** Every adopted child had ended by then. */
  ghost predicate ChildrenEnded(w: World, x: Id, i: nat)
    requires x < |w.executions| && i <= |w.history|
  {
    forall k | 0 <= k < |w.executions[x].adopted| :: Ended(w.executions[x].adopted[k]) in w.history[..i]
  }

  ghost predicate Chronicled(w: World) {
    && (forall x: Id :: Ended(x) in w.history <==> x < |w.executions| && w.executions[x].phase.Settled?)
    && (forall i | 0 <= i < |w.history| && w.history[i].ClosedFrames? ::
          w.history[i].id < |w.executions| && Over(w.executions[w.history[i].id].phase) && ChildrenEnded(w, w.history[i].id, i))
    && (forall i | 0 <= i < |w.history| && w.history[i].Ended? ::
          w.history[i].id < |w.executions|
          && (!ProducedBy(w.executions[w.history[i].id]) ==> ChildrenEnded(w, w.history[i].id, i)))
  }

  /** The recipe will adopt nothing more. */
  predicate Over(phase: Phase) {
    phase.Rejected? || phase.Joining? || phase.Settled?
  }

  predicate ProducedBy(e: Execution) {
    e.phase.Settled? && e.phase.outcome.Produced?
  }

  ghost predicate Inv(w: World) {
    && Ordered(w.executions)
    && (forall x | 0 <= x < |w.executions| :: Accounted(w.executions, x) && Disciplined(w.executions, x))
    && NumberedOnce(w) && Chronicled(w)
  }

  // ----- each kind of change -----

  ghost predicate Sound(es: seq<Execution>) {
    Ordered(es) && forall x | 0 <= x < |es| :: Accounted(es, x) && Disciplined(es, x)
  }

  lemma AbortsKeepSound(es: seq<Execution>, fs: seq<Execution>)
    requires Sound(es) && OnlyAborts(es, fs)
    ensures Sound(fs)
  {
    forall x | 0 <= x < |fs| ensures Later(fs, fs[x].children, x) && Accounted(fs, x) && Disciplined(fs, x) {
      assert Accounted(es, x) && Disciplined(es, x);
      AbortsKeepOne(es, fs, x);
    }
  }

  lemma AbortsKeepOne(es: seq<Execution>, fs: seq<Execution>, x: Id)
    requires x < |es| && Later(es, es[x].children, x) && Accounted(es, x) && Disciplined(es, x) && OnlyAborts(es, fs)
    ensures Later(fs, fs[x].children, x) && Accounted(fs, x) && Disciplined(fs, x)
  {}

  /** The same phases and the same adopted children make the same chronicle. */
  lemma SameChronicle(w: World, fs: seq<Execution>)
    requires NumberedOnce(w) && Chronicled(w) && |fs| == |w.executions|
    requires forall x | 0 <= x < |fs| :: fs[x].phase == w.executions[x].phase && fs[x].adopted == w.executions[x].adopted
    ensures NumberedOnce(w.(executions := fs)) && Chronicled(w.(executions := fs))
  {
    var v := w.(executions := fs);
    forall i | 0 <= i < |v.history| && v.history[i].id < |fs| && ChildrenEnded(w, v.history[i].id, i)
      ensures ChildrenEnded(v, v.history[i].id, i)
    {}
  }

  lemma AbortsKeep(w: World, fs: seq<Execution>)
    requires Inv(w) && OnlyAborts(w.executions, fs)
    ensures Inv(w.(executions := fs))
  {
    AbortsKeepSound(w.executions, fs);
    SameChronicle(w, fs);
  }

  /** One unsettled execution moves on; the others see at most that it has settled. */
  lemma OneChanged(es: seq<Execution>, x: Id, e: Execution)
    requires Sound(es) && x < |es| && !es[x].phase.Settled?
    requires e.aborted == es[x].aborted && Later(es, e.children, x)
    requires Accounted(es[x := e], x) && Disciplined(es[x := e], x)
    ensures Sound(es[x := e])
  {
    var fs := es[x := e];
    forall y | 0 <= y < |fs| ensures Later(fs, fs[y].children, y) && Accounted(fs, y) && Disciplined(fs, y) {
      if y != x {
        assert Accounted(es, y) && Disciplined(es, y) && Later(es, es[y].children, y);
        OtherSees(es, x, e, y);
      }
    }
  }

  lemma OtherSees(es: seq<Execution>, x: Id, e: Execution, y: Id)
    requires x < |es| && y < |es| && x != y && !es[x].phase.Settled? && e.aborted == es[x].aborted
    requires Later(es, es[y].children, y) && Accounted(es, y) && Disciplined(es, y)
    ensures Later(es[x := e], es[y].children, y) && Accounted(es[x := e], y) && Disciplined(es[x := e], y)
  {}

  /** A move that is neither a settlement nor back into the recipe. */
  lemma MovedChronicle(w: World, x: Id, e: Execution)
    requires NumberedOnce(w) && Chronicled(w) && x < |w.executions| && !w.executions[x].phase.Settled? && !e.phase.Settled?
    requires e.adopted == w.executions[x].adopted && (Over(w.executions[x].phase) ==> Over(e.phase))
    ensures NumberedOnce(w.(executions := w.executions[x := e])) && Chronicled(w.(executions := w.executions[x := e]))
  {
    var v := w.(executions := w.executions[x := e]);
    forall y: Id ensures Ended(y) in v.history <==> y < |v.executions| && v.executions[y].phase.Settled? {
      assert Ended(y) in w.history <==> y < |w.executions| && w.executions[y].phase.Settled?;
    }
    forall i | 0 <= i < |v.history| && v.history[i].id < |v.executions| && ChildrenEnded(w, v.history[i].id, i)
      ensures ChildrenEnded(v, v.history[i].id, i)
    {}
    forall i | 0 <= i < |v.history| && v.history[i].Ended? && !ProducedBy(v.executions[v.history[i].id])
      ensures ChildrenEnded(v, v.history[i].id, i)
    {
      assert v.history[i] in w.history;
      assert Ended(v.history[i].id) in w.history;
    }
  }

  lemma Moved(w: World, x: Id, e: Execution)
    requires Inv(w) && x < |w.executions| && !w.executions[x].phase.Settled? && !e.phase.Settled?
    requires e.aborted == w.executions[x].aborted && Later(w.executions, e.children, x)
    requires e.adopted == w.executions[x].adopted && (Over(w.executions[x].phase) ==> Over(e.phase))
    requires Accounted(w.executions[x := e], x) && Disciplined(w.executions[x := e], x)
    ensures Inv(w.(executions := w.executions[x := e]))
  {
    hide Accounted, Disciplined, NumberedOnce, Chronicled, Ordered;
    OneChanged(w.executions, x, e);
    MovedChronicle(w, x, e);
  }

  /** Once every child that is waited for has settled and none is listed, every adopted child has ended. */
  lemma AllEnded(w: World, x: Id)
    requires Inv(w) && x < |w.executions| && w.executions[x].children == []
    requires AllSettled(w.executions, Waiting(w.executions[x].phase))
    ensures ChildrenEnded(w, x, |w.history|)
  {
    var e := w.executions[x];
    assert Accounted(w.executions, x);
    forall k | 0 <= k < |e.adopted| ensures Ended(e.adopted[k]) in w.history[..|w.history|] {
      var c := e.adopted[k];
      assert w.executions[c].phase.Settled?;
      assert w.history[..|w.history|] == w.history;
    }
  }

  /** Retained frames are closed after the children. */
  lemma ClosedAfter(w: World, x: Id)
    requires Inv(w) && x < |w.executions| && Over(w.executions[x].phase) && ChildrenEnded(w, x, |w.history|)
    ensures Inv(w.(history := w.history + [ClosedFrames(x)]))
    ensures ChildrenEnded(w.(history := w.history + [ClosedFrames(x)]), x, |w.history| + 1)
  {
    hide Accounted, Disciplined, Ordered;
    var v := w.(history := w.history + [ClosedFrames(x)]);
    forall i, y: Id | 0 <= i <= |w.history| && y < |w.executions| && ChildrenEnded(w, y, i) ensures ChildrenEnded(v, y, i) {
      assert v.history[..i] == w.history[..i];
    }
    assert v.history[..|v.history|] == w.history[..|w.history|] + [ClosedFrames(x)];
    forall y: Id ensures Ended(y) in v.history <==> y < |v.executions| && v.executions[y].phase.Settled? {
      assert Ended(y) in w.history <==> Ended(y) in v.history;
    }
    forall i | 0 <= i < |v.history| && v.history[i].Ended?
      ensures v.history[i].id < |v.executions| && (!ProducedBy(v.executions[v.history[i].id]) ==> ChildrenEnded(v, v.history[i].id, i))
    {
      assert v.history[i] == w.history[i];
    }
  }

  /** A settlement takes the next number; one that is not a product comes after the ends of all children. */
  lemma SettledAfter(w: World, x: Id, outcome: Outcome)
    requires Inv(w) && x < |w.executions| && !w.executions[x].phase.Settled?
    requires outcome.Produced? ==> !w.executions[x].aborted && w.executions[x].phase.Running?
    requires !outcome.Produced? ==> w.executions[x].children == [] && ChildrenEnded(w, x, |w.history|)
    ensures Inv(Settle(w, x, outcome))
  {
    var e := w.executions[x].(phase := Settled(outcome, w.settlements));
    var fs := w.executions[x := e];
    assert Accounted(w.executions, x) && Disciplined(w.executions, x);
    SettledAccounted(w, x, outcome);
    OneChanged(w.executions, x, e);
    hide Accounted, Disciplined, Ordered;
    SettledChronicle(w, x, outcome);
  }

  lemma SettledAccounted(w: World, x: Id, outcome: Outcome)
    requires Inv(w) && x < |w.executions| && !w.executions[x].phase.Settled?
    requires outcome.Produced? ==> !w.executions[x].aborted && w.executions[x].phase.Running?
    requires !outcome.Produced? ==> w.executions[x].children == [] && ChildrenEnded(w, x, |w.history|)
    ensures var fs := w.executions[x := w.executions[x].(phase := Settled(outcome, w.settlements))];
            Accounted(fs, x) && Disciplined(fs, x)
  {
    var e := w.executions[x];
    var fs := w.executions[x := e.(phase := Settled(outcome, w.settlements))];
    assert Accounted(w.executions, x) && Disciplined(w.executions, x);
    forall i | 0 <= i < |e.adopted| ensures e.adopted[i] in e.children || fs[e.adopted[i]].phase.Settled? {
      if !outcome.Produced? {
        assert Ended(e.adopted[i]) in w.history[..|w.history|];
        assert Ended(e.adopted[i]) in w.history;
      }
    }
  }

  lemma SettledChronicle(w: World, x: Id, outcome: Outcome)
    requires NumberedOnce(w) && Chronicled(w) && x < |w.executions| && !w.executions[x].phase.Settled?
    requires !outcome.Produced? ==> ChildrenEnded(w, x, |w.history|)
    ensures NumberedOnce(Settle(w, x, outcome)) && Chronicled(Settle(w, x, outcome))
  {
    var v := Settle(w, x, outcome);
    forall i, y: Id | 0 <= i <= |w.history| && y < |w.executions| && ChildrenEnded(w, y, i) ensures ChildrenEnded(v, y, i) {
      assert v.history[..i] == w.history[..i];
    }
    forall y: Id ensures Ended(y) in v.history <==> y < |v.executions| && v.executions[y].phase.Settled? {
      assert Ended(y) in w.history <==> y < |w.executions| && w.executions[y].phase.Settled?;
      assert Ended(y) in v.history <==> Ended(y) in w.history || y == x;
    }
    forall i | 0 <= i < |v.history| && v.history[i].Ended?
      ensures v.history[i].id < |v.executions| && (!ProducedBy(v.executions[v.history[i].id]) ==> ChildrenEnded(v, v.history[i].id, i))
    {
      if i < |w.history| {
        assert v.history[i] == w.history[i] && v.history[i] in w.history;
        assert Ended(v.history[i].id) in w.history && v.history[i].id != x;
      }
    }
    forall i | 0 <= i < |v.history| && v.history[i].ClosedFrames?
      ensures v.history[i].id < |v.executions| && Over(v.executions[v.history[i].id].phase) && ChildrenEnded(v, v.history[i].id, i)
    {
      assert v.history[i] == w.history[i];
    }
  }

  // ----- each step -----

  lemma SpawnKeeps(w: World, x: Id)
    requires Inv(w) && x < |w.executions| && w.executions[x].phase.Running?
    ensures Inv(SpawnIn(w, x))
  {
    var v := SpawnIn(w, x);
    var es, fs, child := w.executions, v.executions, |w.executions|;
    forall y | 0 <= y < |fs| ensures Later(fs, fs[y].children, y) && Accounted(fs, y) && Disciplined(fs, y) {
      if y < |es| {
        assert Later(es, es[y].children, y) && Accounted(es, y) && Disciplined(es, y);
        SpawnSeen(w, x, y);
      }
    }
    hide Accounted, Disciplined, Ordered;
    SpawnChronicle(w, x);
  }

  lemma SpawnSeen(w: World, x: Id, y: Id)
    requires x < |w.executions| && y < |w.executions| && w.executions[x].phase.Running?
    requires var es := w.executions; Later(es, es[y].children, y) && Accounted(es, y) && Disciplined(es, y)
    ensures var fs := SpawnIn(w, x).executions; Later(fs, fs[y].children, y) && Accounted(fs, y) && Disciplined(fs, y)
  {
    var es, fs := w.executions, SpawnIn(w, x).executions;
    forall i | 0 <= i < |fs[y].adopted|
      ensures fs[y].adopted[i] in fs[y].children || fs[y].adopted[i] in Waiting(fs[y].phase) || fs[fs[y].adopted[i]].phase.Settled?
    {
      if i < |es[y].adopted| {
        assert fs[y].adopted[i] == es[y].adopted[i];
        var c := es[y].adopted[i];
        assert c in es[y].children || c in Waiting(es[y].phase) || es[c].phase.Settled?;
      }
    }
  }

  lemma SpawnChronicle(w: World, x: Id)
    requires NumberedOnce(w) && Chronicled(w) && x < |w.executions| && w.executions[x].phase.Running?
    ensures NumberedOnce(SpawnIn(w, x)) && Chronicled(SpawnIn(w, x))
  {
    var v := SpawnIn(w, x);
    forall y: Id ensures Ended(y) in v.history <==> y < |v.executions| && v.executions[y].phase.Settled? {
      assert Ended(y) in w.history <==> y < |w.executions| && w.executions[y].phase.Settled?;
    }
    forall i | 0 <= i < |v.history| && v.history[i].id < |w.executions| && v.history[i].id != x && ChildrenEnded(w, v.history[i].id, i)
      ensures ChildrenEnded(v, v.history[i].id, i)
    {}
    forall i | 0 <= i < |v.history| && v.history[i].Ended? && !ProducedBy(v.executions[v.history[i].id])
      ensures ChildrenEnded(v, v.history[i].id, i)
    {
      assert v.history[i] in w.history && Ended(v.history[i].id) in w.history;
    }
  }

  lemma SpawnRootKeeps(w: World)
    requires Inv(w)
    ensures Inv(w.(executions := w.executions + [Fresh()]))
  {
    var v := w.(executions := w.executions + [Fresh()]);
    var es, fs := w.executions, v.executions;
    forall y | 0 <= y < |fs| ensures Later(fs, fs[y].children, y) && Accounted(fs, y) && Disciplined(fs, y) {
      if y < |es| { assert Later(es, es[y].children, y) && Accounted(es, y) && Disciplined(es, y); }
    }
    forall y: Id ensures Ended(y) in v.history <==> y < |v.executions| && v.executions[y].phase.Settled? {
      assert Ended(y) in w.history <==> y < |w.executions| && w.executions[y].phase.Settled?;
    }
    forall i | 0 <= i < |v.history| && v.history[i].id < |w.executions| && ChildrenEnded(w, v.history[i].id, i)
      ensures ChildrenEnded(v, v.history[i].id, i)
    {}
  }

  lemma CaughtKeeps(w: World, x: Id, caught: Defect, pending: bool)
    requires Inv(w) && x < |w.executions| && (w.executions[x].phase.Running? || w.executions[x].phase.Rejected?)
    ensures Inv(CaughtBy(w, x, caught, pending))
  {
    var children := w.executions[x].children;
    var es := CancelAll(w.executions, children, x);
    var v := w.(executions := es);
    AbortsKeep(w, es);
    assert Accounted(es, x) && Disciplined(es, x);
    var e := es[x].(phase := Joining(children, caught, pending), children := []);
    TakenOver(es, x, e);
    Moved(v, x, e);
  }

  /** The list of children becomes the list of those waited for. */
  lemma TakenOver(es: seq<Execution>, x: Id, e: Execution)
    requires x < |es| && Ordered(es) && Accounted(es, x) && Waiting(es[x].phase) == []
    requires forall i | 0 <= i < |es[x].children| :: es[es[x].children[i]].aborted || es[es[x].children[i]].phase.Settled?
    requires e.children == [] && e.adopted == es[x].adopted && (e.phase.Abandoned? || e.phase.Joining?) && e.phase.waiting == es[x].children
    ensures Later(es, e.children, x) && Accounted(es[x := e], x) && Disciplined(es[x := e], x)
  {
    assert Later(es, es[x].children, x);
  }

  lemma AbandonKeeps(w: World, x: Id, failure: Defect)
    requires Inv(w) && x < |w.executions| && w.executions[x].phase.Running?
    ensures Inv(Step(w, Abandon(x, failure)))
  {
    hide CancelAll, NumberedOnce, Chronicled, Disciplined;
    var children := w.executions[x].children;
    var es := CancelAll(w.executions, children, x);
    AbortsKeep(w, es);
    assert Accounted(es, x);
    var e := es[x].(phase := Abandoned(children, failure), children := []);
    TakenOver(es, x, e);
    Moved(w.(executions := es), x, e);
  }

  lemma CloseFramesKeeps(w: World, x: Id, failures: seq<Defect>)
    requires Inv(w) && x < |w.executions| && w.executions[x].phase.Abandoned?
    ensures Inv(Step(w, CloseFrames(x, failures)))
  {
    var phase := w.executions[x].phase;
    if AllSettled(w.executions, phase.waiting) {
      assert Accounted(w.executions, x) && Disciplined(w.executions, x);
      AllEnded(w, x);
      var primary := AppendChildDefects(phase.failure, OutcomesOf(w.executions, phase.waiting));
      var e := w.executions[x].(phase := Rejected(WithFailures(primary, failures), false));
      Moved(w, x, e);
      var v := w.(executions := w.executions[x := e]);
      ClosedAfter(v, x);
    }
  }

  lemma JoinDoneKeeps(w: World, x: Id, failures: seq<Defect>)
    requires Inv(w) && x < |w.executions| && w.executions[x].phase.Joining?
    ensures Inv(Step(w, JoinDone(x, failures)))
  {
    hide AppendChildDefects, WithFailures;
    var phase := w.executions[x].phase;
    if AllSettled(w.executions, phase.waiting) {
      assert Accounted(w.executions, x) && Disciplined(w.executions, x);
      AllEnded(w, x);
      var primary := AppendChildDefects(phase.caught, OutcomesOf(w.executions, phase.waiting));
      if phase.pending {
        ClosedAfter(w, x);
        SettledAfter(w.(history := w.history + [ClosedFrames(x)]), x, OutcomeOf(WithFailures(primary, failures)));
      } else {
        SettledAfter(w, x, OutcomeOf(primary));
      }
    }
  }

  lemma SimpleMove(w: World, x: Id, phase: Phase)
    requires Inv(w) && x < |w.executions|
    requires (w.executions[x].phase.Created? && phase.Running?) || (w.executions[x].phase.Running? && phase.Rejected?)
    ensures Inv(SetPhase(w, x, phase))
  {
    assert Accounted(w.executions, x) && Disciplined(w.executions, x) && Later(w.executions, w.executions[x].children, x);
    var e := w.executions[x].(phase := phase);
    Moved(w, x, e);
  }

  lemma StepKeeps(w: World, a: Action)
    requires Inv(w)
    ensures Inv(Step(w, a))
  {
    hide Inv, Settle, SetPhase, SpawnIn, CaughtBy;
    InvIsOrdered(w);
    if a.SpawnRoot? {
      SpawnRootKeeps(w);
    } else if a.x < |w.executions| {
      var x, phase := a.x, w.executions[a.x].phase;
      match a
      case Start(_) => if phase.Created? { SimpleMove(w, x, Running); }
      case Spawn(_) => if phase.Running? { SpawnKeeps(w, x); }
      case CancelCall(_) => AbortsKeep(w, CancelOne(w.executions, x));
      case Complete(_, value) =>
        if phase.Running? {
          if w.executions[x].aborted { CaughtKeeps(w, x, CANCELLATION, false); } else { SettledAfter(w, x, Produced(value)); }
        }
      case Throw(_, defect, pending) => if phase.Running? { SimpleMove(w, x, Rejected(defect, pending)); }
      case Abandon(_, failure) => if phase.Running? { AbandonKeeps(w, x, failure); }
      case CloseFrames(_, failures) => if phase.Abandoned? { CloseFramesKeeps(w, x, failures); }
      case Catch(_) => if phase.Rejected? { CaughtKeeps(w, x, phase.caught, phase.pending); }
      case JoinDone(_, failures) => if phase.Joining? { JoinDoneKeeps(w, x, failures); }
    }
  }

  lemma InvIsOrdered(w: World)
    requires Inv(w)
    ensures Ordered(w.executions)
  {}

  // ----- runs -----

  const EMPTY := World([], 0, [])

  function Run(w: World, actions: seq<Action>): (r: World)
    requires Ordered(w.executions)
    ensures Ordered(r.executions)
    decreases |actions|
  {
    if |actions| == 0 then w else Run(StepOrdered(w, actions[0]), actions[1..])
  }

  /** A step keeps owners older than their children. */
  function StepOrdered(w: World, a: Action): (r: World)
    requires Ordered(w.executions)
    ensures Ordered(r.executions)
  {
    StepKeepsOrder(w, a);
    Step(w, a)
  }

  lemma StepKeepsOrder(w: World, a: Action)
    requires Ordered(w.executions)
    ensures Ordered(Step(w, a).executions)
  {}

  lemma {:induction false} RunKeeps(w: World, actions: seq<Action>)
    requires Inv(w)
    ensures Inv(Run(w, actions))
    decreases |actions|
  {
    hide Inv, Step;
    InvIsOrdered(w);
    if |actions| > 0 {
      StepKeeps(w, actions[0]);
      RunKeeps(StepOrdered(w, actions[0]), actions[1..]);
    }
  }

  lemma EmptyIsSound()
    ensures Inv(EMPTY)
  {}

  // ----- what never changes back -----

  /** Abort flags stay up, settlements stay as they are, nobody disappears. */
  ghost predicate Onward(w: World, v: World) {
    && |w.executions| <= |v.executions| && w.settlements <= v.settlements
    && forall x | 0 <= x < |w.executions| ::
         && (w.executions[x].aborted ==> v.executions[x].aborted)
         && (w.executions[x].phase.Settled? ==> v.executions[x].phase == w.executions[x].phase)
         && (v.executions[x].phase.Settled? && !w.executions[x].phase.Settled? ==> v.executions[x].phase.number >= w.settlements)
  }

  lemma StepOnward(w: World, a: Action)
    requires Ordered(w.executions)
    ensures Onward(w, Step(w, a))
    ensures forall x | |w.executions| <= x < |Step(w, a).executions| :: !Step(w, a).executions[x].phase.Settled?
  {
    hide AppendChildDefects, WithFailures, OutcomesOf, CancelOne, CancelAll, Ordered;
  }

  lemma {:induction false} RunOnward(w: World, actions: seq<Action>)
    requires Inv(w)
    ensures Onward(w, Run(w, actions))
    ensures forall x | |w.executions| <= x < |Run(w, actions).executions| && Run(w, actions).executions[x].phase.Settled? ::
              Run(w, actions).executions[x].phase.number >= w.settlements
    decreases |actions|
  {
    hide Inv, Step;
    InvIsOrdered(w);
    if |actions| > 0 {
      StepOnward(w, actions[0]);
      StepKeeps(w, actions[0]);
      var v := StepOrdered(w, actions[0]);
      RunOnward(v, actions[1..]);
    }
  }

  lemma Reachable(actions: seq<Action>)
    ensures Inv(Run(EMPTY, actions))
  {
    EmptyIsSound();
    RunKeeps(EMPTY, actions);
  }

  // ----- the theorems -----

  /** In every interleaving an execution that is cancelled before it settles never settles as produced. */
  lemma CancelledNeverProduces(before: seq<Action>, x: Id, after: seq<Action>)
    requires x < |Run(EMPTY, before).executions| && !Run(EMPTY, before).executions[x].phase.Settled?
    ensures var w := Run(StepOrdered(Run(EMPTY, before), CancelCall(x)), after);
            x < |w.executions| && w.executions[x].aborted && !ProducedBy(w.executions[x])
  {
    var w0 := Run(EMPTY, before);
    Reachable(before);
    StepKeeps(w0, CancelCall(x));
    var w1 := StepOrdered(w0, CancelCall(x));
    StepOnward(w0, CancelCall(x));
    assert w1.executions[x].aborted;
    RunOnward(w1, after);
    RunKeeps(w1, after);
    assert Accounted(Run(w1, after).executions, x) && Disciplined(Run(w1, after).executions, x);
  }

  /** In every interleaving an execution that settles as cancelled or defected does so after every child it adopted has
      settled, and the frames it still held were closed after them too. */
  lemma FailuresComeAfterChildren(actions: seq<Action>, i: nat, x: Id)
    requires i < |Run(EMPTY, actions).history|
    requires var w := Run(EMPTY, actions);
             w.history[i] == ClosedFrames(x) || (w.history[i] == Ended(x) && x < |w.executions| && !ProducedBy(w.executions[x]))
    ensures x < |Run(EMPTY, actions).executions| && ChildrenEnded(Run(EMPTY, actions), x, i)
  {
    Reachable(actions);
  }

  /** A failing execution never waits for a child that was not cancelled: each one it waits for has been, or is settled. */
  lemma OnlyCancelledChildrenAreAwaited(actions: seq<Action>, x: Id, i: nat)
    requires x < |Run(EMPTY, actions).executions| && i < |Waiting(Run(EMPTY, actions).executions[x].phase)|
    ensures var es := Run(EMPTY, actions).executions; var c := Waiting(es[x].phase)[i];
            x < c < |es| && (es[c].aborted || es[c].phase.Settled?)
  {
    Reachable(actions);
    assert Accounted(Run(EMPTY, actions).executions, x) && Disciplined(Run(EMPTY, actions).executions, x);
  }

  /** Settlement numbers are unique, and neither they nor the outcomes ever change. */
  lemma SettlementsAreFixed(actions: seq<Action>, more: seq<Action>, x: Id, y: Id)
    requires var w := Run(EMPTY, actions);
             x < |w.executions| && y < |w.executions| && x != y && w.executions[x].phase.Settled? && w.executions[y].phase.Settled?
    ensures var w, v := Run(EMPTY, actions), Run(Run(EMPTY, actions), more);
            && w.executions[x].phase.number != w.executions[y].phase.number
            && |v.executions| >= |w.executions| && v.executions[x].phase == w.executions[x].phase
  {
    Reachable(actions);
    RunOnward(Run(EMPTY, actions), more);
  }

  // ----- the first settlement -----

  /** The position of a settled handle with the smallest settlement number. */
  ghost predicate Wins(es: seq<Execution>, handles: seq<Id>, i: nat) {
    && i < |handles| && handles[i] < |es| && es[handles[i]].phase.Settled?
    && forall k | 0 <= k < |handles| && handles[k] < |es| && es[handles[k]].phase.Settled? ::
         es[handles[i]].phase.number <= es[handles[k]].phase.number
  }

  /** No handle was settled when the select began, the callback runs at some later point and picks a winner there:
      whatever settles afterwards, the winner has the smallest number of all the handles. */
  lemma FirstSettlementStaysFirst(before: seq<Action>, wait: seq<Action>, after: seq<Action>, handles: seq<Id>, i: nat)
    requires var w := Run(EMPTY, before); forall k | 0 <= k < |handles| :: handles[k] < |w.executions| && !w.executions[handles[k]].phase.Settled?
    requires Wins(Run(Run(EMPTY, before), wait).executions, handles, i)
    ensures Wins(Run(Run(Run(EMPTY, before), wait), after).executions, handles, i)
  {
    Reachable(before);
    var w0 := Run(EMPTY, before);
    RunKeeps(w0, wait);
    var w1 := Run(w0, wait);
    RunOnward(w0, wait);
    RunOnward(w1, after);
    var es, fs := w1.executions, Run(w1, after).executions;
    assert NumberedOnce(w1);
    forall k | 0 <= k < |handles| && handles[k] < |fs| && fs[handles[k]].phase.Settled?
      ensures fs[handles[i]].phase.number <= fs[handles[k]].phase.number
    {}
  }

  // ----- reported defects -----

  /** What a child that settled as defected reports: its defect; or, when it was cancelled on the way, each defect that
      its cancellation collected. */
  ghost predicate Reports(o: Outcome, d: Defect) {
    o.Defected? &&
    if o.defect.Aggregate? && |o.defect.errors| > 0 && o.defect.errors[0] == CANCELLATION
    then exists i :: 1 <= i < |o.defect.errors| && o.defect.errors[i] == d
    else o.defect == d
  }

  lemma ReportsAre(o: Outcome, d: Defect)
    ensures d in ChildDefects(o) <==> Reports(o, d)
  {
    if o.Defected? && o.defect.Aggregate? && |o.defect.errors| > 0 {
      var errors := o.defect.errors;
      forall i | 1 <= i < |errors| ensures errors[i] in errors[1..] { assert errors[1..][i - 1] == errors[i]; }
    }
  }

  /** The defect is there: alone, among those collected, or as the aggregate the collection began with. */
  ghost predicate Contains(result: Defect, d: Defect) {
    d == result || d in ErrorsOf(result) || (d.Aggregate? && result.Aggregate? && d.errors <= result.errors)
  }

  /** The same defect, or one aggregate that begins with it. */
  ghost predicate Extends(primary: Defect, result: Defect) {
    primary == result || (result.Aggregate? && ErrorsOf(primary) <= result.errors)
  }

  lemma ExtendsTwice(a: Defect, b: Defect, c: Defect)
    requires Extends(a, b) && Extends(b, c)
    ensures Extends(a, c)
  {}

  lemma StillContains(primary: Defect, result: Defect, d: Defect)
    requires Extends(primary, result) && Contains(primary, d)
    ensures Contains(result, d)
  {
    if primary != result {
      var own := ErrorsOf(primary);
      assert own == result.errors[..|own|];
      if d == primary {
        assert !d.Aggregate? ==> own[0] == d && result.errors[0] == d;
      } else if d in own {
        var i :| 0 <= i < |own| && own[i] == d;
        assert result.errors[i] == d;
      } else {
        assert d.errors <= primary.errors <= result.errors;
      }
    }
  }

  lemma AppendsOne(primary: Defect, d: Defect)
    ensures Extends(primary, AppendOne(primary, d)) && Contains(AppendOne(primary, d), d)
    ensures forall e | e in ErrorsOf(AppendOne(primary, d)) :: e in ErrorsOf(primary) || e == d
  {}

  lemma {:induction false} AppendedAre(primary: Defect, defects: seq<Defect>)
    ensures var result := AppendDefects(primary, defects);
            && Extends(primary, result) && (forall d | d in defects :: Contains(result, d))
            && forall e | e in ErrorsOf(result) :: e in ErrorsOf(primary) || e in defects
    decreases |defects|
  {
    if |defects| > 0 {
      var next := AppendOne(primary, defects[0]);
      var result := AppendDefects(next, defects[1..]);
      AppendsOne(primary, defects[0]);
      AppendedAre(next, defects[1..]);
      ExtendsTwice(primary, next, result);
      StillContains(next, result, defects[0]);
      assert forall d | d in defects :: d == defects[0] || d in defects[1..];
    }
  }

  /** No defect of a child is lost from the defect its owner reports, and neither is the owner's own. */
  lemma {:induction false} NoDefectIsLost(primary: Defect, outcomes: seq<Outcome>, d: Defect)
    requires Contains(primary, d) || exists i :: 0 <= i < |outcomes| && Reports(outcomes[i], d)
    ensures Contains(AppendChildDefects(primary, outcomes), d)
    decreases |outcomes|
  {
    hide Contains, Extends, Reports, AppendDefects, ChildDefects;
    if |outcomes| > 0 {
      var next := AppendDefects(primary, ChildDefects(outcomes[0]));
      AppendedAre(primary, ChildDefects(outcomes[0]));
      ReportsAre(outcomes[0], d);
      if Contains(primary, d) {
        StillContains(primary, next, d);
      } else if !Reports(outcomes[0], d) {
        var i :| 0 <= i < |outcomes| && Reports(outcomes[i], d);
        assert Reports(outcomes[1..][i - 1], d);
      }
      NoDefectIsLost(next, outcomes[1..], d);
    }
  }

  /** Nothing is added to the owner's defect but what children report, and all of it comes behind. */
  lemma {:induction false} NothingIsAdded(primary: Defect, outcomes: seq<Outcome>, e: Defect)
    ensures Extends(primary, AppendChildDefects(primary, outcomes))
    ensures e in ErrorsOf(AppendChildDefects(primary, outcomes)) ==>
              e in ErrorsOf(primary) || exists i :: 0 <= i < |outcomes| && Reports(outcomes[i], e)
    decreases |outcomes|
  {
    hide Extends, Reports, AppendDefects, ChildDefects, ErrorsOf;
    if |outcomes| == 0 {
      SameExtends(primary);
    } else {
      var next := AppendDefects(primary, ChildDefects(outcomes[0]));
      AppendedAre(primary, ChildDefects(outcomes[0]));
      ReportsAre(outcomes[0], e);
      NothingIsAdded(next, outcomes[1..], e);
      ExtendsTwice(primary, next, AppendChildDefects(primary, outcomes));
      if e in ErrorsOf(AppendChildDefects(primary, outcomes)) && e !in ErrorsOf(next) {
        var i :| 0 <= i < |outcomes[1..]| && Reports(outcomes[1..][i], e);
        assert Reports(outcomes[i + 1], e);
      }
    }
  }

  lemma SameExtends(d: Defect)
    ensures Extends(d, d)
  {}

  /** Failures of cleanups come behind the primary defect, all of them, in order. */
  lemma FailuresExtend(primary: Defect, failures: seq<Defect>)
    ensures WithFailures(primary, failures) == if failures == [] then primary else Aggregate(ErrorsOf(primary) + failures)
    ensures Extends(primary, WithFailures(primary, failures))
  {
    ReportedInOrder(Some(primary), failures);
    assert ([primary] + failures)[1..] == failures;
    if failures != [] { assert ErrorsOf(primary) == (ErrorsOf(primary) + failures)[..|ErrorsOf(primary)|]; }
  }

  /** An execution settles as cancelled exactly when it failed by cancellation, no child reports anything else and no
      cleanup failed. */
  lemma CancelledExactly(primary: Defect, outcomes: seq<Outcome>, failures: seq<Defect>)
    ensures OutcomeOf(WithFailures(AppendChildDefects(primary, outcomes), failures)).Cancelled? <==>
              && primary == CANCELLATION && failures == []
              && forall i, d | 0 <= i < |outcomes| && Reports(outcomes[i], d) :: d == CANCELLATION
  {
    hide AppendChildDefects, Reports;
    var p := AppendChildDefects(primary, outcomes);
    FailuresExtend(p, failures);
    NothingIsAdded(primary, outcomes, CANCELLATION);
    if p == CANCELLATION {
      forall i, d | 0 <= i < |outcomes| && Reports(outcomes[i], d) ensures d == CANCELLATION {
        NoDefectIsLost(primary, outcomes, d);
      }
    }
    if primary == CANCELLATION && forall i, d | 0 <= i < |outcomes| && Reports(outcomes[i], d) :: d == CANCELLATION {
      OnlyCancellations(outcomes);
    }
  }

  /** Appending nothing but cancellations to a cancellation leaves it. */
  lemma {:induction false} OnlyCancellations(outcomes: seq<Outcome>)
    requires forall i, d | 0 <= i < |outcomes| && Reports(outcomes[i], d) :: d == CANCELLATION
    ensures AppendChildDefects(CANCELLATION, outcomes) == CANCELLATION
    decreases |outcomes|
  {
    hide Reports, ChildDefects, AppendDefects;
    if |outcomes| > 0 {
      var defects := ChildDefects(outcomes[0]);
      forall j | 0 <= j < |defects| ensures defects[j] == CANCELLATION { ReportsAre(outcomes[0], defects[j]); }
      CancellationsAppended(defects);
      forall i, d | 0 <= i < |outcomes[1..]| && Reports(outcomes[1..][i], d) ensures d == CANCELLATION {
        assert Reports(outcomes[i + 1], d);
      }
      OnlyCancellations(outcomes[1..]);
    }
  }

  lemma {:induction false} CancellationsAppended(defects: seq<Defect>)
    requires forall j | 0 <= j < |defects| :: defects[j] == CANCELLATION
    ensures AppendDefects(CANCELLATION, defects) == CANCELLATION
    decreases |defects|
  {
    if |defects| > 0 { CancellationsAppended(defects[1..]); }
  }
}
