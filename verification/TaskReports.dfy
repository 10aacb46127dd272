/** What becomes of products and defects over whole runs of the task runtime: whoever waits gets the product, and what
    went wrong in an execution or in a child of it is in what its owner reports. */
module TaskReports {
  import opened Values
  import Activation
  import opened Tasks

  /** The defect a failing execution carries, up to what it settles with. */
  function Carried(phase: Phase): Option<Activation.Defect> {
    match phase
    case Abandoned(_, failure) => Some(failure)
    case Rejected(caught, _) => Some(caught)
    case Joining(_, caught, _) => Some(caught)
    case Settled(Cancelled, _) => Some(CANCELLATION)
    case Settled(Defected(d), _) => Some(d)
    case _ => None
  }

  ghost predicate Grown(before: Phase, after: Phase) {
    Carried(before).Some? && Carried(after).Some? && Extends(Carried(before).value, Carried(after).value)
  }

  // ----- a defect once carried stays -----

  lemma OutcomeCarries(failure: Activation.Defect, number: nat)
    ensures Carried(Settled(OutcomeOf(failure), number)) == Some(failure)
  {}

  lemma GrownStays(phase: Phase)
    requires Carried(phase).Some?
    ensures Grown(phase, phase)
  {}

  /** Closing frames and joining add to the defect what the children and the cleanups report. */
  lemma Gathered(es: seq<Execution>, waiting: seq<Id>, d: Activation.Defect, failures: seq<Activation.Defect>)
    requires AllSettled(es, waiting)
    ensures var primary := AppendChildDefects(d, OutcomesOf(es, waiting));
            Extends(d, primary) && Extends(d, WithFailures(primary, failures)) && Extends(primary, WithFailures(primary, failures))
  {
    hide AppendChildDefects, Extends, WithFailures;
    var primary := AppendChildDefects(d, OutcomesOf(es, waiting));
    NothingIsAdded(d, OutcomesOf(es, waiting), d);
    FailuresExtend(primary, failures);
    ExtendsTwice(d, primary, WithFailures(primary, failures));
  }

  /** An execution the step is not about keeps its phase, its children and whom it adopted. */
  lemma OthersStay(w: World, a: Action, y: Id)
    requires Ordered(w.executions) && y < |w.executions| && (a.SpawnRoot? || a.CancelCall? || a.x != y)
    ensures var e, f := w.executions[y], Step(w, a).executions[y]; f.phase == e.phase && f.children == e.children && f.adopted == e.adopted
  {
    hide AppendChildDefects, WithFailures, OutcomesOf, CancelAll, CancelOne;
  }

  lemma StepGrows(w: World, a: Action, x: Id)
    requires Ordered(w.executions) && x < |w.executions| && Carried(w.executions[x].phase).Some?
    ensures x < |Step(w, a).executions| && Grown(w.executions[x].phase, Step(w, a).executions[x].phase)
  {
    var es, phase := w.executions, w.executions[x].phase;
    GrownStays(phase);
    hide AppendChildDefects, WithFailures, OutcomesOf, Extends, CancelAll, CancelOne;
    if a.SpawnRoot? || a.CancelCall? || a.x != x {
      OthersStay(w, a, x);
      hide Step;
    } else if a.CloseFrames? && phase.Abandoned? && AllSettled(es, phase.waiting) {
      Gathered(es, phase.waiting, phase.failure, a.failures);
    } else if a.JoinDone? && phase.Joining? && AllSettled(es, phase.waiting) {
      Gathered(es, phase.waiting, phase.caught, a.failures);
      var primary := AppendChildDefects(phase.caught, OutcomesOf(es, phase.waiting));
      OutcomeCarries(if phase.pending then WithFailures(primary, a.failures) else primary, w.settlements);
    }
  }

  lemma {:induction false} RunGrows(w: World, actions: seq<Action>, x: Id)
    requires Ordered(w.executions) && x < |w.executions| && Carried(w.executions[x].phase).Some?
    ensures x < |Run(w, actions).executions| && Grown(w.executions[x].phase, Run(w, actions).executions[x].phase)
    decreases |actions|
  {
    hide Step, Extends;
    if |actions| == 0 {
      GrownStays(w.executions[x].phase);
    } else {
      StepGrows(w, actions[0], x);
      var v := StepOrdered(w, actions[0]);
      RunGrows(v, actions[1..], x);
      ExtendsTwice(Carried(w.executions[x].phase).value, Carried(v.executions[x].phase).value,
                   Carried(Run(v, actions[1..]).executions[x].phase).value);
    }
  }

  // ----- what children report is carried -----

  /** The child has settled and everything it reports is in the defect. */
  ghost predicate TakenIn(es: seq<Execution>, c: Id, d: Activation.Defect) {
    c < |es| && es[c].phase.Settled? && forall e | Reports(es[c].phase.outcome, e) :: Contains(d, e)
  }

  /** While the recipe runs every adopted child is listed; once it has failed each is listed, waited for, or taken in. */
  ghost predicate Collected(es: seq<Execution>, x: Id)
    requires x < |es|
  {
    var e := es[x];
    && (e.phase.Created? || e.phase.Running? ==> forall c | c in e.adopted :: c in e.children)
    && (Carried(e.phase).Some? ==>
          forall c | c in e.adopted :: c in e.children || c in Waiting(e.phase) || TakenIn(es, c, Carried(e.phase).value))
  }

  ghost predicate AllCollected(w: World) {
    forall x | 0 <= x < |w.executions| :: Collected(w.executions, x)
  }

  lemma TakenInStays(es: seq<Execution>, fs: seq<Execution>, c: Id, d: Activation.Defect, e: Activation.Defect)
    requires TakenIn(es, c, d) && Extends(d, e) && c < |fs| && fs[c].phase == es[c].phase
    ensures TakenIn(fs, c, e)
  {
    hide Reports, Contains, Extends;
    forall r | Reports(fs[c].phase.outcome, r) ensures Contains(e, r) { StillContains(d, e, r); }
  }

  /** Whoever was waited for is taken in when the outcomes are appended. */
  lemma WaitedTakenIn(es: seq<Execution>, waiting: seq<Id>, d: Activation.Defect, c: Id)
    requires AllSettled(es, waiting) && c in waiting
    ensures TakenIn(es, c, AppendChildDefects(d, OutcomesOf(es, waiting)))
  {
    hide Reports, Contains, AppendChildDefects;
    var i :| 0 <= i < |waiting| && waiting[i] == c;
    var outcomes := OutcomesOf(es, waiting);
    forall e | Reports(es[c].phase.outcome, e) ensures Contains(AppendChildDefects(d, outcomes), e) {
      assert Reports(outcomes[i], e);
      NoDefectIsLost(d, outcomes, e);
    }
  }

  /** Settled executions keep their phase. */
  lemma SettledStay(w: World, a: Action)
    requires Ordered(w.executions)
    ensures |w.executions| <= |Step(w, a).executions|
    ensures forall c | 0 <= c < |w.executions| && w.executions[c].phase.Settled? :: Step(w, a).executions[c].phase == w.executions[c].phase
  {
    StepOnward(w, a);
  }

  lemma OthersCollected(w: World, a: Action, y: Id)
    requires Ordered(w.executions) && y < |w.executions| && (a.SpawnRoot? || a.CancelCall? || a.x != y) && Collected(w.executions, y)
    ensures Collected(Step(w, a).executions, y)
  {
    OthersStay(w, a, y);
    SettledStay(w, a);
    hide Step, TakenIn, Contains;
    var es, fs := w.executions, Step(w, a).executions;
    if Carried(fs[y].phase).Some? {
      var d := Carried(fs[y].phase).value;
      SameExtends(d);
      forall c | c in fs[y].adopted && c !in fs[y].children && c !in Waiting(fs[y].phase) ensures TakenIn(fs, c, d) {
        TakenInIsSettled(es, c, d);
        TakenInStays(es, fs, c, d, d);
      }
    }
  }

  lemma TakenInIsSettled(es: seq<Execution>, c: Id, d: Activation.Defect)
    requires TakenIn(es, c, d)
    ensures c < |es| && es[c].phase.Settled?
  {}

  /** When a step gathers outcomes, those waited for are taken in and those taken in before stay. */
  lemma GatheringCollects(es: seq<Execution>, fs: seq<Execution>, x: Id, d: Activation.Defect, e: Activation.Defect)
    requires x < |es| && Collected(es, x) && Carried(es[x].phase) == Some(d) && AllSettled(es, Waiting(es[x].phase))
    requires Extends(d, e) && Extends(AppendChildDefects(d, OutcomesOf(es, Waiting(es[x].phase))), e)
    requires |fs| == |es| && (forall c | 0 <= c < |es| && es[c].phase.Settled? :: fs[c].phase == es[c].phase)
    requires fs[x].children == es[x].children && fs[x].adopted == es[x].adopted && Carried(fs[x].phase) == Some(e)
    ensures Collected(fs, x)
  {
    hide TakenIn, Extends, AppendChildDefects, OutcomesOf;
    var waiting := Waiting(es[x].phase);
    forall c | c in fs[x].adopted && c !in fs[x].children && c !in Waiting(fs[x].phase) ensures TakenIn(fs, c, e) {
      if c in waiting {
        var primary := AppendChildDefects(d, OutcomesOf(es, waiting));
        WaitedTakenIn(es, waiting, d, c);
        TakenInIsSettled(es, c, primary);
        TakenInStays(es, fs, c, primary, e);
      } else {
        TakenInIsSettled(es, c, d);
        TakenInStays(es, fs, c, d, e);
      }
    }
  }

  lemma ClosingCollects(w: World, x: Id, failures: seq<Activation.Defect>)
    requires Ordered(w.executions) && x < |w.executions| && Collected(w.executions, x)
    ensures Collected(Step(w, CloseFrames(x, failures)).executions, x)
  {
    var es, phase := w.executions, w.executions[x].phase;
    if phase.Abandoned? && AllSettled(es, phase.waiting) {
      Gathered(es, phase.waiting, phase.failure, failures);
      var primary := AppendChildDefects(phase.failure, OutcomesOf(es, phase.waiting));
      SettledStay(w, CloseFrames(x, failures));
      GatheringCollects(es, Step(w, CloseFrames(x, failures)).executions, x, phase.failure, WithFailures(primary, failures));
    }
  }

  lemma JoiningCollects(w: World, x: Id, failures: seq<Activation.Defect>)
    requires Ordered(w.executions) && x < |w.executions| && Collected(w.executions, x)
    ensures Collected(Step(w, JoinDone(x, failures)).executions, x)
  {
    var es, phase := w.executions, w.executions[x].phase;
    if phase.Joining? && AllSettled(es, phase.waiting) {
      Gathered(es, phase.waiting, phase.caught, failures);
      var primary := AppendChildDefects(phase.caught, OutcomesOf(es, phase.waiting));
      var failure := if phase.pending then WithFailures(primary, failures) else primary;
      SameExtends(primary);
      OutcomeCarries(failure, w.settlements);
      SettledStay(w, JoinDone(x, failures));
      GatheringCollects(es, Step(w, JoinDone(x, failures)).executions, x, phase.caught, failure);
    }
  }

  /** Taking over the list of children to wait for them, and every step that leaves the children alone. */
  lemma OwnCollected(w: World, a: Action)
    requires Ordered(w.executions) && !a.SpawnRoot? && !a.CancelCall? && a.x < |w.executions| && Collected(w.executions, a.x)
    requires !a.CloseFrames? && !a.JoinDone?
    ensures Collected(Step(w, a).executions, a.x)
  {
    SettledStay(w, a);
    var es, fs, x := w.executions, Step(w, a).executions, a.x;
    hide CancelAll, TakenIn, Contains;
    if Carried(fs[x].phase).Some? && Carried(es[x].phase).Some? {
      var d := Carried(es[x].phase).value;
      SameExtends(d);
      forall c | c in es[x].adopted && TakenIn(es, c, d) ensures TakenIn(fs, c, d) {
        TakenInIsSettled(es, c, d);
        TakenInStays(es, fs, c, d, d);
      }
    }
  }

  lemma FreshCollected(w: World, a: Action, y: Id)
    requires Ordered(w.executions) && |w.executions| <= y < |Step(w, a).executions|
    ensures Collected(Step(w, a).executions, y)
  {}

  lemma StepCollects(w: World, a: Action)
    requires Ordered(w.executions) && AllCollected(w)
    ensures AllCollected(StepOrdered(w, a))
  {
    hide Step, Collected;
    forall y | 0 <= y < |StepOrdered(w, a).executions| ensures Collected(StepOrdered(w, a).executions, y) {
      if y >= |w.executions| {
        FreshCollected(w, a, y);
      } else if a.SpawnRoot? || a.CancelCall? || a.x != y {
        OthersCollected(w, a, y);
      } else if a.CloseFrames? {
        ClosingCollects(w, y, a.failures);
      } else if a.JoinDone? {
        JoiningCollects(w, y, a.failures);
      } else {
        OwnCollected(w, a);
      }
    }
  }

  lemma {:induction false} RunCollects(w: World, actions: seq<Action>)
    requires Ordered(w.executions) && AllCollected(w)
    ensures AllCollected(Run(w, actions))
    decreases |actions|
  {
    hide AllCollected, StepOrdered;
    if |actions| > 0 {
      StepCollects(w, actions[0]);
      RunCollects(StepOrdered(w, actions[0]), actions[1..]);
    }
  }

  // ----- the theorems -----

  /** In every interleaving, when an execution has settled as cancelled or defected, every child it ever adopted has
      settled, and each defect a child reports is in the defect the execution settled with; one that settled as
      cancelled has only children that report nothing but cancellation. */
  lemma ChildDefectsAreReported(actions: seq<Action>, x: Id, c: Id, d: Activation.Defect)
    requires var w := Run(EMPTY, actions);
             x < |w.executions| && w.executions[x].phase.Settled? && !ProducedBy(w.executions[x]) && c in w.executions[x].adopted
    ensures var es := Run(EMPTY, actions).executions;
            && c < |es| && es[c].phase.Settled?
            && (Reports(es[c].phase.outcome, d) ==>
                  match es[x].phase.outcome case Cancelled => d == CANCELLATION case Defected(f) => Contains(f, d) case Produced(_) => false)
  {
    hide Reports;
    Reachable(actions);
    RunCollects(EMPTY, actions);
    var es := Run(EMPTY, actions).executions;
    assert Accounted(es, x) && Disciplined(es, x) && Collected(es, x);
  }

  /** Nobody is ever forgotten: whom an execution has adopted only grows. */
  lemma {:induction false} AdoptedGrows(w: World, actions: seq<Action>, x: Id)
    requires Ordered(w.executions) && x < |w.executions|
    ensures x < |Run(w, actions).executions| && w.executions[x].adopted <= Run(w, actions).executions[x].adopted
    decreases |actions|
  {
    if |actions| > 0 {
      StepAdopts(w, actions[0], x);
      hide Step;
      AdoptedGrows(StepOrdered(w, actions[0]), actions[1..], x);
    }
  }

  lemma StepAdopts(w: World, a: Action, x: Id)
    requires Ordered(w.executions) && x < |w.executions|
    ensures x < |Step(w, a).executions| && w.executions[x].adopted <= Step(w, a).executions[x].adopted
  {
    hide AppendChildDefects, WithFailures, OutcomesOf, CancelAll, CancelOne;
  }

  /** What a running execution spawns is its child, created and not cancelled, and counts as adopted from then on whatever
      follows; what is spawned at the top is nobody's. */
  lemma SpawnedIsAdopted(before: seq<Action>, x: Id, after: seq<Action>)
    requires x < |Run(EMPTY, before).executions| && Run(EMPTY, before).executions[x].phase.Running?
    ensures var w0 := Run(EMPTY, before); var w1 := StepOrdered(w0, Spawn(x)); var c := |w0.executions|;
            && |w1.executions| == c + 1 && w1.executions[c] == Execution(Created, false, [], [])
            && w1.executions[x].children == w0.executions[x].children + [c]
            && x < |Run(w1, after).executions| && c in Run(w1, after).executions[x].adopted
            && StepOrdered(w0, SpawnRoot).executions == w0.executions + [Execution(Created, false, [], [])]
  {
    Reachable(before);
    var w0 := Run(EMPTY, before);
    var w1 := StepOrdered(w0, Spawn(x));
    var adopted := w1.executions[x].adopted;
    assert adopted[|adopted| - 1] == |w0.executions|;
    AdoptedGrows(w1, after, x);
  }

  /** What an execution fails with stays in what it settles with, whatever its children and cleanups add: it is never
      settled as produced, and settled as cancelled only if it failed by cancellation. */
  lemma OwnDefectIsReported(before: seq<Action>, x: Id, d: Activation.Defect, pending: bool, after: seq<Action>)
    requires x < |Run(EMPTY, before).executions| && Run(EMPTY, before).executions[x].phase.Running?
    ensures var w := Run(StepOrdered(Run(EMPTY, before), Throw(x, d, pending)), after);
            && x < |w.executions|
            && (w.executions[x].phase.Settled? ==>
                  match w.executions[x].phase.outcome case Cancelled => d == CANCELLATION case Defected(f) => Contains(f, d) case Produced(_) => false)
  {
    Reachable(before);
    var w0 := Run(EMPTY, before);
    var w1 := StepOrdered(w0, Throw(x, d, pending));
    assert w1.executions[x].phase == Rejected(d, pending);
    RunGrows(w1, after, x);
    var f := Carried(Run(w1, after).executions[x].phase).value;
    StillContains(d, f, d);
  }

  /** The cleanups that ran when retained frames were closed are reported last: all that failed, in order. */
  lemma CleanupFailuresAreReported(w: World, x: Id, failures: seq<Activation.Defect>)
    requires Ordered(w.executions) && x < |w.executions| && failures != []
    requires var phase := w.executions[x].phase; phase.Joining? && phase.pending && AllSettled(w.executions, phase.waiting)
    ensures var after := Step(w, JoinDone(x, failures)).executions[x].phase;
            && after.Settled? && after.outcome.Defected? && after.outcome.defect.Aggregate?
            && var errors := after.outcome.defect.errors; |errors| >= |failures| && errors[|errors| - |failures|..] == failures
  {
    hide AppendChildDefects, OutcomesOf, WithFailures;
    var phase := w.executions[x].phase;
    var primary := AppendChildDefects(phase.caught, OutcomesOf(w.executions, phase.waiting));
    FailuresExtend(primary, failures);
  }

  // ----- retained frames are closed once -----

  function Closings(w: World, x: Id): nat {
    multiset(w.history)[ClosedFrames(x)]
  }

  /** Frames kept back until the children are in. */
  function Owed(phase: Phase): nat {
    match phase
    case Abandoned(_, _) => 1
    case Rejected(_, pending) => if pending then 1 else 0
    case Joining(_, _, pending) => if pending then 1 else 0
    case _ => 0
  }

  predicate Begun(phase: Phase) {
    !phase.Created? && !phase.Running?
  }

  /** Nothing is closed before a recipe has failed. */
  ghost predicate NothingClosedEarly(w: World) {
    forall x: Id | x < |w.executions| ==> !Begun(w.executions[x].phase) :: Closings(w, x) == 0
  }

  /** A step closes frames of the execution it is about only. */
  lemma OthersClose(w: World, a: Action, x: Id)
    requires Ordered(w.executions) && (a.SpawnRoot? || a.CancelCall? || a.x != x)
    ensures Closings(Step(w, a), x) == Closings(w, x)
  {
    hide AppendChildDefects, WithFailures, OutcomesOf, CancelAll, CancelOne, OutcomeOf;
  }

  lemma StepCloses(w: World, a: Action, x: Id)
    requires Ordered(w.executions) && x < |w.executions| && Begun(w.executions[x].phase)
    ensures var v := Step(w, a);
            && x < |v.executions| && Begun(v.executions[x].phase)
            && Closings(v, x) + Owed(v.executions[x].phase) == Closings(w, x) + Owed(w.executions[x].phase)
  {
    hide AppendChildDefects, WithFailures, OutcomesOf, CancelAll, CancelOne, OutcomeOf;
    if a.SpawnRoot? || a.CancelCall? || a.x != x {
      OthersStay(w, a, x);
      OthersClose(w, a, x);
      hide Step, Closings;
    } else {
      OwnCloses(w, a);
      hide Step, Closings, Owed;
    }
  }

  lemma OwnCloses(w: World, a: Action)
    requires Ordered(w.executions) && !a.SpawnRoot? && !a.CancelCall? && a.x < |w.executions| && Begun(w.executions[a.x].phase)
    ensures var v := Step(w, a);
            && a.x < |v.executions| && Begun(v.executions[a.x].phase)
            && Closings(v, a.x) + Owed(v.executions[a.x].phase) == Closings(w, a.x) + Owed(w.executions[a.x].phase)
  {
    hide AppendChildDefects, WithFailures, OutcomesOf, CancelAll, CancelOne, OutcomeOf;
  }

  lemma {:induction false} RunCloses(w: World, actions: seq<Action>, x: Id)
    requires Ordered(w.executions) && x < |w.executions| && Begun(w.executions[x].phase)
    ensures var v := Run(w, actions);
            && x < |v.executions| && Begun(v.executions[x].phase)
            && Closings(v, x) + Owed(v.executions[x].phase) == Closings(w, x) + Owed(w.executions[x].phase)
    decreases |actions|
  {
    if |actions| > 0 {
      StepCloses(w, actions[0], x);
      hide Step, Closings, Owed, Begun;
      RunCloses(StepOrdered(w, actions[0]), actions[1..], x);
    }
  }

  lemma StepClosesNothingEarly(w: World, a: Action)
    requires Ordered(w.executions) && NothingClosedEarly(w)
    ensures NothingClosedEarly(Step(w, a))
  {
    hide Step, Closings, Begun;
    SettledStay(w, a);
    var v := Step(w, a);
    forall x: Id | x < |v.executions| ==> !Begun(v.executions[x].phase) ensures Closings(v, x) == 0 {
      if a.SpawnRoot? || a.CancelCall? || a.x != x {
        OthersClose(w, a, x);
        if x < |w.executions| { OthersStay(w, a, x); }
        assert Closings(w, x) == 0;
      } else {
        OwnNotEarly(w, a);
      }
    }
  }

  lemma OwnNotEarly(w: World, a: Action)
    requires Ordered(w.executions) && NothingClosedEarly(w) && !a.SpawnRoot? && !a.CancelCall?
    requires a.x < |Step(w, a).executions| ==> !Begun(Step(w, a).executions[a.x].phase)
    ensures Closings(Step(w, a), a.x) == 0
  {
    hide AppendChildDefects, WithFailures, OutcomesOf, CancelAll, CancelOne, OutcomeOf;
  }

  lemma {:induction false} RunClosesNothingEarly(w: World, actions: seq<Action>)
    requires Ordered(w.executions) && NothingClosedEarly(w)
    ensures NothingClosedEarly(Run(w, actions))
    decreases |actions|
  {
    if |actions| > 0 {
      StepClosesNothingEarly(w, actions[0]);
      hide Step, NothingClosedEarly;
      RunClosesNothingEarly(StepOrdered(w, actions[0]), actions[1..]);
    }
  }

  /** How many times a failure has frames to be closed. */
  function KeepsBack(a: Action): nat {
    if a.Abandon? || (a.Throw? && a.pending) then 1 else 0
  }

  lemma FailureBegins(w: World, a: Action)
    requires Ordered(w.executions) && (a.Throw? || a.Abandon? || a.Complete?) && a.x < |w.executions|
    requires w.executions[a.x].phase.Running? && (a.Complete? ==> w.executions[a.x].aborted)
    ensures var v := Step(w, a);
            && v.history == w.history && |v.executions| == |w.executions|
            && Begun(v.executions[a.x].phase) && Owed(v.executions[a.x].phase) == KeepsBack(a)
  {
    hide CancelAll;
  }

  /** Frames that a failure keeps back are closed exactly once by the time the execution has settled; a failure that
      keeps none back closes none. */
  lemma RetainedFramesAreClosedOnce(before: seq<Action>, x: Id, a: Action, after: seq<Action>)
    requires var es := Run(EMPTY, before).executions; x < |es| && es[x].phase.Running? && (a.Complete? ==> es[x].aborted)
    requires (a.Throw? || a.Abandon? || a.Complete?) && a.x == x
    ensures var w := Run(StepOrdered(Run(EMPTY, before), a), after);
            && x < |w.executions|
            && (w.executions[x].phase.Settled? ==>
                  multiset(w.history)[ClosedFrames(x)] == if a.Abandon? || (a.Throw? && a.pending) then 1 else 0)
  {
    hide Step, Run, Inv;
    Reachable(before);
    RunClosesNothingEarly(EMPTY, before);
    var w0 := Run(EMPTY, before);
    assert Closings(w0, x) == 0;
    FailureBegins(w0, a);
    RunCloses(StepOrdered(w0, a), after, x);
  }

  /** A recipe that completes and was not cancelled settles with its value, for good. */
  lemma ProductIsDelivered(before: seq<Action>, x: Id, value: Value, after: seq<Action>)
    requires var es := Run(EMPTY, before).executions; x < |es| && es[x].phase.Running? && !es[x].aborted
    ensures var w0 := Run(EMPTY, before); var w := Run(StepOrdered(w0, Complete(x, value)), after);
            x < |w.executions| && w.executions[x].phase == Settled(Produced(value), w0.settlements)
  {
    Reachable(before);
    var w0 := Run(EMPTY, before);
    var w1 := StepOrdered(w0, Complete(x, value));
    assert w1.executions[x].phase == Settled(Produced(value), w0.settlements);
    StepKeeps(w0, Complete(x, value));
    RunOnward(w1, after);
  }

  /** Nothing else settles as produced. */
  lemma OnlyCompletionProduces(w: World, a: Action, x: Id)
    requires Ordered(w.executions) && x < |Step(w, a).executions| && ProducedBy(Step(w, a).executions[x])
    requires x < |w.executions| ==> !w.executions[x].phase.Settled?
    ensures x < |w.executions| && w.executions[x].phase.Running? && !w.executions[x].aborted
    ensures a == Complete(x, Step(w, a).executions[x].phase.outcome.value)
  {
    hide AppendChildDefects, WithFailures, OutcomesOf, CancelAll, CancelOne;
  }
}
