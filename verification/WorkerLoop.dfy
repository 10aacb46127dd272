/** A worker's whole life: tasks one after another, each answered from a mirror of the table it was issued for. */
module WorkerLoop {
  import opened Values
  import opened Documents
  import opened Workers

  /** What the owner may queue. A broken task is one that fails or panics at any point; it leaves behind whatever it had
      made of the worker by then. */
  datatype Task =
    | Analyse(snapshot: Store)
    | Watch(snapshot: Store)
    | SeedClosed(snapshot: Store, uri: Uri, text: string)
    | CloseDocument(before: Store, uri: Uri, after: Store)
    | Broken(docs: map<Uri, Document>, owner: Store, profile: Profile, initialized: bool)

  datatype WorkItem = WorkItem(task: Task, cancelAfter: Option<nat>, failAfter: Option<nat>)

  /** The table a task answered from, if it did. */
  datatype Outcome = Answered(view: Store) | Failed

  function Requested(task: Task): Store {
    match task
    case Analyse(s) => s
    case Watch(s) => s
    case SeedClosed(s, _, _) => s
    case CloseDocument(_, _, after) => after
    case Broken(_, owner, _, _) => owner
  }

  ghost predicate OfRun(ns: seq<Notification>, s: Store) {
    exists k :: 0 <= k <= |ns| && s == After(ns[..k])
  }

  /** Every snapshot is one the owner's run of notifications passed through. */
  ghost predicate Issued(ns: seq<Notification>, task: Task) {
    match task
    case Analyse(s) => OfRun(ns, s)
    case Watch(s) => OfRun(ns, s)
    case SeedClosed(s, uri, _) => OfRun(ns, s) && uri !in s.docs
    case CloseDocument(before, uri, after) => OfRun(ns, before) && OfRun(ns, after) && after == Closed(before, uri)
    case Broken(_, _, _, _) => true
  }

  lemma OneRunIsReachable(ns: seq<Notification>, a: Store, b: Store)
    requires OfRun(ns, a) && OfRun(ns, b)
    ensures Ordered(a) && Ordered(b) && (a.revision <= b.revision <==> Later(a, b))
  {
    var i :| 0 <= i <= |ns| && a == After(ns[..i]);
    var j :| 0 <= j <= |ns| && b == After(ns[..j]);
    RevisionsTellWhichIsLater(ns, i, j);
  }

  lemma SeedingLeavesNoTrace(mine: Store, theirs: Store, uri: Uri, text: string)
    requires InStep(mine, theirs) && uri !in theirs.docs
    ensures InStep(Closed(Opened(mine, uri, text, 0), uri), theirs)
  {
    hide Mirrors;
    MirrorShows(mine.docs, theirs.docs, uri);
    assert Closed(Opened(mine, uri, text, 0), uri).docs == mine.docs;
  }

  lemma TouchingFilesKeepsStep(mine: Store, theirs: Store)
    requires InStep(mine, theirs)
    ensures InStep(FilesystemChanged(mine), theirs)
  {
  }

  method RunTask(worker: WorkerState, task: Task, ghost ns: seq<Notification>, around: Surroundings)
    returns (outcome: Outcome)
    requires worker.Valid() && (worker.initialized ==> OfRun(ns, worker.ownerSnapshot)) && Issued(ns, task)
    modifies worker, worker.documents, around
    ensures worker.documents == old(worker.documents) || fresh(worker.documents)
    ensures worker.Valid() && (worker.initialized ==> OfRun(ns, worker.ownerSnapshot))
    ensures worker.initialized <==> outcome.Answered?
    ensures outcome.Answered? ==> worker.ownerSnapshot == Requested(task) && outcome.view == worker.documents.Snapshot()
                                  && worker.compilerProfile == Requested(task).profile
    ensures old(around.Calm()) && !task.Broken? ==> outcome.Answered?
  {
    hide Ordered, Mirrors, Later, OfRun;
    if task.Broken? {
      worker.documents.docs, worker.ownerSnapshot := task.docs, task.owner;
      worker.compilerProfile, worker.initialized := task.profile, task.initialized;
      worker.Invalidate();
      return Failed;
    }
    var snapshot := if task.CloseDocument? then task.before else task.snapshot;
    if worker.initialized {
      OneRunIsReachable(ns, worker.ownerSnapshot, snapshot);
    } else {
      OneRunIsReachable(ns, snapshot, snapshot);
    }
    var error := worker.Synchronize(snapshot, around);
    if error != None { return Failed; }
    var ok := around.Checkpoint();
    if !ok {
      worker.Invalidate();
      return Failed;
    }
    if task.Watch? {
      TouchingFilesKeepsStep(worker.documents.Snapshot(), snapshot);
      worker.documents.NoteFilesystemChange();
    } else if task.SeedClosed? {
      SeedingLeavesNoTrace(worker.documents.Snapshot(), snapshot, task.uri, task.text);
      ok := worker.CompilerOpen(task.uri, task.text, 0, around);
      if !ok {
        worker.Invalidate();
        return Failed;
      }
      worker.CompilerClose(task.uri);
    } else if task.CloseDocument? {
      ClosedMirrors(worker.documents.Snapshot(), snapshot.docs, task.uri);
      worker.CompilerClose(task.uri);
      worker.AdoptSnapshot(task.after);
      OneRunIsReachable(ns, task.after, task.after);
    }
    outcome := Answered(worker.documents.Snapshot());
  }

  /** Whatever failed or panicked before it, a task that is answered is answered from the table it was issued for; and a
      task that nothing disturbs is answered. */
  method RunTasks(worker: WorkerState, items: seq<WorkItem>, ghost ns: seq<Notification>) returns (outcomes: seq<Outcome>)
    requires worker.Valid() && !worker.initialized
    requires forall i :: 0 <= i < |items| ==> Issued(ns, items[i].task)
    modifies worker, worker.documents
    ensures |outcomes| == |items|
    ensures forall i :: 0 <= i < |items| && outcomes[i].Answered? ==> InStep(outcomes[i].view, Requested(items[i].task))
    ensures forall i :: 0 <= i < |items| && !items[i].task.Broken? && items[i].cancelAfter == items[i].failAfter == None ==>
              outcomes[i].Answered?
  {
    hide Ordered, Mirrors, Issued, OfRun;
    outcomes := [];
    for i := 0 to |items|
      invariant worker.documents == old(worker.documents) || fresh(worker.documents)
      invariant worker.Valid() && (worker.initialized ==> OfRun(ns, worker.ownerSnapshot))
      invariant |outcomes| == i
      invariant forall k :: 0 <= k < i && outcomes[k].Answered? ==> InStep(outcomes[k].view, Requested(items[k].task))
      invariant forall k :: 0 <= k < i && !items[k].task.Broken? && items[k].cancelAfter == items[k].failAfter == None ==>
                  outcomes[k].Answered?
    {
      var around := new Surroundings(items[i].cancelAfter, items[i].failAfter);
      var outcome := RunTask(worker, items[i].task, ns, around);
      outcomes := outcomes + [outcome];
    }
  }
}
