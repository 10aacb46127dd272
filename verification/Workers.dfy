/** One worker's private mirror of the open documents, reconciled to an owner snapshot before every task. */
module Workers {
  import opened Ordering
  import opened Values
  import opened Documents

  // ---- mirrors ---------------------------------------------------------------------------------------------------

  /** The same documents with the same text and version, updated in the same order. The stamps themselves differ. */
  ghost predicate Mirrors(mine: map<Uri, Document>, theirs: map<Uri, Document>) {
    mine.Keys == theirs.Keys &&
    (forall u :: u in mine ==> mine[u].text == theirs[u].text && mine[u].version == theirs[u].version) &&
    (forall u, v :: u in mine && v in mine ==>
      (mine[u].updateRevision < mine[v].updateRevision <==> theirs[u].updateRevision < theirs[v].updateRevision))
  }

  /** `d` was updated after every other document of `docs`. */
  ghost predicate Latest(docs: map<Uri, Document>, uri: Uri, d: Document) {
    forall v :: v in docs && v != uri ==> docs[v].updateRevision < d.updateRevision
  }

  /** Any document put on top of a mirror, on both sides, leaves a mirror. */
  lemma TopsMirror(mine: map<Uri, Document>, theirs: map<Uri, Document>, uri: Uri, a: Document, b: Document)
    requires Mirrors(mine, theirs) && a.text == b.text && a.version == b.version
    requires Latest(mine, uri, a) && Latest(theirs, uri, b)
    ensures Mirrors(mine[uri := a], theirs[uri := b])
  {
    var m, t := mine[uri := a], theirs[uri := b];
    assert m.Keys == t.Keys;
    forall u, v | u in m && v in m
      ensures m[u].updateRevision < m[v].updateRevision <==> t[u].updateRevision < t[v].updateRevision
    {
      if u != uri && v != uri {
        assert u in mine && v in mine;
      } else if u != v {
        var other := if u == uri then v else u;
        assert other in mine && other in theirs;
      }
    }
  }

  lemma RemovalMirrors(mine: map<Uri, Document>, theirs: map<Uri, Document>, uri: Uri)
    requires Mirrors(mine, theirs)
    ensures Mirrors(mine - {uri}, theirs - {uri})
  {
    assert (mine - {uri}).Keys == mine.Keys - {uri};
    assert (theirs - {uri}).Keys == theirs.Keys - {uri};
  }

  /** Why the owner drops stale untitled changes itself: the worker drops them too, and would fall out of step with an
      owner that took them. */
  lemma StaleChangeWouldDiverge(mine: Store, theirs: Store, uri: Uri, text: string, version: int)
    requires Mirrors(mine.docs, theirs.docs) && Stale(theirs, uri, version) && text != theirs.docs[uri].text
    ensures !Mirrors(Notified(mine, DidChange(uri, text, version)).docs, Changed(theirs, uri, text, version).docs)
  {
    hide IsUntitled;
    assert Stale(mine, uri, version);
    assert uri in mine.docs;
  }

  // ---- the surroundings ------------------------------------------------------------------------------------------

  datatype TaskError = Cancelled | Internal

  /** What happens around one task: the checkpoint from which its token reads as cancelled, and the compiler call that
      reports an error. Either may never come. */
  class Surroundings {
    var cancelAfter: Option<nat>
    var failAfter: Option<nat>

    constructor (cancelAfter: Option<nat>, failAfter: Option<nat>)
      ensures this.cancelAfter == cancelAfter && this.failAfter == failAfter
    {
      this.cancelAfter := cancelAfter;
      this.failAfter := failAfter;
    }

    predicate Calm()
      reads this
    {
      cancelAfter == None && failAfter == None
    }

    method Checkpoint() returns (ok: bool)
      modifies `cancelAfter
      ensures old(Calm()) ==> ok && Calm()
    {
      match cancelAfter
      case None => ok := true;
      case Some(n) =>
        ok := n > 0;
        cancelAfter := if n > 0 then Some(n - 1) else cancelAfter;
    }

    method CompilerCall() returns (ok: bool)
      modifies `failAfter
      ensures old(Calm()) ==> ok && Calm()
    {
      match failAfter
      case None => ok := true;
      case Some(n) =>
        ok := n != 0;
        failAfter := if n > 0 then Some(n - 1) else None;
    }
  }

  // ---- the worker ------------------------------------------------------------------------------------------------

  /** A well-formed table of the worker's own that mirrors a well-formed table of the owner's. */
  ghost predicate InStep(mine: Store, theirs: Store) {
    Ordered(mine) && Ordered(theirs) && Mirrors(mine.docs, theirs.docs)
  }

  predicate UpdatedBefore(s: Store, u: Uri, v: Uri)
    requires u in s.docs && v in s.docs
  {
    s.docs[u].updateRevision < s.docs[v].updateRevision
    || (s.docs[u].updateRevision == s.docs[v].updateRevision && Less(u, v))
  }

  ghost predicate InUpdateOrder(s: Store, order: seq<Uri>) {
    (forall i :: 0 <= i < |order| ==> order[i] in s.docs) &&
    forall i, j :: 0 <= i < j < |order| ==> s.docs[order[i]].updateRevision < s.docs[order[j]].updateRevision
  }

  function Elements(order: seq<Uri>): set<Uri> { set u | u in order }

  lemma OneMoreElement(order: seq<Uri>, at: nat, u: Uri)
    requires at <= |order|
    ensures Elements(PutAt(order, at, u)) == Elements(order) + {u}
  {
    var after := PutAt(order, at, u);
    forall v ensures v in after <==> v in order || v == u {
      assert v in multiset(after) <==> v in multiset(order) || v == u;
    }
  }

  lemma Inserted(s: Store, order: seq<Uri>, at: nat, u: Uri)
    requires InUpdateOrder(s, order) && at <= |order| && u in s.docs
    requires at > 0 ==> s.docs[order[at - 1]].updateRevision < s.docs[u].updateRevision
    requires forall k :: at <= k < |order| ==> s.docs[u].updateRevision < s.docs[order[k]].updateRevision
    ensures InUpdateOrder(s, PutAt(order, at, u))
  {
    var after := PutAt(order, at, u);
    forall k | 0 <= k < at ensures s.docs[order[k]].updateRevision < s.docs[u].updateRevision {
      if k < at - 1 { assert s.docs[order[k]].updateRevision < s.docs[order[at - 1]].updateRevision; }
    }
    assert forall k :: 0 <= k < |after| ==> after[k] in s.docs;
    forall i, j | 0 <= i < j < |after| ensures s.docs[after[i]].updateRevision < s.docs[after[j]].updateRevision {
      var x, y := after[i], after[j];
    }
  }

  /** Closing one document after the other. */
  function ClosedAll(s: Store, uris: seq<Uri>): Store
    decreases |uris|
  {
    if uris == [] then s else Closed(ClosedAll(s, uris[..|uris| - 1]), uris[|uris| - 1])
  }

  lemma ClosedOneMore(s: Store, uris: seq<Uri>, uri: Uri)
    ensures ClosedAll(s, uris + [uri]) == Closed(ClosedAll(s, uris), uri)
    ensures Elements(uris + [uri]) == Elements(uris) + {uri}
  {
    assert (uris + [uri])[..|uris|] == uris;
  }

  lemma NothingClosed(s: Store)
    ensures ClosedAll(s, []) == s && Elements([]) == {} && Reversed([]) == []
  {}

  lemma LeftOneMore(docs: map<Uri, Document>, gone: set<Uri>, uri: Uri)
    ensures docs - gone - {uri} == docs - (gone + {uri})
  {}

  lemma ReversedOneMore(order: seq<Uri>, i: nat)
    requires i < |order|
    ensures Reversed(order[i..]) == Reversed(order[i + 1..]) + [order[i]]
  {
    assert order[i..][1..] == order[i + 1..];
  }

  ghost predicate LatestFirst(s: Store, order: seq<Uri>) {
    (forall i :: 0 <= i < |order| ==> order[i] in s.docs) &&
    forall i, j :: 0 <= i < j < |order| ==> s.docs[order[i]].updateRevision > s.docs[order[j]].updateRevision
  }

  function Reversed(order: seq<Uri>): (r: seq<Uri>)
    ensures |r| == |order| && forall i :: 0 <= i < |r| ==> r[i] == order[|order| - 1 - i]
    decreases |order|
  {
    if order == [] then [] else Reversed(order[1..]) + [order[0]]
  }

  lemma ReversedSuffix(s: Store, order: seq<Uri>, i: nat)
    requires InUpdateOrder(s, order) && i <= |order|
    ensures LatestFirst(s, Reversed(order[i..])) && Elements(Reversed(order[i..])) <= Elements(order)
    ensures i == 0 ==> Elements(Reversed(order[i..])) == Elements(order)
  {
    var rest, back := order[i..], Reversed(order[i..]);
    forall k | 0 <= k < |back| ensures back[k] in order {
      assert back[k] == rest[|rest| - 1 - k] == order[i + (|rest| - 1 - k)];
    }
    if i == 0 {
      forall u | u in order ensures u in back {
        var k :| 0 <= k < |order| && order[k] == u;
        assert back[|order| - 1 - k] == u;
      }
    }
  }

  /** The chosen documents of a table, the longest untouched first. */
  method ListInUpdateOrder(s: Store, uris: set<Uri>) returns (order: seq<Uri>)
    requires Ordered(s) && uris <= s.docs.Keys
    ensures InUpdateOrder(s, order) && Elements(order) == uris
  {
    hide Ordered;
    order := [];
    var rest := uris;
    while rest != {}
      invariant InUpdateOrder(s, order) && Elements(order) + rest == uris && Elements(order) !! rest
      decreases rest
    {
      var u :| u in rest;
      var at: nat := |order|;
      assert u !in order;
      while at > 0 && UpdatedBefore(s, u, order[at - 1])
        invariant at <= |order|
        invariant forall k :: at <= k < |order| ==> s.docs[u].updateRevision < s.docs[order[k]].updateRevision
      {
        at := at - 1;
        StampsDiffer(s, u, order[at]);
      }
      if at > 0 { StampsDiffer(s, u, order[at - 1]); }
      Inserted(s, order, at, u);
      OneMoreElement(order, at, u);
      order := PutAt(order, at, u);
      rest := rest - {u};
    }
  }

  lemma StampsDiffer(s: Store, u: Uri, v: Uri)
    requires Ordered(s) && u in s.docs && v in s.docs && u != v
    ensures s.docs[u].updateRevision != s.docs[v].updateRevision
  {
  }

  // ---- one reconciliation, document by document ------------------------------------------------------------------

  /** The owner's table part of the way from `before` to `after`: gone is what `after` lacks, and `done` is up to date. */
  function Midway(before: Store, after: Store, done: set<Uri>): map<Uri, Document> {
    map u | u in after.docs.Keys && (u in done || u in before.docs) :: if u in done then after.docs[u] else before.docs[u]
  }

  ghost predicate Reconcilable(before: Store, after: Store) {
    Ordered(before) && Ordered(after) && Later(before, after)
  }

  lemma NothingToDo(before: Store, after: Store, done: set<Uri>, uri: Uri)
    requires uri in before.docs && uri in after.docs && before.docs[uri] == after.docs[uri] && uri !in done
    ensures Midway(before, after, done + {uri}) == Midway(before, after, done)
  {
  }

  lemma StampInThePast(s: Store, u: Uri)
    requires Ordered(s) && u in s.docs
    ensures s.docs[u].updateRevision <= s.revision
  {
  }

  lemma OneMoreDone(s: Store, order: seq<Uri>, i: nat)
    requires InUpdateOrder(s, order) && i < |order|
    ensures order[i] !in Elements(order[..i]) && Elements(order[..i + 1]) == Elements(order[..i]) + {order[i]}
    ensures forall v :: v in Elements(order[..i]) ==> v in s.docs && s.docs[v].updateRevision < s.docs[order[i]].updateRevision
  {
    assert order[..i + 1] == order[..i] + [order[i]];
    forall v | v in Elements(order[..i]) ensures v in s.docs && s.docs[v].updateRevision < s.docs[order[i]].updateRevision {
      var k :| 0 <= k < i && order[..i][k] == v;
      assert order[k] == v;
    }
  }

  lemma NextInOrder(before: Store, after: Store, order: seq<Uri>, i: nat)
    requires Reconcilable(before, after) && InUpdateOrder(after, order) && i < |order| && order[i] in after.docs
    requires !(order[i] in before.docs && before.docs[order[i]] == after.docs[order[i]])
    ensures order[i] !in Elements(order[..i])
    ensures Latest(Midway(before, after, Elements(order[..i])), order[i], after.docs[order[i]])
    ensures Midway(before, after, Elements(order[..i + 1]))
         == Midway(before, after, Elements(order[..i]))[order[i] := after.docs[order[i]]]
  {
    hide Ordered, InUpdateOrder, Elements, IsUntitled;
    OneMoreDone(after, order, i);
    var u, done := order[i], Elements(order[..i]);
    assert Follows(before, after.docs[u], u);
    var t := Midway(before, after, done);
    forall v | v in t.Keys && v != u ensures t[v].updateRevision < after.docs[u].updateRevision {
      if v !in done { StampInThePast(before, v); }
    }
  }

  lemma KeptWhileDone(before: Store, after: Store, order: seq<Uri>, i: nat)
    requires InUpdateOrder(after, order) && i < |order|
    requires order[i] in before.docs && before.docs[order[i]] == after.docs[order[i]]
    ensures Midway(before, after, Elements(order[..i + 1])) == Midway(before, after, Elements(order[..i]))
  {
    OneMoreDone(after, order, i);
    NothingToDo(before, after, Elements(order[..i]), order[i]);
  }

  /** A document opened now is on top of the worker's own table. */
  lemma OpenedOnTop(mine: Store, theirs: map<Uri, Document>, uri: Uri, d: Document)
    requires Ordered(mine) && Mirrors(mine.docs, theirs) && Latest(theirs, uri, d)
    ensures Ordered(Opened(mine, uri, d.text, d.version))
    ensures Mirrors(Opened(mine, uri, d.text, d.version).docs, theirs[uri := d])
  {
    hide Mirrors;
    var now := mine.revision + 1;
    TopsMirror(mine.docs, theirs, uri, Document(d.text, d.version, now, now), d);
  }

  lemma ChangedOnTop(mine: Store, theirs: map<Uri, Document>, uri: Uri, d: Document)
    requires Ordered(mine) && Mirrors(mine.docs, theirs) && Latest(theirs, uri, d) && uri in mine.docs
    ensures Ordered(Changed(mine, uri, d.text, d.version))
    ensures Mirrors(Changed(mine, uri, d.text, d.version).docs, theirs[uri := d])
  {
    hide Mirrors;
    var now := mine.revision + 1;
    TopsMirror(mine.docs, theirs, uri, Document(d.text, d.version, now, mine.docs[uri].lifecycleRevision), d);
  }

  lemma ClosedMirrors(mine: Store, theirs: map<Uri, Document>, uri: Uri)
    requires Ordered(mine) && Mirrors(mine.docs, theirs)
    ensures Ordered(Closed(mine, uri)) && Mirrors(Closed(mine, uri).docs, theirs - {uri})
  {
    RemovalMirrors(mine.docs, theirs, uri);
  }

  lemma MirrorShows(mine: map<Uri, Document>, theirs: map<Uri, Document>, uri: Uri)
    requires Mirrors(mine, theirs)
    ensures uri in mine <==> uri in theirs
    ensures uri in mine ==> mine[uri].text == theirs[uri].text && mine[uri].version == theirs[uri].version
  {
  }

  /** Within one lifecycle the owner never asks for a change the untitled rule would drop. */
  lemma NeverStale(before: Store, after: Store, mine: Store, theirs: map<Uri, Document>, uri: Uri)
    requires Reconcilable(before, after) && Mirrors(mine.docs, theirs)
    requires uri in before.docs && uri in after.docs && before.docs[uri] != after.docs[uri]
    requires before.docs[uri].lifecycleRevision == after.docs[uri].lifecycleRevision
    requires uri in theirs ==> theirs[uri] == before.docs[uri]
    ensures !Stale(mine, uri, after.docs[uri].version)
  {
    hide IsUntitled;
    assert Follows(before, after.docs[uri], uri);
  }

  class WorkerState {
    var compilerProfile: Profile
    var documents: DocumentStore
    var ownerSnapshot: Store
    var initialized: bool

    /** Between tasks: an initialised worker is in step with the snapshot it last reached. */
    ghost predicate Valid()
      reads this, documents
    {
      initialized ==> InStep(documents.Snapshot(), ownerSnapshot) && compilerProfile == ownerSnapshot.profile
    }

    constructor ()
      ensures Valid() && !initialized && fresh(documents)
    {
      compilerProfile := Development;
      documents := new DocumentStore();
      ownerSnapshot := EmptyStore();
      initialized := false;
    }

    // The compiler applies each change to the table first; its own session may then report an error.

    method CompilerOpen(uri: Uri, text: string, version: int, around: Surroundings) returns (ok: bool)
      modifies documents, around
      ensures documents.Snapshot() == Opened(old(documents.Snapshot()), uri, text, version)
      ensures old(around.Calm()) ==> ok && around.Calm()
    {
      documents.Open(uri, text, version);
      ok := around.CompilerCall();
    }

    method CompilerChange(uri: Uri, text: string, version: int, around: Surroundings) returns (ok: bool)
      modifies documents, around
      ensures documents.Snapshot() == Notified(old(documents.Snapshot()), DidChange(uri, text, version))
      ensures old(around.Calm()) ==> ok && around.Calm()
    {
      if IsUntitled(uri) && uri in documents.docs && version <= documents.docs[uri].version { return true; }
      var changed := documents.ChangeFull(uri, text, version);
      if !changed { return true; }
      ok := around.CompilerCall();
    }

    method CompilerClose(uri: Uri)
      modifies documents
      ensures documents.Snapshot() == Closed(old(documents.Snapshot()), uri)
    {
      documents.Close(uri);
    }

    /** Close what the snapshot no longer holds, the latest updated first. */
    method CloseRemoved(snapshot: Store, around: Surroundings) returns (error: Option<TaskError>, ghost closed: seq<Uri>)
      requires Reconcilable(ownerSnapshot, snapshot) && InStep(documents.Snapshot(), ownerSnapshot)
      modifies documents, around
      ensures documents.Snapshot() == ClosedAll(old(documents.Snapshot()), closed) && LatestFirst(ownerSnapshot, closed)
      ensures Elements(closed) <= ownerSnapshot.docs.Keys - snapshot.docs.Keys
      ensures error == None ==> Elements(closed) == ownerSnapshot.docs.Keys - snapshot.docs.Keys
                                && Ordered(documents.Snapshot())
                                && Mirrors(documents.docs, Midway(ownerSnapshot, snapshot, {}))
      ensures old(around.Calm()) ==> error == None && around.Calm()
    {
      hide Ordered, Mirrors, Later, Closed, ClosedAll, Reversed, LatestFirst, Elements, InUpdateOrder;
      NothingClosed(documents.Snapshot());
      var gone := set u | u in ownerSnapshot.docs.Keys && u !in snapshot.docs;
      var removed := ListInUpdateOrder(ownerSnapshot, gone);
      closed := [];
      assert ownerSnapshot.docs - {} == ownerSnapshot.docs;
      assert removed[|removed|..] == [];
      for i := |removed| downto 0
        invariant closed == Reversed(removed[i..]) && documents.Snapshot() == ClosedAll(old(documents.Snapshot()), closed)
        invariant Ordered(documents.Snapshot())
        invariant Mirrors(documents.docs, ownerSnapshot.docs - Elements(closed))
        invariant old(around.Calm()) ==> around.Calm()
      {
        ReversedSuffix(ownerSnapshot, removed, i + 1);
        var ok := around.Checkpoint();
        if !ok { return Some(Cancelled), closed; }
        ghost var theirs := ownerSnapshot.docs - Elements(closed);
        ClosedMirrors(documents.Snapshot(), theirs, removed[i]);
        CompilerClose(removed[i]);
        ReversedOneMore(removed, i);
        ClosedOneMore(old(documents.Snapshot()), closed, removed[i]);
        LeftOneMore(ownerSnapshot.docs, Elements(closed), removed[i]);
        closed := closed + [removed[i]];
      }
      ReversedSuffix(ownerSnapshot, removed, 0);
      assert removed[0..] == removed;
      assert ownerSnapshot.docs - gone == Midway(ownerSnapshot, snapshot, {});
      error := None;
    }

    /** Bring one document that differs up to date: changed in place, or closed first when it was reopened. */
    method Update(uri: Uri, snapshot: Store, ghost theirs: map<Uri, Document>, around: Surroundings)
      returns (error: Option<TaskError>)
      requires Reconcilable(ownerSnapshot, snapshot) && uri in snapshot.docs
      requires !(uri in ownerSnapshot.docs && ownerSnapshot.docs[uri] == snapshot.docs[uri])
      requires Ordered(documents.Snapshot()) && Mirrors(documents.docs, theirs)
      requires Latest(theirs, uri, snapshot.docs[uri])
      requires if uri in ownerSnapshot.docs then uri in theirs && theirs[uri] == ownerSnapshot.docs[uri] else uri !in theirs
      modifies documents, around
      ensures error == None ==> Ordered(documents.Snapshot())
                                && Mirrors(documents.docs, theirs[uri := snapshot.docs[uri]])
      ensures old(around.Calm()) ==> error == None && around.Calm()
    {
      hide Ordered, Mirrors, Later, IsUntitled;
      var desired := snapshot.docs[uri];
      ghost var base := theirs;
      MirrorShows(documents.docs, theirs, uri);
      var reopened := uri in ownerSnapshot.docs && ownerSnapshot.docs[uri].lifecycleRevision != desired.lifecycleRevision;
      if reopened {
        ClosedMirrors(documents.Snapshot(), theirs, uri);
        CompilerClose(uri);
        base := theirs - {uri};
        MirrorShows(documents.docs, base, uri);
      }
      assert base[uri := desired] == theirs[uri := desired];
      var ok;
      if uri in documents.docs {
        NeverStale(ownerSnapshot, snapshot, documents.Snapshot(), base, uri);
        ChangedOnTop(documents.Snapshot(), base, uri, desired);
        ok := CompilerChange(uri, desired.text, desired.version, around);
      } else {
        OpenedOnTop(documents.Snapshot(), base, uri, desired);
        ok := CompilerOpen(uri, desired.text, desired.version, around);
      }
      error := if ok then None else Some(Internal);
    }

    method UpdateChanged(snapshot: Store, around: Surroundings) returns (error: Option<TaskError>)
      requires Reconcilable(ownerSnapshot, snapshot)
      requires Ordered(documents.Snapshot()) && Mirrors(documents.docs, Midway(ownerSnapshot, snapshot, {}))
      modifies documents, around
      ensures error == None ==> InStep(documents.Snapshot(), snapshot)
      ensures old(around.Calm()) ==> error == None && around.Calm()
    {
      hide Ordered, Mirrors, Later, Latest;
      var order := ListInUpdateOrder(snapshot, snapshot.docs.Keys);
      assert Elements(order[..0]) == {};
      for i := 0 to |order|
        invariant Ordered(documents.Snapshot())
        invariant Mirrors(documents.docs, Midway(ownerSnapshot, snapshot, Elements(order[..i])))
        invariant old(around.Calm()) ==> around.Calm()
      {
        var uri := order[i];
        if uri in ownerSnapshot.docs && ownerSnapshot.docs[uri] == snapshot.docs[uri] {
          KeptWhileDone(ownerSnapshot, snapshot, order, i);
        } else {
          var ok := around.Checkpoint();
          if !ok { return Some(Cancelled); }
          NextInOrder(ownerSnapshot, snapshot, order, i);
          var failed := Update(uri, snapshot, Midway(ownerSnapshot, snapshot, Elements(order[..i])), around);
          if failed != None { return failed; }
        }
      }
      assert order[..|order|] == order;
      assert Midway(ownerSnapshot, snapshot, snapshot.docs.Keys) == snapshot.docs;
      error := None;
    }

    /** Start over with an empty session and table, and open everything in the owner's order. */
    method Reconstruct(snapshot: Store, around: Surroundings) returns (error: Option<TaskError>)
      requires Ordered(snapshot)
      modifies this, around
      ensures fresh(documents)
      ensures error == None ==> initialized && ownerSnapshot == snapshot && Valid()
      ensures old(around.Calm()) ==> error == None && around.Calm()
    {
      hide Ordered, Mirrors;
      compilerProfile := snapshot.profile;
      documents := new DocumentStore();
      var order := ListInUpdateOrder(snapshot, snapshot.docs.Keys);
      NothingMirrorsNothing();
      assert Midway(EmptyStore(), snapshot, Elements(order[..0])) == map[];
      for i := 0 to |order|
        invariant fresh(documents) && compilerProfile == snapshot.profile
        invariant Ordered(documents.Snapshot())
        invariant Mirrors(documents.docs, Midway(EmptyStore(), snapshot, Elements(order[..i])))
        invariant old(around.Calm()) ==> around.Calm()
      {
        var ok := around.Checkpoint();
        if !ok { return Some(Cancelled); }
        assert order[i] in snapshot.docs;
        FromNothing(snapshot);
        NextInOrder(EmptyStore(), snapshot, order, i);
        var d := snapshot.docs[order[i]];
        OpenedOnTop(documents.Snapshot(), Midway(EmptyStore(), snapshot, Elements(order[..i])), order[i], d);
        ok := CompilerOpen(order[i], d.text, d.version, around);
        if !ok { return Some(Internal); }
      }
      var ok := around.Checkpoint();
      if !ok { return Some(Cancelled); }
      assert order[..|order|] == order;
      assert Midway(EmptyStore(), snapshot, snapshot.docs.Keys) == snapshot.docs;
      ownerSnapshot := snapshot;
      initialized := true;
      error := None;
    }

    method SynchronizeInner(snapshot: Store, around: Surroundings) returns (error: Option<TaskError>)
      requires Valid() && Reachable(snapshot)
      modifies this, documents, around
      ensures documents == old(documents) || fresh(documents)
      ensures error == None ==> initialized && ownerSnapshot == snapshot && Valid()
      ensures old(around.Calm()) ==> error == None && around.Calm()
    {
      hide Ordered, Mirrors, Later;
      var ok := around.Checkpoint();
      if !ok { return Some(Cancelled); }
      if ownerSnapshot.profile != snapshot.profile {
        compilerProfile := snapshot.profile;
      }
      if !initialized || ownerSnapshot.filesystemRevision != snapshot.filesystemRevision
         || ownerSnapshot.revision > snapshot.revision {
        error := Reconstruct(snapshot, around);
        return;
      }
      ghost var closed;
      error, closed := CloseRemoved(snapshot, around);
      if error != None { return; }
      error := UpdateChanged(snapshot, around);
      if error != None { return; }
      ok := around.Checkpoint();
      if !ok { return Some(Cancelled); }
      ownerSnapshot := snapshot;
    }

    /** What the caller owes: snapshots of one owner, so that a later revision is a later table. */
    ghost predicate Reachable(snapshot: Store)
      reads this
    {
      Ordered(snapshot)
      && (initialized && ownerSnapshot.revision <= snapshot.revision ==> Later(ownerSnapshot, snapshot))
    }

    /** Success leaves the worker in step with the snapshot; anything else makes the next task start over. */
    method Synchronize(snapshot: Store, around: Surroundings) returns (error: Option<TaskError>)
      requires Valid() && Reachable(snapshot)
      modifies this, documents, around
      ensures documents == old(documents) || fresh(documents)
      ensures Valid() && (initialized <==> error == None)
      ensures error == None ==> ownerSnapshot == snapshot && InStep(documents.Snapshot(), snapshot)
                                && compilerProfile == snapshot.profile
      ensures old(around.Calm()) ==> error == None && around.Calm()
    {
      hide Ordered, Mirrors, Later;
      error := SynchronizeInner(snapshot, around);
      if error != None { Invalidate(); }
    }

    method AdoptSnapshot(snapshot: Store)
      modifies `ownerSnapshot
      ensures ownerSnapshot == snapshot
    {
      ownerSnapshot := snapshot;
    }

    method Invalidate()
      modifies `initialized
      ensures !initialized
    {
      initialized := false;
    }
  }

  lemma NothingMirrorsNothing()
    ensures Ordered(EmptyStore()) && Mirrors(EmptyStore().docs, map[])
  {
  }

  /** Rebuilding is reconciling from the empty table. */
  lemma FromNothing(snapshot: Store)
    requires Ordered(snapshot)
    ensures snapshot.docs != map[] ==> Reconcilable(EmptyStore(), snapshot)
  {
    if snapshot.docs != map[] {
      var u :| u in snapshot.docs;
      forall v | v in snapshot.docs.Keys ensures Follows(EmptyStore(), snapshot.docs[v], v) {
      }
    }
  }
}
