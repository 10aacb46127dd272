/** The table of open documents, and what every run of the protocol owner keeps true of it. */
module Documents {
  import opened Ordering

  type Uri = string

  datatype Document = Document(text: string, version: int, updateRevision: nat, lifecycleRevision: nat)
  datatype Profile = Development | Release

  /** One state of the table, as a snapshot holds it. */
  datatype Store = Store(docs: map<Uri, Document>, revision: nat, filesystemRevision: nat, profile: Profile)

  function EmptyStore(): Store { Store(map[], 0, 0, Development) }

  function Opened(s: Store, uri: Uri, text: string, version: int): Store {
    var now := s.revision + 1;
    s.(docs := s.docs[uri := Document(text, version, now, now)], revision := now)
  }

  /** Only an open document can change; its lifecycle goes on. */
  function Changed(s: Store, uri: Uri, text: string, version: int): Store {
    if uri !in s.docs then s
    else
      var now := s.revision + 1;
      s.(docs := s.docs[uri := Document(text, version, now, s.docs[uri].lifecycleRevision)], revision := now)
  }

  function Closed(s: Store, uri: Uri): Store {
    s.(docs := s.docs - {uri}, revision := s.revision + 1)
  }

  function FilesystemChanged(s: Store): Store {
    s.(revision := s.revision + 1, filesystemRevision := s.filesystemRevision + 1)
  }

  function ProfileSet(s: Store, profile: Profile): Store {
    if s.profile == profile then s else s.(profile := profile, revision := s.revision + 1)
  }

  class DocumentStore {
    var docs: map<Uri, Document>
    var revision: nat
    var filesystemRevision: nat
    var profile: Profile

    function Snapshot(): Store
      reads this
    {
      Store(docs, revision, filesystemRevision, profile)
    }

    constructor ()
      ensures Snapshot() == EmptyStore()
    {
      docs, revision, filesystemRevision, profile := map[], 0, 0, Development;
    }

    method Open(uri: Uri, text: string, version: int)
      modifies this
      ensures Snapshot() == Opened(old(Snapshot()), uri, text, version)
    {
      AdvanceRevision();
      docs := docs[uri := Document(text, version, revision, revision)];
    }

    method ChangeFull(uri: Uri, text: string, version: int) returns (changed: bool)
      modifies this
      ensures changed <==> uri in old(docs)
      ensures Snapshot() == Changed(old(Snapshot()), uri, text, version)
    {
      if uri !in docs { return false; }
      AdvanceRevision();
      docs := docs[uri := docs[uri].(text := text, version := version, updateRevision := revision)];
      changed := true;
    }

    method Close(uri: Uri)
      modifies this
      ensures Snapshot() == Closed(old(Snapshot()), uri)
    {
      AdvanceRevision();
      docs := docs - {uri};
    }

    method NoteFilesystemChange()
      modifies this
      ensures Snapshot() == FilesystemChanged(old(Snapshot()))
    {
      AdvanceRevision();
      filesystemRevision := filesystemRevision + 1;
    }

    method SetBuildProfile(to: Profile) returns (changed: bool)
      modifies this
      ensures changed <==> old(profile) != to
      ensures Snapshot() == ProfileSet(old(Snapshot()), to)
    {
      if profile == to { return false; }
      profile := to;
      AdvanceRevision();
      changed := true;
    }

    method AdvanceRevision()
      modifies `revision
      ensures revision == old(revision) + 1
    {
      revision := revision + 1;
    }
  }

  // ---- the protocol owner ----------------------------------------------------------------------------------------

  datatype Notification =
    | DidOpen(uri: Uri, text: string, version: int)
    | DidChange(uri: Uri, text: string, version: int)
    | DidClose(uri: Uri)
    | DidChangeWatchedFiles
    | DidConfigure(profile: Profile)

  function Lower(c: char): char {
    if 'A' <= c <= 'Z' then c - 'A' + 'a' else c
  }

  const UNTITLED := "untitled"

  predicate IsUntitled(uri: Uri) {
    |uri| > |UNTITLED| && uri[|UNTITLED|] == ':' && forall i :: 0 <= i < |UNTITLED| ==> Lower(uri[i]) == UNTITLED[i]
  }

  /** An untitled document ignores a change that does not raise its version. */
  predicate Stale(s: Store, uri: Uri, version: int) {
    IsUntitled(uri) && uri in s.docs && version <= s.docs[uri].version
  }

  function Notified(s: Store, n: Notification): Store {
    match n
    case DidOpen(uri, text, version) => Opened(s, uri, text, version)
    case DidChange(uri, text, version) => if Stale(s, uri, version) then s else Changed(s, uri, text, version)
    case DidClose(uri) => Closed(s, uri)
    case DidChangeWatchedFiles => FilesystemChanged(s)
    case DidConfigure(profile) => ProfileSet(s, profile)
  }

  /** The owner's table after a run of notifications. */
  function After(ns: seq<Notification>): Store {
    if ns == [] then EmptyStore() else Notified(After(ns[..|ns| - 1]), ns[|ns| - 1])
  }

  /** Stamps lie in the past, and no two documents were updated at once. */
  predicate Ordered(s: Store) {
    (forall u :: u in s.docs ==> 0 < s.docs[u].lifecycleRevision <= s.docs[u].updateRevision <= s.revision) &&
    (forall u, v :: u in s.docs && v in s.docs && u != v ==> s.docs[u].updateRevision != s.docs[v].updateRevision)
  }

  /** How one open document may differ from an earlier table: not at all, or reopened since, or changed since within one
      lifecycle, where an untitled version has risen. */
  predicate Follows(a: Store, d: Document, uri: Uri) {
    (uri in a.docs && d == a.docs[uri]) ||
    (d.updateRevision > a.revision &&
     (d.lifecycleRevision > a.revision ||
      (uri in a.docs && d.lifecycleRevision == a.docs[uri].lifecycleRevision
       && (IsUntitled(uri) ==> d.version > a.docs[uri].version))))
  }

  predicate Later(a: Store, b: Store) {
    a.revision <= b.revision && (a.revision == b.revision ==> a == b) &&
    forall u :: u in b.docs ==> Follows(a, b.docs[u], u)
  }

  lemma NotificationMovesForward(s: Store, n: Notification)
    requires Ordered(s)
    ensures Ordered(Notified(s, n)) && Later(s, Notified(s, n))
  {
    hide IsUntitled;
    match n
    case DidOpen(uri, text, version) => OpenedMovesForward(s, uri, text, version);
    case DidChange(uri, text, version) =>
      if !Stale(s, uri, version) { ChangedMovesForward(s, uri, text, version); }
    case DidClose(_) =>
    case DidChangeWatchedFiles =>
    case DidConfigure(_) =>
  }

  lemma OpenedMovesForward(s: Store, uri: Uri, text: string, version: int)
    requires Ordered(s)
    ensures Ordered(Opened(s, uri, text, version)) && Later(s, Opened(s, uri, text, version))
  {
    hide IsUntitled;
  }

  lemma ChangedMovesForward(s: Store, uri: Uri, text: string, version: int)
    requires Ordered(s) && !Stale(s, uri, version)
    ensures Ordered(Changed(s, uri, text, version)) && Later(s, Changed(s, uri, text, version))
  {
    hide IsUntitled;
  }

  lemma LaterChains(a: Store, b: Store, c: Store)
    requires Ordered(a) && Ordered(b) && Ordered(c) && Later(a, b) && Later(b, c)
    ensures Later(a, c)
  {
    hide IsUntitled;
    forall u | u in c.docs.Keys ensures Follows(a, c.docs[u], u) {
      assert Follows(b, c.docs[u], u);
      if u in b.docs { assert Follows(a, b.docs[u], u); }
    }
  }

  lemma {:induction false} RunMovesForward(ns: seq<Notification>, i: nat)
    requires i <= |ns|
    ensures Ordered(After(ns[..i])) && Ordered(After(ns)) && Later(After(ns[..i]), After(ns))
    decreases |ns|
  {
    hide Later, Ordered, Notified;
    if i == |ns| {
      assert ns[..i] == ns;
      if ns != [] {
        RunMovesForward(ns[..i - 1], i - 1);
        NotificationMovesForward(After(ns[..i - 1]), ns[i - 1]);
      } else {
        EmptyIsOrdered();
      }
      LaterItself(After(ns));
    } else {
      var m := |ns| - 1;
      RunMovesForward(ns[..m], i);
      assert ns[..m][..i] == ns[..i];
      NotificationMovesForward(After(ns[..m]), ns[m]);
      LaterChains(After(ns[..i]), After(ns[..m]), After(ns));
    }
  }

  lemma EmptyIsOrdered()
    ensures Ordered(EmptyStore())
  {
  }

  lemma LaterItself(s: Store)
    ensures Later(s, s)
  {
  }

  /** Any two snapshots of one run compare by their revision alone. */
  lemma RevisionsTellWhichIsLater(ns: seq<Notification>, i: nat, j: nat)
    requires i <= |ns| && j <= |ns|
    ensures Ordered(After(ns[..i])) && Ordered(After(ns[..j]))
    ensures After(ns[..i]).revision <= After(ns[..j]).revision <==> Later(After(ns[..i]), After(ns[..j]))
  {
    hide Ordered, Follows;
    if i <= j {
      RunMovesForward(ns[..j], i);
      assert ns[..j][..i] == ns[..i];
    } else {
      RunMovesForward(ns[..i], j);
      assert ns[..i][..j] == ns[..j];
      LaterItself(After(ns[..i]));
    }
  }

  // ---- what the owner answers from -------------------------------------------------------------------------------

  datatype Buffer = Shut | Buffer(text: string, version: int)

  /** What an editor that sent these notifications has in the buffer: what it opened, as last changed, until it closes it.
      A change of an untitled buffer that does not raise the version does not count. */
  function BufferOf(ns: seq<Notification>, uri: Uri): Buffer
    decreases |ns|
  {
    if ns == [] then Shut else
    var before := BufferOf(ns[..|ns| - 1], uri);
    match ns[|ns| - 1]
    case DidOpen(u, text, version) => if u == uri then Buffer(text, version) else before
    case DidChange(u, text, version) =>
      if u == uri && before.Buffer? && (!IsUntitled(uri) || before.version < version) then Buffer(text, version) else before
    case DidClose(u) => if u == uri then Shut else before
    case _ => before
  }

  /** After every run of notifications the owner holds exactly the buffers that are open, with their texts and versions. */
  lemma {:induction false} OwnerHoldsTheBuffers(ns: seq<Notification>, uri: Uri)
    ensures match BufferOf(ns, uri)
            case Shut => uri !in After(ns).docs
            case Buffer(text, version) =>
              uri in After(ns).docs && After(ns).docs[uri].text == text && After(ns).docs[uri].version == version
    decreases |ns|
  {
    hide IsUntitled;
    if ns != [] { OwnerHoldsTheBuffers(ns[..|ns| - 1], uri); }
  }

  /** The scheme is compared without regard to case, and what follows it does not matter. */
  lemma UntitledScheme(rest: string)
    ensures IsUntitled("untitled:" + rest) && IsUntitled("Untitled:" + rest) && IsUntitled("UNTITLED:" + rest)
    ensures !IsUntitled("untitled") && !IsUntitled("file:" + rest)
  {
    var u := "untitled:" + rest;
    assert forall i | 0 <= i < 9 :: u[i] == "untitled:"[i];
    var t := "Untitled:" + rest;
    assert forall i | 0 <= i < 9 :: t[i] == "Untitled:"[i];
    var v := "UNTITLED:" + rest;
    assert forall i | 0 <= i < 9 :: v[i] == "UNTITLED:"[i];
    var f := "file:" + rest;
    assert f[0] == 'f' && Lower(f[0]) == 'f' && UNTITLED[0] == 'u';
  }

  /** The profile is the one configured last. */
  function ProfileOf(ns: seq<Notification>): Profile
    decreases |ns|
  {
    if ns == [] then Development
    else if ns[|ns| - 1].DidConfigure? then ns[|ns| - 1].profile else ProfileOf(ns[..|ns| - 1])
  }

  lemma {:induction false} OwnerHasTheProfile(ns: seq<Notification>)
    ensures After(ns).profile == ProfileOf(ns)
    decreases |ns|
  {
    if ns != [] { OwnerHasTheProfile(ns[..|ns| - 1]); }
  }
}
