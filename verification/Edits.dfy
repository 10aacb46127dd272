/** Atomic edit groups: replacements accepted for one exact version of each source, then applied all or not at all. */
module Edits {
  import opened Ordering
  import opened Utf8

  datatype Span = Span(start: nat, end: nat)
  datatype Replacement = Replacement(span: Span, text: Text)
  datatype SourceId = SourceId(project: string, moduleName: string)
  datatype SourceEdit = SourceEdit(source: SourceId, version: int, replacements: seq<Replacement>)
  datatype EditGroup = EditGroup(title: string, sources: seq<SourceEdit>)
  datatype Snapshot = Snapshot(source: SourceId, version: int, text: Text)
  datatype EditedSource = EditedSource(source: SourceId, version: int, text: Text)

  datatype EditError =
    | EmptyTitle
    | EmptyGroup
    | EmptySourceIdentity(source: SourceId)
    | EmptySourceEdit(source: SourceId)
    | InvalidSpan(source: SourceId, span: Span)
    | OverlappingReplacements(source: SourceId, first: Span, second: Span)
    | DuplicateSource(source: SourceId)
    | DuplicateSnapshot(source: SourceId)
    | MissingSource(source: SourceId)
    | StaleSource(source: SourceId, expected: int, actual: int)
    | SpanOutOfBounds(source: SourceId, span: Span, len: nat)
    | InvalidUtf8Boundary(source: SourceId, span: Span)

  datatype Result<T> = Ok(value: T) | Err(error: EditError)

  // ---- one source ------------------------------------------------------------------------------------------------

  /** Two spans can be replaced together: neither reaches into the other, and they do not start at one place. */
  predicate Apart(a: Span, b: Span) {
    a.start != b.start && (a.end <= b.start || b.end <= a.start)
  }

  predicate PairwiseApart(rs: seq<Replacement>) {
    forall i, j :: 0 <= i < j < |rs| ==> Apart(rs[i].span, rs[j].span)
  }

  predicate SpansOrdered(rs: seq<Replacement>) {
    forall i :: 0 <= i < |rs| ==> rs[i].span.start <= rs[i].span.end
  }

  /** Left to right, each ending before the next begins. */
  predicate Increasing(rs: seq<Replacement>) {
    SpansOrdered(rs) &&
    forall i, j :: 0 <= i < j < |rs| ==> rs[i].span.end <= rs[j].span.start && rs[i].span.start < rs[j].span.start
  }

  predicate KeyAtMost(a: Replacement, b: Replacement) {
    a.span.start < b.span.start || (a.span.start == b.span.start && a.span.end <= b.span.end)
  }

  predicate KeySorted(rs: seq<Replacement>) {
    forall i, j :: 0 <= i < j < |rs| ==> KeyAtMost(rs[i], rs[j])
  }

  lemma PutKeepsKeys(sorted: seq<Replacement>, at: nat, x: Replacement)
    requires at <= |sorted| && KeySorted(sorted)
    requires at > 0 ==> KeyAtMost(sorted[at - 1], x)
    requires forall k :: at <= k < |sorted| ==> KeyAtMost(x, sorted[k])
    ensures KeySorted(PutAt(sorted, at, x))
  {
    forall k | 0 <= k < at ensures KeyAtMost(sorted[k], x) {
      if k < at - 1 { assert KeyAtMost(sorted[k], sorted[at - 1]); }
    }
    var r := PutAt(sorted, at, x);
    forall i, j | 0 <= i < j < |r| ensures KeyAtMost(r[i], r[j]) {
      var a, b := r[i], r[j];
    }
  }

  method SortByKey(rs: seq<Replacement>) returns (sorted: seq<Replacement>)
    ensures KeySorted(sorted) && multiset(sorted) == multiset(rs)
  {
    sorted := [];
    for i := 0 to |rs|
      invariant KeySorted(sorted) && multiset(sorted) == multiset(rs[..i])
    {
      var at: nat := |sorted|;
      while at > 0 && !KeyAtMost(sorted[at - 1], rs[i])
        invariant at <= |sorted|
        invariant forall k :: at <= k < |sorted| ==> KeyAtMost(rs[i], sorted[k])
      {
        at := at - 1;
      }
      assert rs[..i + 1] == rs[..i] + [rs[i]];
      PutKeepsKeys(sorted, at, rs[i]);
      sorted := PutAt(sorted, at, rs[i]);
    }
    assert rs[..|rs|] == rs;
  }

  predicate Named(source: SourceId) {
    source.project != "" && source.moduleName != ""
  }

  /** The whole of what is accepted for one source, whatever order the replacements come in. */
  predicate Acceptable(source: SourceId, rs: seq<Replacement>) {
    Named(source) && rs != [] && SpansOrdered(rs) && PairwiseApart(rs)
  }

  predicate Both(rs: seq<Replacement>, a: Span, b: Span) {
    exists i, j :: 0 <= i < |rs| && 0 <= j < |rs| && i != j && rs[i].span == a && rs[j].span == b
  }

  method NewSourceEdit(source: SourceId, version: int, replacements: seq<Replacement>)
    returns (r: Result<SourceEdit>)
    ensures r.Ok? <==> Acceptable(source, replacements)
    ensures r.Ok? ==> r.value.source == source && r.value.version == version
                      && Increasing(r.value.replacements) && multiset(r.value.replacements) == multiset(replacements)
    ensures !Named(source) <==> r == Err(EmptySourceIdentity(source))
    ensures Named(source) && replacements == [] ==> r == Err(EmptySourceEdit(source))
    ensures Named(source) && replacements != [] && !SpansOrdered(replacements) ==>
      exists k :: 0 <= k < |replacements| && SpansOrdered(replacements[..k])
                  && r == Err(InvalidSpan(source, replacements[k].span))
                  && replacements[k].span.start > replacements[k].span.end
    ensures Named(source) && SpansOrdered(replacements) && !PairwiseApart(replacements) ==>
      r.Err? && r.error.OverlappingReplacements? && r.error.source == source
      && Both(replacements, r.error.first, r.error.second) && !Apart(r.error.first, r.error.second)
  {
    if source.project == "" || source.moduleName == "" { return Err(EmptySourceIdentity(source)); }
    if replacements == [] { return Err(EmptySourceEdit(source)); }
    for i := 0 to |replacements|
      invariant SpansOrdered(replacements[..i])
    {
      if replacements[i].span.start > replacements[i].span.end {
        return Err(InvalidSpan(source, replacements[i].span));
      }
    }
    assert replacements[..|replacements|] == replacements;
    var sorted := SortByKey(replacements);
    SpansTravel(replacements, sorted);
    for i := 1 to |sorted|
      invariant Increasing(sorted[..i])
    {
      var left, right := sorted[i - 1].span, sorted[i].span;
      if left.end > right.start || left.start == right.start {
        ClashTravels(sorted, replacements, i - 1, i);
        return Err(OverlappingReplacements(source, left, right));
      }
      OneMore(sorted, i);
    }
    assert sorted[..|sorted|] == sorted;
    ApartTravels(sorted, replacements);
    r := Ok(SourceEdit(source, version, sorted));
  }

  lemma OneMore(rs: seq<Replacement>, i: nat)
    requires 0 < i < |rs| && SpansOrdered(rs) && Increasing(rs[..i])
    requires rs[i - 1].span.end <= rs[i].span.start && rs[i - 1].span.start != rs[i].span.start
    ensures Increasing(rs[..i + 1])
  {
    var before, after := rs[..i], rs[..i + 1];
    forall k | 0 <= k < i ensures rs[k].span.end <= rs[i].span.start && rs[k].span.start < rs[i].span.start {
      assert before[k] == rs[k] && before[i - 1] == rs[i - 1];
    }
    forall j, k | 0 <= j < k < |after|
      ensures after[j].span.end <= after[k].span.start && after[j].span.start < after[k].span.start
    {
      if k < i { assert before[j] == after[j] && before[k] == after[k]; }
    }
  }

  lemma SpansTravel(a: seq<Replacement>, b: seq<Replacement>)
    requires multiset(a) == multiset(b) && SpansOrdered(a)
    ensures SpansOrdered(b) && |a| == |b|
  {
    assert |multiset(a)| == |a| && |multiset(b)| == |b|;
    forall i | 0 <= i < |b| ensures b[i].span.start <= b[i].span.end {
      assert b[i] in multiset(b);
      assert b[i] in a;
    }
  }

  function Without<T>(s: seq<T>, i: nat): (rest: seq<T>)
    requires i < |s|
    ensures multiset(s) == multiset(rest) + multiset{s[i]}
  {
    assert s == s[..i] + [s[i]] + s[i + 1..];
    s[..i] + s[i + 1..]
  }

  /** Two different places of a permutation come from two different places. */
  lemma TwoPlaces<T>(s: seq<T>, x: T, y: T)
    requires multiset{x, y} <= multiset(s)
    ensures exists i, j :: 0 <= i < |s| && 0 <= j < |s| && i != j && s[i] == x && s[j] == y
  {
    assert multiset{x, y} == multiset{x} + multiset{y};
    assert x in multiset(s);
    var i: nat :| i < |s| && s[i] == x;
    var rest := Without(s, i);
    assert y in multiset(rest);
    var k :| 0 <= k < |rest| && rest[k] == y;
    var j := if k < i then k else k + 1;
    assert s[j] == y && j != i;
  }

  lemma PairIsIn<T>(s: seq<T>, i: nat, j: nat)
    requires i < j < |s|
    ensures multiset{s[i], s[j]} <= multiset(s)
  {
    assert s == s[..i] + [s[i]] + s[i + 1..j] + [s[j]] + s[j + 1..];
    assert multiset(s) == multiset(s[..i]) + multiset{s[i]} + multiset(s[i + 1..j]) + multiset{s[j]} + multiset(s[j + 1..]);
    assert multiset{s[i], s[j]} == multiset{s[i]} + multiset{s[j]};
  }

  lemma ClashTravels(a: seq<Replacement>, b: seq<Replacement>, i: nat, j: nat)
    requires multiset(a) == multiset(b) && i < j < |a| && !Apart(a[i].span, a[j].span)
    ensures Both(b, a[i].span, a[j].span) && !PairwiseApart(b)
  {
    PairIsIn(a, i, j);
    TwoPlaces(b, a[i], a[j]);
    var x, y :| 0 <= x < |b| && 0 <= y < |b| && x != y && b[x] == a[i] && b[y] == a[j];
    if x < y { assert !Apart(b[x].span, b[y].span); } else { assert !Apart(b[y].span, b[x].span); }
  }

  lemma ApartTravels(a: seq<Replacement>, b: seq<Replacement>)
    requires multiset(a) == multiset(b) && Increasing(a)
    ensures PairwiseApart(b)
  {
    forall i, j | 0 <= i < j < |b| ensures Apart(b[i].span, b[j].span) {
      if !Apart(b[i].span, b[j].span) {
        ClashTravels(b, a, i, j);
        assert false;
      }
    }
  }

  lemma RestIncreases(a: seq<Replacement>)
    requires a != [] && Increasing(a)
    ensures Increasing(a[1..])
  {
  }

  lemma Headed<T>(s: seq<T>)
    requires s != []
    ensures multiset(s[1..]) == multiset(s) - multiset{s[0]}
  {
    assert s == [s[0]] + s[1..];
  }

  lemma FirstIsLeast(a: seq<Replacement>, x: Replacement)
    requires Increasing(a) && x in multiset(a)
    ensures a[0].span.start <= x.span.start && (x.span.start == a[0].span.start ==> x == a[0])
  {
    assert x in a;
    var j :| 0 <= j < |a| && a[j] == x;
  }

  lemma SameFirst(a: seq<Replacement>, b: seq<Replacement>)
    requires multiset(a) == multiset(b) && Increasing(a) && Increasing(b) && a != []
    ensures b != [] && a[0] == b[0] && multiset(a[1..]) == multiset(b[1..])
  {
    hide Increasing;
    assert a[0] in multiset(b);
    FirstIsLeast(b, a[0]);
    assert b[0] in multiset(a);
    FirstIsLeast(a, b[0]);
    Headed(a);
    Headed(b);
  }

  /** An accepted edit does not depend on the order its replacements were given in. */
  lemma {:induction false} InputOrderIsForgotten(a: seq<Replacement>, b: seq<Replacement>)
    requires multiset(a) == multiset(b) && Increasing(a) && Increasing(b)
    ensures a == b
    decreases |a|
  {
    hide Increasing;
    if a == [] {
      assert |multiset(b)| == 0;
    } else {
      SameFirst(a, b);
      RestIncreases(a);
      RestIncreases(b);
      InputOrderIsForgotten(a[1..], b[1..]);
      assert a == [a[0]] + a[1..] && b == [b[0]] + b[1..];
    }
  }

  // ---- a group of sources ----------------------------------------------------------------------------------------

  predicate SourceLess(a: SourceId, b: SourceId) {
    Less(a.project, b.project) || (a.project == b.project && Less(a.moduleName, b.moduleName))
  }

  lemma SourcesCompare(a: SourceId, b: SourceId)
    ensures SourceLess(a, b) || a == b || SourceLess(b, a)
    ensures !(SourceLess(a, b) && SourceLess(b, a)) && !SourceLess(a, a)
  {
    Total(a.project, b.project);
    Total(a.moduleName, b.moduleName);
    Total(a.project, a.project);
    Total(a.moduleName, a.moduleName);
  }

  lemma SourcesChain(a: SourceId, b: SourceId, c: SourceId)
    requires !SourceLess(b, a) && !SourceLess(c, b)
    ensures !SourceLess(c, a)
    ensures a == c ==> a == b
  {
    SourcesCompare(a, b);
    SourcesCompare(b, c);
    if SourceLess(a, b) && SourceLess(b, c) {
      if Less(a.project, b.project) && Less(b.project, c.project) {
        Transitive(a.project, b.project, c.project);
      } else if a.project == b.project == c.project {
        Transitive(a.moduleName, b.moduleName, c.moduleName);
      }
      assert SourceLess(a, c);
    }
    SourcesCompare(a, c);
  }

  predicate BySource(sources: seq<SourceEdit>) {
    forall i, j :: 0 <= i < j < |sources| ==> !SourceLess(sources[j].source, sources[i].source)
  }

  predicate DistinctSources(sources: seq<SourceEdit>) {
    forall i, j :: 0 <= i < j < |sources| ==> sources[i].source != sources[j].source
  }

  lemma PutKeepsSources(sorted: seq<SourceEdit>, at: nat, x: SourceEdit)
    requires at <= |sorted| && BySource(sorted)
    requires at > 0 ==> !SourceLess(x.source, sorted[at - 1].source)
    requires forall k :: at <= k < |sorted| ==> !SourceLess(sorted[k].source, x.source)
    ensures BySource(PutAt(sorted, at, x))
  {
    hide SourceLess;
    forall k | 0 <= k < at ensures !SourceLess(x.source, sorted[k].source) {
      if k < at - 1 { SourcesChain(sorted[k].source, sorted[at - 1].source, x.source); }
    }
    var r := PutAt(sorted, at, x);
    forall i, j | 0 <= i < j < |r| ensures !SourceLess(r[j].source, r[i].source) {
      var a, b := r[i], r[j];
    }
  }

  method SortBySource(sources: seq<SourceEdit>) returns (sorted: seq<SourceEdit>)
    ensures BySource(sorted) && multiset(sorted) == multiset(sources)
  {
    hide SourceLess, PutAt;
    sorted := [];
    for i := 0 to |sources|
      invariant BySource(sorted) && multiset(sorted) == multiset(sources[..i])
    {
      var x := sources[i];
      var at: nat := |sorted|;
      while at > 0 && SourceLess(x.source, sorted[at - 1].source)
        invariant at <= |sorted|
        invariant forall k :: at <= k < |sorted| ==> !SourceLess(sorted[k].source, x.source)
      {
        at := at - 1;
        SourcesCompare(x.source, sorted[at].source);
      }
      assert sources[..i + 1] == sources[..i] + [x];
      PutKeepsSources(sorted, at, x);
      sorted := PutAt(sorted, at, x);
    }
    assert sources[..|sources|] == sources;
  }

  lemma NeighboursDecide(sources: seq<SourceEdit>)
    requires BySource(sources)
    requires forall i :: 0 < i < |sources| ==> sources[i - 1].source != sources[i].source
    ensures DistinctSources(sources)
  {
    hide SourceLess;
    forall i, j | 0 <= i < j < |sources| ensures sources[i].source != sources[j].source {
      assert sources[i + 1 - 1].source != sources[i + 1].source;
      if i + 1 < j { SourcesChain(sources[i].source, sources[i + 1].source, sources[j].source); }
    }
  }

  lemma TwiceTravels(a: seq<SourceEdit>, b: seq<SourceEdit>, i: nat, j: nat)
    requires multiset(a) == multiset(b) && i < j < |a| && a[i].source == a[j].source
    ensures !DistinctSources(b) && exists k, l :: 0 <= k < l < |b| && b[k].source == b[l].source == a[i].source
  {
    PairIsIn(a, i, j);
    TwoPlaces(b, a[i], a[j]);
    var x, y :| 0 <= x < |b| && 0 <= y < |b| && x != y && b[x] == a[i] && b[y] == a[j];
    var k, l := if x < y then x else y, if x < y then y else x;
    assert b[k].source == b[l].source;
  }

  /** A group names each source once; its sources are kept in the order of their identities. */
  method NewEditGroup(title: string, sources: seq<SourceEdit>) returns (r: Result<EditGroup>)
    ensures r.Ok? <==> title != "" && sources != [] && DistinctSources(sources)
    ensures r.Ok? ==> r.value.title == title && multiset(r.value.sources) == multiset(sources)
                      && BySource(r.value.sources) && DistinctSources(r.value.sources)
    ensures r.Ok? ==> forall i, j :: 0 <= i < j < |r.value.sources| ==>
              var a, b := r.value.sources[i].source, r.value.sources[j].source;
              Less(a.project, b.project) || (a.project == b.project && Less(a.moduleName, b.moduleName))
    ensures title == "" <==> r == Err(EmptyTitle)
    ensures title != "" && sources == [] ==> r == Err(EmptyGroup)
    ensures title != "" && sources != [] && r.Err? ==>
      r.error.DuplicateSource? && exists i, j :: 0 <= i < j < |sources| && sources[i].source == sources[j].source == r.error.source
  {
    if title == "" { return Err(EmptyTitle); }
    if sources == [] { return Err(EmptyGroup); }
    var sorted := SortBySource(sources);
    for i := 1 to |sorted|
      invariant forall k :: 0 < k < i && k < |sorted| ==> sorted[k - 1].source != sorted[k].source
    {
      if sorted[i - 1].source == sorted[i].source {
        TwiceTravels(sorted, sources, i - 1, i);
        return Err(DuplicateSource(sorted[i - 1].source));
      }
    }
    NeighboursDecide(sorted);
    forall i, j | 0 <= i < j < |sources| ensures sources[i].source != sources[j].source {
      if sources[i].source == sources[j].source {
        TwiceTravels(sources, sorted, i, j);
        assert false;
      }
    }
    forall i, j | 0 <= i < j < |sorted| ensures SourceLess(sorted[i].source, sorted[j].source) {
      SourcesCompare(sorted[i].source, sorted[j].source);
    }
    r := Ok(EditGroup(title, sorted));
  }

  // ---- validation against the current texts ----------------------------------------------------------------------

  /** What the constructors above guarantee of every group. */
  predicate WellMade(group: EditGroup) {
    DistinctSources(group.sources) &&
    forall i :: 0 <= i < |group.sources| ==> Increasing(group.sources[i].replacements)
  }

  predicate Fits(r: Replacement, text: seq<Byte>) {
    r.span.end <= |text| && IsBoundary(text, r.span.start) && IsBoundary(text, r.span.end)
  }

  predicate AllFit(rs: seq<Replacement>, text: seq<Byte>) {
    forall i :: 0 <= i < |rs| ==> Fits(rs[i], text)
  }

  predicate DistinctSnapshots(snapshots: seq<Snapshot>) {
    forall i, j :: 0 <= i < j < |snapshots| ==> snapshots[i].source != snapshots[j].source
  }

  predicate Current(edit: SourceEdit, snapshots: seq<Snapshot>) {
    exists k :: 0 <= k < |snapshots| && snapshots[k].source == edit.source && snapshots[k].version == edit.version
                && AllFit(edit.replacements, snapshots[k].text)
  }

  predicate Valid(group: EditGroup, snapshots: seq<Snapshot>) {
    DistinctSnapshots(snapshots) &&
    forall i :: 0 <= i < |group.sources| ==> Current(group.sources[i], snapshots)
  }

  predicate Holds(snapshots: seq<Snapshot>, k: nat, edit: SourceEdit) {
    k < |snapshots| && snapshots[k].source == edit.source && snapshots[k].version == edit.version
  }

  /** The first replacement that does not fit the text of its snapshot. */
  ghost predicate StopsAt(edit: SourceEdit, snapshots: seq<Snapshot>, k: nat, j: nat, span: Span) {
    Holds(snapshots, k, edit) && j < |edit.replacements| && span == edit.replacements[j].span
    && AllFit(edit.replacements[..j], snapshots[k].text) && !Fits(edit.replacements[j], snapshots[k].text)
  }

  /** What each error says about the source it names. */
  ghost predicate Explains(error: EditError, edit: SourceEdit, snapshots: seq<Snapshot>) {
    match error
    case MissingSource(s) =>
      s == edit.source && forall k :: 0 <= k < |snapshots| ==> snapshots[k].source != s
    case StaleSource(s, expected, actual) =>
      s == edit.source && expected == edit.version && actual != expected
      && exists k :: 0 <= k < |snapshots| && snapshots[k].source == s && snapshots[k].version == actual
    case SpanOutOfBounds(s, span, len) =>
      s == edit.source && len < span.end && exists k: nat, j: nat :: StopsAt(edit, snapshots, k, j, span) && len == |snapshots[k].text|
    case InvalidUtf8Boundary(s, span) =>
      s == edit.source
      && exists k: nat, j: nat :: StopsAt(edit, snapshots, k, j, span) && span.end <= |snapshots[k].text|
    case _ => false
  }

  /** The first thing wrong: a snapshot given twice, or else the first source that is not current. */
  ghost predicate Rejects(error: EditError, group: EditGroup, snapshots: seq<Snapshot>) {
    if error.DuplicateSnapshot? then
      exists i, j :: 0 <= i < j < |snapshots| && snapshots[i].source == snapshots[j].source == error.source
    else
      DistinctSnapshots(snapshots)
      && exists i :: 0 <= i < |group.sources| && Explains(error, group.sources[i], snapshots)
                     && forall k :: 0 <= k < i ==> Current(group.sources[k], snapshots)
  }

  predicate Indexed(available: map<SourceId, Snapshot>, snapshots: seq<Snapshot>) {
    (forall k :: 0 <= k < |snapshots| ==> snapshots[k].source in available && available[snapshots[k].source] == snapshots[k])
    && (forall id :: id in available ==> exists k :: 0 <= k < |snapshots| && snapshots[k].source == id)
  }

  lemma OneMoreSnapshot(available: map<SourceId, Snapshot>, seen: seq<Snapshot>, s: Snapshot)
    requires DistinctSnapshots(seen) && Indexed(available, seen) && s.source !in available
    ensures DistinctSnapshots(seen + [s]) && Indexed(available[s.source := s], seen + [s])
  {
    var more, all := available[s.source := s], seen + [s];
    forall k | 0 <= k < |all| ensures all[k].source in more && more[all[k].source] == all[k] {
      if k < |seen| { assert all[k] == seen[k]; }
    }
    forall id | id in more.Keys ensures exists k :: 0 <= k < |all| && all[k].source == id {
      if id == s.source {
        assert all[|seen|].source == id;
      } else {
        assert id in available;
        var k :| 0 <= k < |seen| && seen[k].source == id;
        assert all[k].source == id;
      }
    }
    forall i, j | 0 <= i < j < |all| ensures all[i].source != all[j].source {
      assert seen[i].source in available;
    }
  }

  method IndexSnapshots(snapshots: seq<Snapshot>) returns (r: Result<map<SourceId, Snapshot>>)
    ensures r.Ok? <==> DistinctSnapshots(snapshots)
    ensures r.Ok? ==> Indexed(r.value, snapshots)
    ensures r.Err? ==> r.error.DuplicateSnapshot?
                       && exists i, j :: 0 <= i < j < |snapshots| && snapshots[i].source == snapshots[j].source == r.error.source
  {
    var available: map<SourceId, Snapshot> := map[];
    for i := 0 to |snapshots|
      invariant DistinctSnapshots(snapshots[..i]) && Indexed(available, snapshots[..i])
    {
      var s := snapshots[i];
      if s.source in available {
        ghost var k :| 0 <= k < i && snapshots[..i][k].source == s.source;
        assert snapshots[k].source == snapshots[i].source;
        return Err(DuplicateSnapshot(s.source));
      }
      OneMoreSnapshot(available, snapshots[..i], s);
      assert snapshots[..i + 1] == snapshots[..i] + [s];
      available := available[s.source := s];
    }
    assert snapshots[..|snapshots|] == snapshots;
    r := Ok(available);
  }

  method CheckReplacements(edit: SourceEdit, snapshots: seq<Snapshot>, ghost k: nat, text: Text) returns (r: Result<()>)
    requires Holds(snapshots, k, edit) && snapshots[k].text == text
    ensures r.Ok? <==> AllFit(edit.replacements, text)
    ensures r.Err? ==> Explains(r.error, edit, snapshots)
  {
    for i := 0 to |edit.replacements|
      invariant AllFit(edit.replacements[..i], text)
    {
      var span := edit.replacements[i].span;
      if span.end > |text| {
        assert StopsAt(edit, snapshots, k, i, span);
        return Err(SpanOutOfBounds(edit.source, span, |text|));
      }
      if !IsBoundary(text, span.start) || !IsBoundary(text, span.end) {
        assert StopsAt(edit, snapshots, k, i, span);
        return Err(InvalidUtf8Boundary(edit.source, span));
      }
    }
    assert edit.replacements[..|edit.replacements|] == edit.replacements;
    r := Ok(());
  }

  method Validate(group: EditGroup, snapshots: seq<Snapshot>) returns (r: Result<()>)
    ensures r.Ok? <==> Valid(group, snapshots)
    ensures r.Err? ==> Rejects(r.error, group, snapshots)
  {
    var index := IndexSnapshots(snapshots);
    if index.Err? { return Err(index.error); }
    var available := index.value;
    for i := 0 to |group.sources|
      invariant forall k :: 0 <= k < i ==> Current(group.sources[k], snapshots)
    {
      var edit := group.sources[i];
      if edit.source !in available {
        return Err(MissingSource(edit.source));
      }
      var snapshot := available[edit.source];
      ghost var at :| 0 <= at < |snapshots| && snapshots[at].source == edit.source;
      assert snapshots[at] == snapshot;
      if snapshot.version != edit.version {
        assert Explains(StaleSource(edit.source, edit.version, snapshot.version), edit, snapshots);
        return Err(StaleSource(edit.source, edit.version, snapshot.version));
      }
      var fits := CheckReplacements(edit, snapshots, at, snapshot.text);
      if fits.Err? { return Err(fits.error); }
      assert Current(edit, snapshots);
    }
    r := Ok(());
  }

  // ---- application -----------------------------------------------------------------------------------------------

  predicate Placed(text: seq<Byte>, rs: seq<Replacement>, from: nat) {
    Increasing(rs) && AllFit(rs, text) && from <= |text| && (rs != [] ==> from <= rs[0].span.start)
  }

  /** All replacements at once, read left to right: what lies between them is copied. */
  function Substitute(text: seq<Byte>, rs: seq<Replacement>, from: nat): seq<Byte>
    requires Placed(text, rs, from)
  {
    if rs == [] then text[from..]
    else text[from..rs[0].span.start] + rs[0].text + Substitute(text, rs[1..], rs[0].span.end)
  }

  /** One edit in place. */
  function EditOne(text: seq<Byte>, r: Replacement): seq<Byte>
    requires r.span.start <= r.span.end <= |text|
  {
    text[..r.span.start] + r.text + text[r.span.end..]
  }

  method ReplaceRange(text: Text, r: Replacement) returns (edited: Text)
    requires r.span.start <= r.span.end && Fits(r, text)
    ensures edited == EditOne(text, r)
  {
    SplitsAtBoundaries(text, r.span.start);
    SplitsAtBoundaries(text, r.span.end);
    Joined(text[..r.span.start], r.text);
    Joined(text[..r.span.start] + r.text, text[r.span.end..]);
    edited := EditOne(text, r);
  }

  lemma FirstSpan(text: seq<Byte>, rs: seq<Replacement>, from: nat)
    requires Placed(text, rs, from) && rs != []
    ensures from <= rs[0].span.start <= rs[0].span.end <= |text| && Placed(text, rs[1..], rs[0].span.end)
    ensures Substitute(text, rs, from)
         == text[from..rs[0].span.start] + rs[0].text + Substitute(text, rs[1..], rs[0].span.end)
  {
  }

  /** Up to the first replacement the text is as it was. */
  lemma StartsLater(text: seq<Byte>, rs: seq<Replacement>, from: nat, to: nat)
    requires from <= to && Placed(text, rs, from) && Placed(text, rs, to)
    ensures Substitute(text, rs, from) == text[from..to] + Substitute(text, rs, to)
  {
    hide Increasing, AllFit, Substitute;
    if rs == [] {
      NothingYet(text, from);
      NothingYet(text, to);
      assert text[from..] == text[from..to] + text[to..];
    } else {
      FirstSpan(text, rs, from);
      FirstSpan(text, rs, to);
      CutLater(text, from, to, rs[0].span.start, rs[0].text, Substitute(text, rs[1..], rs[0].span.end));
    }
  }

  lemma CutLater(text: seq<Byte>, from: nat, to: nat, start: nat, head: seq<Byte>, rest: seq<Byte>)
    requires from <= to <= start <= |text|
    ensures text[from..start] + head + rest == text[from..to] + (text[to..start] + head + rest)
  {
    assert text[from..start] == text[from..to] + text[to..start];
  }

  lemma RestIsPlaced(text: seq<Byte>, rs: seq<Replacement>, i: nat, from: nat)
    requires Increasing(rs) && AllFit(rs, text) && i <= |rs|
    requires from == 0 || (0 < i && from == rs[i - 1].span.end)
    ensures Placed(text, rs[i..], from)
  {
  }

  /** Editing the last not yet applied place keeps the whole a left-to-right substitution. */
  lemma OneMoreEdit(text: seq<Byte>, rs: seq<Replacement>, i: nat)
    requires Increasing(rs) && AllFit(rs, text) && 0 < i <= |rs|
    requires Placed(text, rs[i..], 0) && Placed(text, rs[i - 1..], 0)
    ensures rs[i - 1].span.end <= |Substitute(text, rs[i..], 0)|
    ensures Substitute(text, rs[i - 1..], 0) == EditOne(Substitute(text, rs[i..], 0), rs[i - 1])
  {
    var r := rs[i - 1];
    RestIsPlaced(text, rs, i, r.span.end);
    StartsLater(text, rs[i..], 0, r.span.end);
    assert rs[i - 1..][1..] == rs[i..];
    var rest := Substitute(text, rs[i..], r.span.end);
    var whole := text[0..r.span.end] + rest;
    assert whole[..r.span.start] == text[0..r.span.start];
    assert whole[r.span.end..] == rest;
  }

  lemma {:induction false} SubstituteIsText(text: Text, rs: seq<Replacement>, from: nat)
    requires Placed(text, rs, from) && IsBoundary(text, from)
    ensures WellFormed(Substitute(text, rs, from))
    decreases |rs|
  {
    hide WellFormed, IsBoundary;
    if rs == [] {
      SplitsAtBoundaries(text, from);
    } else {
      var r := rs[0];
      SliceIsText(text, from, r.span.start);
      assert Placed(text, rs[1..], r.span.end);
      SubstituteIsText(text, rs[1..], r.span.end);
      Joined(text[from..r.span.start], r.text);
      Joined(text[from..r.span.start] + r.text, Substitute(text, rs[1..], r.span.end));
    }
  }

  /** The edits made further right leave every boundary further left a boundary. */
  lemma StillFits(text: Text, rs: seq<Replacement>, i: nat, j: nat)
    requires Increasing(rs) && AllFit(rs, text) && j < i <= |rs| && Placed(text, rs[i..], 0)
    ensures Fits(rs[j], Substitute(text, rs[i..], 0))
  {
    var e := rs[j].span.end;
    assert Placed(text, rs[i..], e);
    StartsLater(text, rs[i..], 0, e);
    SubstituteIsText(text, rs[i..], e);
    var rest := Substitute(text, rs[i..], e);
    if rest != [] { HeadIsBoundary(rest); }
    var whole := text[0..e] + rest;
    assert forall k :: 0 <= k < e ==> whole[k] == text[k];
    assert rest != [] ==> whole[e] == rest[0];
  }

  /** The last replacement first, so that no span has moved when its turn comes. */
  method ApplyToText(text: Text, rs: seq<Replacement>) returns (edited: Text)
    requires Increasing(rs) && AllFit(rs, text)
    ensures Placed(text, rs, 0) && edited == Substitute(text, rs, 0)
  {
    hide WellFormed, IsBoundary, Substitute, EditOne;
    edited := text;
    assert rs[|rs|..] == [];
    NothingYet(text, 0);
    for i := |rs| downto 0
      invariant Placed(text, rs[i..], 0) && edited == Substitute(text, rs[i..], 0)
    {
      RestIsPlaced(text, rs, i, 0);
      OneMoreEdit(text, rs, i + 1);
      StillFits(text, rs, i + 1, i);
      edited := ReplaceRange(edited, rs[i]);
    }
    assert rs[0..] == rs;
  }

  lemma NothingYet(text: seq<Byte>, from: nat)
    requires from <= |text|
    ensures Placed(text, [], from) && Substitute(text, [], from) == text[from..]
  {
  }

  ghost predicate EditedFrom(done: EditedSource, edit: SourceEdit, snapshots: seq<Snapshot>) {
    done.source == edit.source && done.version == edit.version
    && exists k: nat :: Holds(snapshots, k, edit) && Placed(snapshots[k].text, edit.replacements, 0)
                    && done.text == Substitute(snapshots[k].text, edit.replacements, 0)
  }

  /** Either every source of the group is edited, in the group's order, or no text is produced at all. */
  method Apply(group: EditGroup, snapshots: seq<Snapshot>) returns (r: Result<seq<EditedSource>>)
    requires WellMade(group)
    ensures r.Ok? <==> Valid(group, snapshots)
    ensures r.Ok? ==> |r.value| == |group.sources|
                      && forall i :: 0 <= i < |r.value| ==> EditedFrom(r.value[i], group.sources[i], snapshots)
    ensures r.Err? ==> Rejects(r.error, group, snapshots)
  {
    hide WellFormed, IsBoundary, Substitute, Placed;
    var validated := Validate(group, snapshots);
    if validated.Err? { return Err(validated.error); }
    var index := IndexSnapshots(snapshots);
    var available := index.value;
    var edited: seq<EditedSource> := [];
    for i := 0 to |group.sources|
      invariant |edited| == i
      invariant forall k :: 0 <= k < i ==> EditedFrom(edited[k], group.sources[k], snapshots)
    {
      var edit := group.sources[i];
      assert Current(edit, snapshots);
      ghost var at :| 0 <= at < |snapshots| && snapshots[at].source == edit.source
                      && snapshots[at].version == edit.version && AllFit(edit.replacements, snapshots[at].text);
      var snapshot := available[edit.source];
      assert Holds(snapshots, at, edit) && snapshots[at] == snapshot;
      var text := ApplyToText(snapshot.text, edit.replacements);
      assert EditedFrom(EditedSource(edit.source, edit.version, text), edit, snapshots);
      edited := edited + [EditedSource(edit.source, edit.version, text)];
    }
    r := Ok(edited);
  }

  // ----- from drafts to edited texts -----

  /** What a migration hands in for one source. */
  datatype Draft = Draft(source: SourceId, version: int, replacements: seq<Replacement>)

  /** The draft of this source can be accepted and fits the snapshot it was made for. */
  predicate Editable(d: Draft, snapshots: seq<Snapshot>) {
    Acceptable(d.source, d.replacements) && DraftCurrent(d, snapshots)
  }

  predicate DistinctDrafts(drafts: seq<Draft>) {
    forall i, j :: 0 <= i < j < |drafts| ==> drafts[i].source != drafts[j].source
  }

  predicate Migratable(title: string, drafts: seq<Draft>, snapshots: seq<Snapshot>) {
    title != "" && drafts != [] && DistinctDrafts(drafts) && DistinctSnapshots(snapshots)
    && forall i :: 0 <= i < |drafts| ==> Editable(drafts[i], snapshots)
  }

  /** The same replacements, in increasing order. */
  predicate EditOf(edit: SourceEdit, d: Draft) {
    edit.source == d.source && edit.version == d.version
    && Increasing(edit.replacements) && multiset(edit.replacements) == multiset(d.replacements)
  }

  /** The text of a draft's snapshot with all its replacements made, in whichever order they were given. */
  ghost predicate Migrated(done: EditedSource, d: Draft, snapshots: seq<Snapshot>) {
    exists edit :: EditOf(edit, d) && EditedFrom(done, edit, snapshots)
  }

  /** One edited source for each draft, in the order of their identities. */
  ghost predicate Covers(done: seq<EditedSource>, drafts: seq<Draft>, snapshots: seq<Snapshot>) {
    InSourceOrder(done)
    && (forall i :: 0 <= i < |done| ==> OfSome(done[i], drafts, snapshots))
    && (forall k :: 0 <= k < |drafts| ==> DoneIn(drafts[k], done, snapshots))
  }

  ghost predicate OfSome(x: EditedSource, drafts: seq<Draft>, snapshots: seq<Snapshot>) {
    exists k :: 0 <= k < |drafts| && Migrated(x, drafts[k], snapshots)
  }

  ghost predicate DoneIn(d: Draft, done: seq<EditedSource>, snapshots: seq<Snapshot>) {
    exists i :: 0 <= i < |done| && Migrated(done[i], d, snapshots)
  }

  predicate InSourceOrder(done: seq<EditedSource>) {
    forall i, j :: 0 <= i < j < |done| ==> SourceLess(done[i].source, done[j].source)
  }

  lemma FitTravels(a: seq<Replacement>, b: seq<Replacement>, text: seq<Byte>)
    requires multiset(a) == multiset(b) && AllFit(a, text)
    ensures AllFit(b, text)
  {
    forall i | 0 <= i < |b| ensures Fits(b[i], text) {
      assert b[i] in multiset(a);
      assert b[i] in a;
    }
  }

  lemma CurrentTravels(edit: SourceEdit, d: Draft, snapshots: seq<Snapshot>)
    requires EditOf(edit, d)
    ensures Current(edit, snapshots) <==> Current(SourceEdit(d.source, d.version, d.replacements), snapshots)
  {
    hide AllFit;
    forall k | 0 <= k < |snapshots|
      ensures AllFit(edit.replacements, snapshots[k].text) <==> AllFit(d.replacements, snapshots[k].text)
    {
      if AllFit(edit.replacements, snapshots[k].text) { FitTravels(edit.replacements, d.replacements, snapshots[k].text); }
      if AllFit(d.replacements, snapshots[k].text) { FitTravels(d.replacements, edit.replacements, snapshots[k].text); }
    }
  }

  /** What the constructors return can always be applied; and everything that can be refused is. */
  method Migrate(title: string, drafts: seq<Draft>, snapshots: seq<Snapshot>) returns (r: Result<seq<EditedSource>>)
    ensures r.Ok? <==> Migratable(title, drafts, snapshots)
    ensures r.Ok? ==> Covers(r.value, drafts, snapshots)
  {
    hide Increasing, Acceptable, Current, EditedFrom, SourceLess, Rejects, BySource;
    var edits: seq<SourceEdit> := [];
    for i := 0 to |drafts|
      invariant |edits| == i
      invariant forall k :: 0 <= k < i ==> EditOf(edits[k], drafts[k]) && Acceptable(drafts[k].source, drafts[k].replacements)
    {
      var edit := NewSourceEdit(drafts[i].source, drafts[i].version, drafts[i].replacements);
      if edit.Err? { return Err(edit.error); }
      edits := edits + [edit.value];
    }
    var group := NewEditGroup(title, edits);
    DistinctAlike(edits, drafts);
    if group.Err? { return Err(group.error); }
    ConstructedGroupsAreWellMade(group.value, edits);
    ValidAlike(group.value, edits, drafts, snapshots);
    r := Apply(group.value, snapshots);
    if r.Ok? { CoversDrafts(r.value, group.value, edits, drafts, snapshots); }
  }

  lemma DistinctAlike(edits: seq<SourceEdit>, drafts: seq<Draft>)
    requires |edits| == |drafts| && forall k :: 0 <= k < |edits| ==> edits[k].source == drafts[k].source
    ensures DistinctSources(edits) <==> DistinctDrafts(drafts)
  {
    if DistinctSources(edits) {
      forall i, j | 0 <= i < j < |drafts| ensures drafts[i].source != drafts[j].source {
        assert edits[i].source != edits[j].source;
      }
    }
    if DistinctDrafts(drafts) {
      forall i, j | 0 <= i < j < |edits| ensures edits[i].source != edits[j].source {
        assert drafts[i].source != drafts[j].source;
      }
    }
  }

  lemma ConstructedGroupsAreWellMade(group: EditGroup, edits: seq<SourceEdit>)
    requires DistinctSources(group.sources) && multiset(group.sources) == multiset(edits)
    requires forall i :: 0 <= i < |edits| ==> Increasing(edits[i].replacements)
    ensures WellMade(group)
  {
    hide Increasing;
    forall i | 0 <= i < |group.sources| ensures Increasing(group.sources[i].replacements) {
      assert group.sources[i] in multiset(edits);
      assert group.sources[i] in edits;
    }
  }

  lemma SameElements<T>(a: seq<T>, b: seq<T>)
    requires multiset(a) == multiset(b)
    ensures forall x :: x in a <==> x in b
  {
    forall x ensures x in a <==> x in b {
      assert x in multiset(a) <==> x in multiset(b);
    }
  }

  predicate DraftCurrent(d: Draft, snapshots: seq<Snapshot>) {
    Current(SourceEdit(d.source, d.version, d.replacements), snapshots)
  }

  lemma ValidAlike(group: EditGroup, edits: seq<SourceEdit>, drafts: seq<Draft>, snapshots: seq<Snapshot>)
    requires multiset(group.sources) == multiset(edits) && |edits| == |drafts|
    requires forall k :: 0 <= k < |edits| ==> EditOf(edits[k], drafts[k])
    ensures Valid(group, snapshots) <==>
      DistinctSnapshots(snapshots) && forall k :: 0 <= k < |drafts| ==> DraftCurrent(drafts[k], snapshots)
  {
    hide Current, EditOf, DraftCurrent, DistinctSnapshots;
    SameElements(group.sources, edits);
    forall k | 0 <= k < |edits| ensures Current(edits[k], snapshots) <==> DraftCurrent(drafts[k], snapshots) {
      DraftTravels(edits[k], drafts[k], snapshots);
    }
    if Valid(group, snapshots) {
      forall k | 0 <= k < |drafts| ensures DraftCurrent(drafts[k], snapshots) {
        assert edits[k] in group.sources;
      }
    }
    if forall k :: 0 <= k < |drafts| ==> DraftCurrent(drafts[k], snapshots) {
      forall i | 0 <= i < |group.sources| ensures Current(group.sources[i], snapshots) {
        assert group.sources[i] in edits;
      }
    }
  }

  lemma DraftTravels(edit: SourceEdit, d: Draft, snapshots: seq<Snapshot>)
    requires EditOf(edit, d)
    ensures Current(edit, snapshots) <==> DraftCurrent(d, snapshots)
  {
    hide Current, Increasing;
    CurrentTravels(edit, d, snapshots);
  }

  lemma CoversDrafts(done: seq<EditedSource>, group: EditGroup, edits: seq<SourceEdit>, drafts: seq<Draft>, snapshots: seq<Snapshot>)
    requires multiset(group.sources) == multiset(edits) && |edits| == |drafts| && BySource(group.sources) && DistinctSources(group.sources)
    requires forall k :: 0 <= k < |edits| ==> EditOf(edits[k], drafts[k])
    requires |done| == |group.sources| && forall i :: 0 <= i < |done| ==> EditedFrom(done[i], group.sources[i], snapshots)
    ensures Covers(done, drafts, snapshots)
  {
    hide EditedFrom, Increasing, BySource, DistinctSources, InSourceOrder;
    GroupInOrder(done, group, snapshots);
    SameElements(group.sources, edits);
    forall i | 0 <= i < |done| ensures OfSome(done[i], drafts, snapshots) {
      assert group.sources[i] in edits;
      var k :| 0 <= k < |edits| && edits[k] == group.sources[i];
      EditMigrates(done[i], edits[k], drafts[k], snapshots);
    }
    forall k | 0 <= k < |drafts| ensures DoneIn(drafts[k], done, snapshots) {
      assert edits[k] in group.sources;
      var i :| 0 <= i < |group.sources| && group.sources[i] == edits[k];
      EditMigrates(done[i], edits[k], drafts[k], snapshots);
    }
  }

  lemma GroupInOrder(done: seq<EditedSource>, group: EditGroup, snapshots: seq<Snapshot>)
    requires BySource(group.sources) && DistinctSources(group.sources)
    requires |done| == |group.sources| && forall i :: 0 <= i < |done| ==> EditedFrom(done[i], group.sources[i], snapshots)
    ensures InSourceOrder(done)
  {
    hide SourceLess, Placed, Substitute;
    forall i, j | 0 <= i < j < |done| ensures SourceLess(done[i].source, done[j].source) {
      assert EditedFrom(done[i], group.sources[i], snapshots) && EditedFrom(done[j], group.sources[j], snapshots);
      SourcesCompare(group.sources[i].source, group.sources[j].source);
    }
  }

  lemma EditMigrates(done: EditedSource, edit: SourceEdit, d: Draft, snapshots: seq<Snapshot>)
    requires EditOf(edit, d) && EditedFrom(done, edit, snapshots)
    ensures Migrated(done, d, snapshots)
  {
    hide EditedFrom, Increasing;
  }

  // ----- the order of the input decides nothing -----

  predicate SameDraft(d: Draft, e: Draft) {
    d.source == e.source && d.version == e.version && multiset(d.replacements) == multiset(e.replacements)
  }

  /** The same drafts in another order, each with its replacements in another order. */
  predicate Shuffled(ds: seq<Draft>, es: seq<Draft>) {
    |ds| == |es|
    && (forall i :: 0 <= i < |ds| ==> HasTwin(ds[i], es))
    && (forall j :: 0 <= j < |es| ==> HasTwin(es[j], ds))
  }

  predicate HasTwin(d: Draft, es: seq<Draft>) {
    exists j :: 0 <= j < |es| && SameDraft(d, es[j])
  }

  lemma MigratedOnce(x: EditedSource, y: EditedSource, d: Draft, e: Draft, snapshots: seq<Snapshot>)
    requires Migrated(x, d, snapshots) && Migrated(y, e, snapshots) && SameDraft(d, e) && DistinctSnapshots(snapshots)
    ensures x == y
  {
    hide Increasing, Substitute, Placed;
    var p :| EditOf(p, d) && EditedFrom(x, p, snapshots);
    var q :| EditOf(q, e) && EditedFrom(y, q, snapshots);
    InputOrderIsForgotten(p.replacements, q.replacements);
    assert p == q;
    var k: nat :| Holds(snapshots, k, p) && Placed(snapshots[k].text, p.replacements, 0)
                  && x.text == Substitute(snapshots[k].text, p.replacements, 0);
    var l: nat :| Holds(snapshots, l, q) && Placed(snapshots[l].text, q.replacements, 0)
                  && y.text == Substitute(snapshots[l].text, q.replacements, 0);
    assert k == l;
  }

  lemma DraftOf(done: seq<EditedSource>, drafts: seq<Draft>, snapshots: seq<Snapshot>, i: nat) returns (k: nat)
    requires Covers(done, drafts, snapshots) && i < |done|
    ensures k < |drafts| && Migrated(done[i], drafts[k], snapshots)
  {
    hide EditedFrom, Increasing, InSourceOrder;
    assert OfSome(done[i], drafts, snapshots);
    k :| 0 <= k < |drafts| && Migrated(done[i], drafts[k], snapshots);
  }

  lemma DoneOf(done: seq<EditedSource>, drafts: seq<Draft>, snapshots: seq<Snapshot>, k: nat) returns (i: nat)
    requires Covers(done, drafts, snapshots) && k < |drafts|
    ensures i < |done| && Migrated(done[i], drafts[k], snapshots)
  {
    hide EditedFrom, Increasing, InSourceOrder;
    assert DoneIn(drafts[k], done, snapshots);
    i :| 0 <= i < |done| && Migrated(done[i], drafts[k], snapshots);
  }

  lemma ShuffledBack(ds: seq<Draft>, es: seq<Draft>)
    requires Shuffled(ds, es)
    ensures Shuffled(es, ds)
  {}

  lemma Counterpart(ds: seq<Draft>, es: seq<Draft>, k: nat) returns (j: nat)
    requires Shuffled(ds, es) && k < |ds|
    ensures j < |es| && SameDraft(ds[k], es[j])
  {
    assert HasTwin(ds[k], es);
    j :| 0 <= j < |es| && SameDraft(ds[k], es[j]);
  }

  lemma CoveredToo(a: seq<EditedSource>, ds: seq<Draft>, b: seq<EditedSource>, es: seq<Draft>, snapshots: seq<Snapshot>, i: nat)
    requires Covers(a, ds, snapshots) && Covers(b, es, snapshots) && DistinctSnapshots(snapshots) && i < |a|
    requires Shuffled(ds, es)
    ensures a[i] in b
  {
    hide Migrated, Covers, Shuffled, SameDraft, DistinctSnapshots;
    var k := DraftOf(a, ds, snapshots, i);
    var j := Counterpart(ds, es, k);
    var l := DoneOf(b, es, snapshots, j);
    MigratedOnce(a[i], b[l], ds[k], es[j], snapshots);
  }

  lemma {:induction false} SortedAlike(a: seq<EditedSource>, b: seq<EditedSource>)
    requires InSourceOrder(a) && InSourceOrder(b) && forall x :: x in a <==> x in b
    ensures a == b
    decreases |a|
  {
    hide SourceLess;
    if a == [] {
      assert forall i :: 0 <= i < |b| ==> b[i] in a;
    } else {
      assert a[0] in b && b != [];
      assert b[0] in a;
      LeastAlike(a, b);
      forall x ensures x in a[1..] <==> x in b[1..] {
        RestOf(a, x);
        RestOf(b, x);
      }
      assert InSourceOrder(a[1..]) && InSourceOrder(b[1..]);
      SortedAlike(a[1..], b[1..]);
      assert a == [a[0]] + a[1..] && b == [b[0]] + b[1..];
    }
  }

  lemma LeastAlike(a: seq<EditedSource>, b: seq<EditedSource>)
    requires InSourceOrder(a) && InSourceOrder(b) && a != [] && b != [] && a[0] in b && b[0] in a
    ensures a[0] == b[0]
  {
    hide SourceLess;
    var i :| 0 <= i < |b| && b[i] == a[0];
    var j :| 0 <= j < |a| && a[j] == b[0];
    SourcesCompare(a[0].source, b[0].source);
  }

  lemma RestOf(a: seq<EditedSource>, x: EditedSource)
    requires InSourceOrder(a) && a != []
    ensures x in a[1..] <==> x in a && x != a[0]
  {
    hide SourceLess;
    assert a == [a[0]] + a[1..];
    if x in a[1..] {
      var k :| 0 <= k < |a[1..]| && a[1..][k] == x;
      SourcesCompare(a[0].source, a[k + 1].source);
    }
  }

  /** Whatever order the sources and their replacements come in, the same texts come out. */
  lemma InputOrderDecidesNothing(ds: seq<Draft>, es: seq<Draft>, snapshots: seq<Snapshot>, a: seq<EditedSource>, b: seq<EditedSource>)
    requires Shuffled(ds, es) && DistinctSnapshots(snapshots) && Covers(a, ds, snapshots) && Covers(b, es, snapshots)
    ensures a == b
  {
    hide Covers, Shuffled, DistinctSnapshots;
    ShuffledBack(ds, es);
    forall x ensures x in a <==> x in b {
      if x in a {
        var i :| 0 <= i < |a| && a[i] == x;
        CoveredToo(a, ds, b, es, snapshots, i);
      }
      if x in b {
        var i :| 0 <= i < |b| && b[i] == x;
        CoveredToo(b, es, a, ds, snapshots, i);
      }
    }
    Ordered(a, ds, snapshots);
    Ordered(b, es, snapshots);
    SortedAlike(a, b);
  }

  lemma Ordered(done: seq<EditedSource>, drafts: seq<Draft>, snapshots: seq<Snapshot>)
    requires Covers(done, drafts, snapshots)
    ensures InSourceOrder(done)
  {}

  function SourcesOf(drafts: seq<Draft>): set<SourceId> {
    set d | d in drafts :: d.source
  }

  lemma {:induction false} DistinctCount(drafts: seq<Draft>)
    ensures |SourcesOf(drafts)| <= |drafts| && (|SourcesOf(drafts)| == |drafts| <==> DistinctDrafts(drafts))
    decreases |drafts|
  {
    hide SourcesOf, DistinctDrafts;
    if drafts == [] {
      NoSources();
    } else {
      var front := drafts[..|drafts| - 1];
      DistinctCount(front);
      OneMoreSource(drafts);
      OneMoreDistinct(drafts);
    }
  }

  lemma NoSources()
    ensures SourcesOf([]) == {} && DistinctDrafts([])
  {}

  lemma OneMoreDistinct(drafts: seq<Draft>)
    requires drafts != []
    ensures var front, last := drafts[..|drafts| - 1], drafts[|drafts| - 1];
            DistinctDrafts(drafts) <==> DistinctDrafts(front) && last.source !in SourcesOf(front)
  {
    var front, last := drafts[..|drafts| - 1], drafts[|drafts| - 1];
    assert forall i :: 0 <= i < |front| ==> front[i] == drafts[i];
    if last.source in SourcesOf(front) {
      var d :| d in front && d.source == last.source;
      var i :| 0 <= i < |front| && front[i] == d;
      assert drafts[i].source == drafts[|drafts| - 1].source;
    } else {
      forall i | 0 <= i < |front| ensures drafts[i].source != last.source {
        assert front[i] in front;
      }
    }
  }

  lemma OneMoreSource(drafts: seq<Draft>)
    requires drafts != []
    ensures SourcesOf(drafts) == SourcesOf(drafts[..|drafts| - 1]) + {drafts[|drafts| - 1].source}
  {
    var front, last := drafts[..|drafts| - 1], drafts[|drafts| - 1];
    assert drafts == front + [last];
    forall s ensures s in SourcesOf(drafts) <==> s in SourcesOf(front) + {last.source} {
      assert forall d :: d in drafts <==> d in front || d == last;
    }
  }

  lemma EditableAlike(d: Draft, e: Draft, snapshots: seq<Snapshot>)
    requires SameDraft(d, e) && Editable(d, snapshots)
    ensures Editable(e, snapshots)
  {
    hide AllFit, Apart;
    SpansTravel(d.replacements, e.replacements);
    forall i, j | 0 <= i < j < |e.replacements| ensures Apart(e.replacements[i].span, e.replacements[j].span) {
      if !Apart(e.replacements[i].span, e.replacements[j].span) {
        ClashTravels(e.replacements, d.replacements, i, j);
        assert false;
      }
    }
    var k :| 0 <= k < |snapshots| && snapshots[k].source == d.source && snapshots[k].version == d.version
             && AllFit(d.replacements, snapshots[k].text);
    FitTravels(d.replacements, e.replacements, snapshots[k].text);
  }

  /** Nor does the order decide whether anything comes out at all. */
  lemma AcceptanceIgnoresOrder(title: string, ds: seq<Draft>, es: seq<Draft>, snapshots: seq<Snapshot>)
    requires Shuffled(ds, es) && Migratable(title, ds, snapshots)
    ensures Migratable(title, es, snapshots)
  {
    hide Acceptable, DraftCurrent, DistinctDrafts, SourcesOf, DistinctSnapshots;
    forall j | 0 <= j < |es| ensures Editable(es[j], snapshots) {
      assert HasTwin(es[j], ds);
      var i :| 0 <= i < |ds| && SameDraft(es[j], ds[i]);
      assert Editable(ds[i], snapshots);
      EditableAlike(ds[i], es[j], snapshots);
    }
    ShuffledBack(ds, es);
    SourcesWithin(ds, es);
    SourcesWithin(es, ds);
    assert SourcesOf(ds) == SourcesOf(es);
    DistinctCount(ds);
    DistinctCount(es);
  }

  lemma SourcesWithin(ds: seq<Draft>, es: seq<Draft>)
    requires Shuffled(ds, es)
    ensures SourcesOf(ds) <= SourcesOf(es)
  {
    hide Shuffled;
    forall s | s in SourcesOf(ds) ensures s in SourcesOf(es) {
      var d :| d in ds && d.source == s;
      var i :| 0 <= i < |ds| && ds[i] == d;
      var j := Counterpart(ds, es, i);
      assert es[j] in es;
    }
  }
}
