/** Committing a transition of a state loop whose bindings own cleanups: the cleanups of replaced bindings run, those
    acquired for their successors take their places in the header scope. */
module StateTransition {
  import opened Ordering
  import opened Values
  import opened Patterns
  import opened Activation
  import opened ActivationDriver

  datatype Replacement = Replacement(leaving: Cleanup, coming: Cleanup)

  datatype Commit = Committed | NoReplacementScope | NotActive | CommitFailed(defect: Defect)

  function Olds(rs: seq<Replacement>): (r: seq<Cleanup>)
    ensures |r| == |rs| && forall i | 0 <= i < |r| :: r[i] == rs[i].leaving
  {
    seq(|rs|, i requires 0 <= i < |rs| => rs[i].leaving)
  }

  function News(rs: seq<Replacement>): (r: seq<Cleanup>)
    ensures |r| == |rs| && forall i | 0 <= i < |r| :: r[i] == rs[i].coming
  {
    seq(|rs|, i requires 0 <= i < |rs| => rs[i].coming)
  }

  function FindSlot(header: seq<Cleanup>, c: Cleanup): (r: Option<nat>)
    ensures r.None? <==> c !in header
    ensures r.Some? ==> r.value < |header| && header[r.value] == c
    decreases |header|
  {
    if |header| == 0 then None
    else if header[0] == c then Some(0)
    else var rest := FindSlot(header[1..], c); if rest.None? then None else Some(rest.value + 1)
  }

  /** The header cleanups that no replacement touches, in their order. */
  function Untouched(header: seq<Cleanup>, olds: seq<Cleanup>): seq<Cleanup>
    decreases |header|
  {
    if |header| == 0 then [] else
    var last := |header| - 1;
    Untouched(header[..last], olds) + if header[last] in olds then [] else [header[last]]
  }

  /** What the header becomes: each replaced cleanup gives its place to the one acquired for it. */
  ghost predicate Replaced(header: seq<Cleanup>, rs: seq<Replacement>, after: seq<Cleanup>) {
    && |after| == |header|
    && (forall i, j | 0 <= i < |header| && 0 <= j < |rs| && header[i] == rs[j].leaving :: after[i] == rs[j].coming)
    && (forall i | 0 <= i < |header| && header[i] !in Olds(rs) :: after[i] == header[i])
  }

  // ----- removing by position -----

  function Dropping(header: seq<Cleanup>, gone: set<nat>): (r: seq<Cleanup>)
    ensures |r| <= |header|
    decreases |header|
  {
    if |header| == 0 then [] else
    var last := |header| - 1;
    Dropping(header[..last], gone) + if last in gone then [] else [header[last]]
  }

  /** Positions before every removed one are where they were. */
  lemma {:induction false} DroppingKeepsFront(header: seq<Cleanup>, gone: set<nat>, slot: nat)
    requires slot <= |header| && forall g | g in gone :: g >= slot
    ensures slot <= |Dropping(header, gone)| && Dropping(header, gone)[..slot] == header[..slot]
    decreases |header|
  {
    if |header| > slot {
      DroppingKeepsFront(header[..|header| - 1], gone, slot);
      assert header[..|header| - 1][..slot] == header[..slot];
    } else if |header| > 0 {
      DroppingKeepsFront(header[..|header| - 1], gone, slot - 1);
      assert Dropping(header, gone)[..slot] == header;
    }
  }

  /** Removing the next lower position from what is left. */
  lemma {:induction false} DroppingOneMore(header: seq<Cleanup>, gone: set<nat>, slot: nat)
    requires slot < |header| && forall g | g in gone :: g > slot
    ensures slot < |Dropping(header, gone)|
    ensures Dropping(header, gone)[..slot] + Dropping(header, gone)[slot + 1..] == Dropping(header, gone + {slot})
    decreases |header|
  {
    var last := |header| - 1;
    var init := header[..last];
    DroppingKeepsFront(header, gone, slot + 1);
    if slot == last {
      DroppingKeepsFront(init, gone, slot);
      DroppingKeepsFront(init, gone + {slot}, slot);
      assert Dropping(init, gone) == init == Dropping(init, gone + {slot});
    } else {
      DroppingOneMore(init, gone, slot);
    }
  }

  lemma {:induction false} NothingDroppedYet(header: seq<Cleanup>)
    ensures Dropping(header, {}) == header
    decreases |header|
  {
    if |header| > 0 { NothingDroppedYet(header[..|header| - 1]); }
  }

  lemma {:induction false} DroppingTheOlds(header: seq<Cleanup>, gone: set<nat>, olds: seq<Cleanup>)
    requires forall i: nat | i < |header| :: i in gone <==> header[i] in olds
    ensures Dropping(header, gone) == Untouched(header, olds)
    decreases |header|
  {
    if |header| > 0 { DroppingTheOlds(header[..|header| - 1], gone, olds); }
  }

  // ----- what the history says ran -----

  function RanOf(events: seq<Event>): multiset<Cleanup>
    decreases |events|
  {
    if |events| == 0 then multiset{} else
    RanOf(events[..|events| - 1]) + if events[|events| - 1].Ran? then multiset{events[|events| - 1].cleanup} else multiset{}
  }

  lemma {:induction false} RanOfJoins(a: seq<Event>, b: seq<Event>)
    ensures RanOf(a + b) == RanOf(a) + RanOf(b)
    decreases |b|
  {
    if |b| == 0 {
      assert a + b == a;
    } else {
      RanOfJoins(a, b[..|b| - 1]);
      assert (a + b)[..|a + b| - 1] == a + b[..|b| - 1];
    }
  }

  lemma {:induction false} RanOfScope(run: Behaviour, cleanups: seq<Cleanup>)
    ensures RanOf(RunScope(run, cleanups)) == multiset(cleanups)
    decreases |cleanups|
  {
    if |cleanups| > 0 {
      var init, last := cleanups[..|cleanups| - 1], cleanups[|cleanups| - 1];
      RanOfScope(run, init);
      RanOfJoins([Ran(last, run(last))], RunScope(run, init));
      assert [Ran(last, run(last))][..0] == [];
      assert cleanups == init + [last];
    }
  }

  lemma CutOfInit<T>(s: seq<T>, depth: nat)
    requires |s| > depth
    ensures Cut(s[..|s| - 1], depth) == Cut(s, depth)
  {}

  lemma {:induction false} RanOfScopes(run: Behaviour, scopes: seq<seq<Cleanup>>, depth: nat)
    ensures RanOf(RunScopes(run, scopes, depth)) + multiset(Flat(Cut(scopes, depth))) == multiset(Flat(scopes))
    decreases |scopes|
  {
    if |scopes| > depth {
      var init, last := scopes[..|scopes| - 1], scopes[|scopes| - 1];
      assert RunScopes(run, scopes, depth) == RunScope(run, last) + RunScopes(run, init, depth);
      assert Flat(scopes) == Flat(init) + last;
      hide *;
      RanOfScopes(run, init, depth);
      RanOfScope(run, last);
      RanOfJoins(RunScope(run, last), RunScopes(run, init, depth));
      CutOfInit(scopes, depth);
    }
  }

  // ----- the commit -----

  class TransitionFrame {
    var scopes: seq<seq<Cleanup>>
    const run: Behaviour
    ghost var events: seq<Event>

    constructor (scopes: seq<seq<Cleanup>>, run: Behaviour)
      ensures this.scopes == scopes && this.run == run && events == []
    {
      this.scopes := scopes;
      this.run := run;
      events := [];
    }

    /** Run cleanups from the end of a list. */
    method RunBackwards(cleanups: seq<Cleanup>, primary: Option<Defect>) returns (defect: Option<Defect>)
      modifies `events
      ensures events == old(events) + RunScope(run, cleanups)
      ensures defect == Collect(primary, Failures(RunScope(run, cleanups)))
    {
      hide RunScope, Collect, Failures, AddDefect;
      defect := primary;
      NothingRan(run, primary);
      var index: nat := |cleanups|;
      ghost var ran: seq<Event> := [];
      assert cleanups[..index] == cleanups;
      while index > 0
        invariant index <= |cleanups|
        invariant events == old(events) + ran && ran + RunScope(run, cleanups[..index]) == RunScope(run, cleanups)
        invariant defect == Collect(primary, Failures(ran))
      {
        index := index - 1;
        var failure := run(cleanups[index]);
        ghost var e := Ran(cleanups[index], failure);
        events := events + [e];
        OneMore(primary, ran, e);
        LatestFirst(run, cleanups, index);
        Regroup(ran, [e], RunScope(run, cleanups[..index]));
        ran := ran + [e];
        if failure.Some? {
          defect := Some(AddDefect(defect, failure.value));
        }
      }
      LatestFirst(run, cleanups, 0);
      assert ran + [] == ran;
    }

    /** Leave the scopes above `depth`. */
    method Unwind(depth: nat) returns (defect: Option<Defect>)
      modifies this
      ensures scopes == Cut(old(scopes), depth)
      ensures events == old(events) + RunScopes(run, old(scopes), depth)
      ensures defect == Collect(None, Failures(RunScopes(run, old(scopes), depth)))
    {
      hide RunScopes, RunScope, Collect, Failures;
      defect := None;
      ghost var ran: seq<Event> := [];
      NothingRan(run, None);
      while |scopes| > depth
        invariant |scopes| <= |old(scopes)| && scopes == old(scopes)[..|scopes|] && (|scopes| < |old(scopes)| ==> |scopes| >= depth)
        invariant events == old(events) + ran && ran + RunScopes(run, scopes, depth) == RunScopes(run, old(scopes), depth)
        invariant defect == Collect(None, Failures(ran))
        decreases |scopes|
      {
        var cleanups := scopes[|scopes| - 1];
        ghost var mine := RunScope(run, cleanups);
        InnermostFirst(run, scopes, depth);
        scopes := scopes[..|scopes| - 1];
        defect := RunBackwards(cleanups, defect);
        FailuresJoin(ran, mine);
        CollectJoins(None, Failures(ran), Failures(mine));
        assert ran + (mine + RunScopes(run, scopes, depth)) == ran + mine + RunScopes(run, scopes, depth);
        ran := ran + mine;
      }
      InnermostFirst(run, scopes, depth);
      assert ran + [] == ran;
    }

    /** The whole commit. `headerDepth` counts the header scope itself, so it is never zero. */
    method CommitStateTransition(headerDepth: nat, replacements: seq<Replacement>) returns (r: Commit)
      requires headerDepth > 0 && Distinct(Olds(replacements))
      requires headerDepth <= |scopes| ==> Distinct(scopes[headerDepth - 1])
      modifies this
      ensures |old(scopes)| <= headerDepth <==> r.NoReplacementScope?
      ensures r.NoReplacementScope? ==> scopes == old(scopes) && events == old(events)
      ensures |old(scopes)| > headerDepth ==>
        var above := old(scopes)[..|old(scopes)| - 1];
        var header, acquired := old(scopes)[headerDepth - 1], old(scopes)[|old(scopes)| - 1];
        var left, ran := RunScopes(run, above, headerDepth), RunScope(run, Olds(replacements));
        && |scopes| == headerDepth && scopes[..headerDepth - 1] == old(scopes)[..headerDepth - 1]
        && (r.NotActive? <==> exists j :: 0 <= j < |replacements| && replacements[j].leaving !in header)
        && (r.NotActive? ==> scopes[headerDepth - 1] == header && events == old(events) + left)
        && (r.Committed? ==>
              && Replaced(header, replacements, scopes[headerDepth - 1])
              && events == old(events) + left + ran && Failures(left + ran) == [])
        && (r.CommitFailed? ==>
              && scopes[headerDepth - 1] == Untouched(header, Olds(replacements))
              && events == old(events) + left + ran + RunScope(run, acquired)
              && Failures(left + ran) != []
              && Some(r.defect) == Collect(None, Failures(left + ran + RunScope(run, acquired))))
    {
      hide RunScopes, RunScope, Collect, Failures, Untouched, Replaced;
      if |scopes| <= headerDepth { return NoReplacementScope; }
      var acquired := scopes[|scopes| - 1];
      scopes := scopes[..|scopes| - 1];
      ghost var left, ran := RunScopes(run, scopes, headerDepth), RunScope(run, Olds(replacements));
      var primary := Unwind(headerDepth);
      var header := scopes[headerDepth - 1];
      var slots := FindSlots(header, replacements);
      if slots.None? { return NotActive; }
      primary := RunBackwards(Olds(replacements), primary);
      JoinedFailures(None, left, ran);
      if primary.None? {
        header := Install(header, slots.value, replacements);
        scopes := scopes[headerDepth - 1 := header];
        return Committed;
      }
      var sorted := SortDescending(slots.value);
      header := Splice(header, sorted, slots.value, Olds(replacements));
      scopes := scopes[headerDepth - 1 := header];
      primary := RunBackwards(acquired, primary);
      JoinedFailures(None, left + ran, RunScope(run, acquired));
      JoinedFailures(primary, [], []);
      r := CommitFailed(primary.value);
    }
  }

  lemma JoinedFailures(primary: Option<Defect>, a: seq<Event>, b: seq<Event>)
    ensures Collect(Collect(primary, Failures(a)), Failures(b)) == Collect(primary, Failures(a + b))
    ensures Collect(primary, Failures(a + b)).None? <==> primary.None? && Failures(a + b) == []
    ensures Failures(a + b) == Failures(a) + Failures(b)
  {
    FailuresJoin(a, b);
    CollectJoins(primary, Failures(a), Failures(b));
    CollectSome(primary, Failures(a + b));
  }

  /** Where each replaced cleanup stands in the header, or nothing when one is not there. */
  method FindSlots(header: seq<Cleanup>, replacements: seq<Replacement>) returns (slots: Option<seq<nat>>)
    requires Distinct(header) && Distinct(Olds(replacements))
    ensures slots.None? <==> exists j :: 0 <= j < |replacements| && replacements[j].leaving !in header
    ensures slots.Some? ==> |slots.value| == |replacements| && Distinct(slots.value)
    ensures slots.Some? ==> forall j | 0 <= j < |replacements| :: slots.value[j] < |header| && header[slots.value[j]] == replacements[j].leaving
  {
    var found: seq<nat> := [];
    var index := 0;
    while index < |replacements|
      invariant index <= |replacements| && |found| == index
      invariant forall j | 0 <= j < index :: found[j] < |header| && header[found[j]] == replacements[j].leaving
    {
      var slot := FindSlot(header, replacements[index].leaving);
      if slot.None? { return None; }
      found := found + [slot.value];
      index := index + 1;
    }
    forall i, j | 0 <= i < j < |found| ensures found[i] != found[j] {
      assert Olds(replacements)[i] != Olds(replacements)[j];
    }
    slots := Some(found);
  }

  predicate Descending(s: seq<nat>) {
    forall i, j | 0 <= i < j < |s| :: s[i] > s[j]
  }

  lemma Inserted(sorted: seq<nat>, k: nat, slot: nat)
    requires Descending(sorted) && k <= |sorted|
    requires forall j | 0 <= j < k :: sorted[j] > slot
    requires k < |sorted| ==> sorted[k] < slot
    ensures Descending(PutAt(sorted, k, slot))
  {
    forall j | k <= j < |sorted| ensures sorted[j] < slot {
      if j > k { assert sorted[k] > sorted[j]; }
    }
    var after := PutAt(sorted, k, slot);
    forall i, j | 0 <= i < j < |after| ensures after[i] > after[j] {
      var x, y := after[i], after[j];
    }
  }

  /** Insertion sort, largest first; the positions are distinct. */
  method SortDescending(slots: seq<nat>) returns (sorted: seq<nat>)
    requires Distinct(slots)
    ensures Descending(sorted) && multiset(sorted) == multiset(slots)
  {
    hide PutAt, Distinct, Descending;
    sorted := [];
    NothingSorted();
    var i := 0;
    while i < |slots|
      invariant i <= |slots| && Descending(sorted) && multiset(sorted) == multiset(slots[..i])
    {
      var k := 0;
      while k < |sorted| && sorted[k] > slots[i]
        invariant k <= |sorted| && forall j | 0 <= j < k :: sorted[j] > slots[i]
      {
        k := k + 1;
      }
      OneMoreSorted(slots, i, sorted, k);
      sorted := PutAt(sorted, k, slots[i]);
      i := i + 1;
    }
    assert slots[..i] == slots;
  }

  lemma NothingSorted()
    ensures Descending([])
  {}

  lemma OneMoreSorted(slots: seq<nat>, i: nat, sorted: seq<nat>, k: nat)
    requires Distinct(slots) && i < |slots| && multiset(sorted) == multiset(slots[..i]) && Descending(sorted) && k <= |sorted|
    requires (forall j | 0 <= j < k :: sorted[j] > slots[i]) && (k < |sorted| ==> sorted[k] <= slots[i])
    ensures Descending(PutAt(sorted, k, slots[i])) && multiset(PutAt(sorted, k, slots[i])) == multiset(slots[..i + 1])
  {
    NotYetSorted(slots, i, sorted);
    if k < |sorted| { assert sorted[k] in sorted; }
    hide Distinct;
    Inserted(sorted, k, slots[i]);
    assert slots[..i + 1] == slots[..i] + [slots[i]];
  }

  lemma NotYetSorted(slots: seq<nat>, i: nat, sorted: seq<nat>)
    requires Distinct(slots) && i < |slots| && multiset(sorted) == multiset(slots[..i])
    ensures slots[i] !in sorted
  {
    assert slots[i] !in slots[..i];
    assert slots[i] !in multiset(slots[..i]);
    assert slots[i] !in multiset(sorted);
  }

  /** Remove positions from the highest down. */
  method Splice(header: seq<Cleanup>, sorted: seq<nat>, ghost slots: seq<nat>, ghost olds: seq<Cleanup>) returns (after: seq<Cleanup>)
    requires Distinct(header) && Descending(sorted) && multiset(sorted) == multiset(slots) && |slots| == |olds|
    requires forall j | 0 <= j < |slots| :: slots[j] < |header| && header[slots[j]] == olds[j]
    ensures after == Untouched(header, olds)
  {
    after := header;
    ghost var gone: set<nat> := {};
    NothingDroppedYet(header);
    var i := 0;
    while i < |sorted|
      invariant i <= |sorted| && gone == set j | 0 <= j < i :: sorted[j]
      invariant after == Dropping(header, gone)
    {
      assert sorted[i] in multiset(slots);
      DroppingOneMore(header, gone, sorted[i]);
      after := after[..sorted[i]] + after[sorted[i] + 1..];
      gone := gone + {sorted[i]};
      i := i + 1;
    }
    forall k: nat | k < |header| ensures k in gone <==> header[k] in olds {
      if k in gone {
        assert k in multiset(sorted) && k in multiset(slots);
      }
      if header[k] in olds {
        var j :| 0 <= j < |olds| && olds[j] == header[k];
        assert slots[j] == k && k in multiset(slots) && k in multiset(sorted);
      }
    }
    DroppingTheOlds(header, gone, olds);
  }

  /** Put each new cleanup where the one it replaces was. */
  method Install(header: seq<Cleanup>, slots: seq<nat>, replacements: seq<Replacement>) returns (after: seq<Cleanup>)
    requires Distinct(header) && Distinct(Olds(replacements)) && |slots| == |replacements|
    requires forall j | 0 <= j < |slots| :: slots[j] < |header| && header[slots[j]] == replacements[j].leaving
    ensures Replaced(header, replacements, after)
  {
    after := header;
    var index := 0;
    while index < |replacements|
      invariant index <= |replacements| && |after| == |header|
      invariant forall j | 0 <= j < index :: after[slots[j]] == replacements[j].coming
      invariant forall i | 0 <= i < |header| && (forall j | 0 <= j < index :: slots[j] != i) :: after[i] == header[i]
    {
      forall j | 0 <= j < index ensures slots[j] != slots[index] {
        assert Olds(replacements)[j] != Olds(replacements)[index];
      }
      after := after[slots[index] := replacements[index].coming];
      index := index + 1;
    }
    forall i, j | 0 <= i < |header| && 0 <= j < |replacements| && header[i] == replacements[j].leaving
      ensures after[i] == replacements[j].coming
    {
      assert slots[j] == i;
    }
    forall i | 0 <= i < |header| && header[i] !in Olds(replacements) ensures after[i] == header[i] {
      forall j | 0 <= j < |replacements| ensures slots[j] != i {
        assert Olds(replacements)[j] in Olds(replacements);
      }
    }
  }

  // ----- no cleanup is lost or run twice -----

  /** All replacements but the last. */
  lemma AllButLast(header: seq<Cleanup>, rs: seq<Replacement>, after: seq<Cleanup>, slot: nat)
    requires |rs| > 0 && Distinct(header) && Distinct(Olds(rs)) && Replaced(header, rs, after)
    requires slot < |header| && header[slot] == rs[|rs| - 1].leaving
    ensures Distinct(Olds(rs[..|rs| - 1]))
    ensures Replaced(header, rs[..|rs| - 1], after[slot := header[slot]]) && after[slot] == rs[|rs| - 1].coming
  {
    var last := |rs| - 1;
    var init, before := rs[..last], after[slot := header[slot]];
    assert Olds(rs) == Olds(init) + [rs[last].leaving];
    forall i, j | 0 <= i < |header| && 0 <= j < |init| && header[i] == init[j].leaving ensures before[i] == init[j].coming {
      assert Olds(rs)[j] != Olds(rs)[last];
      assert header[i] == rs[j].leaving;
    }
    forall i | 0 <= i < |header| && header[i] !in Olds(init) ensures before[i] == header[i] {
      if i != slot {
        assert header[i] != header[slot];
        assert header[i] !in Olds(rs);
      }
    }
  }

  lemma {:induction false} ReplacedCounts(header: seq<Cleanup>, rs: seq<Replacement>, after: seq<Cleanup>)
    requires Distinct(header) && Distinct(Olds(rs)) && Replaced(header, rs, after)
    requires forall j | 0 <= j < |rs| :: rs[j].leaving in header
    ensures multiset(after) + multiset(Olds(rs)) == multiset(header) + multiset(News(rs))
    decreases |rs|
  {
    hide Replaced, Distinct, News, Olds;
    if |rs| == 0 {
      NothingReplaced(header, rs, after);
    } else {
      var last := |rs| - 1;
      var init := rs[..last];
      var slot :| 0 <= slot < |header| && header[slot] == rs[last].leaving;
      SameLength(header, rs, after);
      var before := after[slot := header[slot]];
      AllButLast(header, rs, after, slot);
      ReplacedCounts(header, init, before);
      OneMoreReplacement(rs);
      UpdateCounts(before, slot, rs[last].coming);
      assert after == before[slot := rs[last].coming];
      Balance(multiset(before), multiset(Olds(init)), multiset(header), multiset(News(init)), rs[last].leaving, rs[last].coming);
    }
  }

  lemma NothingReplaced(header: seq<Cleanup>, rs: seq<Replacement>, after: seq<Cleanup>)
    requires rs == [] && Replaced(header, rs, after)
    ensures after == header && multiset(Olds(rs)) == multiset{} && multiset(News(rs)) == multiset{}
  {}

  lemma OneMoreReplacement(rs: seq<Replacement>)
    requires |rs| > 0
    ensures multiset(Olds(rs)) == multiset(Olds(rs[..|rs| - 1])) + multiset{rs[|rs| - 1].leaving}
    ensures multiset(News(rs)) == multiset(News(rs[..|rs| - 1])) + multiset{rs[|rs| - 1].coming}
  {
    assert Olds(rs) == Olds(rs[..|rs| - 1]) + [rs[|rs| - 1].leaving] && News(rs) == News(rs[..|rs| - 1]) + [rs[|rs| - 1].coming];
  }

  lemma UpdateCounts(s: seq<Cleanup>, i: nat, c: Cleanup)
    requires i < |s|
    ensures s[i] in multiset(s) && multiset(s[i := c]) == multiset(s) - multiset{s[i]} + multiset{c}
  {}

  lemma SameLength(header: seq<Cleanup>, rs: seq<Replacement>, after: seq<Cleanup>)
    requires Replaced(header, rs, after)
    ensures |after| == |header|
  {}

  lemma Balance(b: multiset<Cleanup>, o: multiset<Cleanup>, h: multiset<Cleanup>, n: multiset<Cleanup>, x: Cleanup, y: Cleanup)
    requires b + o == h + n && x in b
    ensures b - multiset{x} + multiset{y} + (o + multiset{x}) == h + (n + multiset{y})
  {
    assert b - multiset{x} + multiset{x} == b;
    assert b - multiset{x} + multiset{y} + (o + multiset{x}) == (b - multiset{x} + multiset{x}) + o + multiset{y};
  }

  lemma {:induction false} UntouchedCounts(header: seq<Cleanup>, olds: seq<Cleanup>)
    requires Distinct(header)
    ensures forall c :: multiset(Untouched(header, olds))[c] == if c in header && c !in olds then 1 else 0
    decreases |header|
  {
    if |header| > 0 {
      var last := |header| - 1;
      UntouchedCounts(header[..last], olds);
      assert header == header[..last] + [header[last]];
      assert header[last] !in header[..last];
    }
  }

  lemma {:induction false} DistinctCounts(s: seq<Cleanup>)
    requires Distinct(s)
    ensures forall c :: multiset(s)[c] == if c in s then 1 else 0
    decreases |s|
  {
    if |s| > 0 {
      DistinctCounts(s[..|s| - 1]);
      assert s == s[..|s| - 1] + [s[|s| - 1]];
      assert s[|s| - 1] !in s[..|s| - 1];
    }
  }

  /** What the scopes of the frame held before, split at the header. */
  lemma HeldBefore(run: Behaviour, before: seq<seq<Cleanup>>, headerDepth: nat)
    requires |before| > headerDepth > 0
    ensures var above := before[..|before| - 1];
            multiset(Flat(before)) == RanOf(RunScopes(run, above, headerDepth)) + multiset(Flat(before[..headerDepth - 1]))
                                      + multiset(before[headerDepth - 1]) + multiset(before[|before| - 1])
  {
    var above := before[..|before| - 1];
    RanOfScopes(run, above, headerDepth);
    var kept := Cut(above, headerDepth);
    assert kept == before[..headerDepth] && kept[..headerDepth - 1] == before[..headerDepth - 1];
    assert Flat(kept) == Flat(before[..headerDepth - 1]) + before[headerDepth - 1];
    assert Flat(before) == Flat(above) + before[|before| - 1];
  }

  lemma HeldAfter(after: seq<seq<Cleanup>>)
    requires |after| > 0
    ensures multiset(Flat(after)) == multiset(Flat(after[..|after| - 1])) + multiset(after[|after| - 1])
  {}

  /** A committed transition runs every replaced cleanup once. Nothing is lost or held twice exactly when the acquired
      scope held the replacement cleanups and no others. */
  lemma CommitConserves(run: Behaviour, before: seq<seq<Cleanup>>, headerDepth: nat, rs: seq<Replacement>, after: seq<seq<Cleanup>>)
    requires |before| > headerDepth > 0 && Distinct(before[headerDepth - 1]) && Distinct(Olds(rs))
    requires forall j | 0 <= j < |rs| :: rs[j].leaving in before[headerDepth - 1]
    requires |after| == headerDepth && after[..headerDepth - 1] == before[..headerDepth - 1]
    requires Replaced(before[headerDepth - 1], rs, after[headerDepth - 1])
    ensures var ran := RunScopes(run, before[..|before| - 1], headerDepth) + RunScope(run, Olds(rs));
            && RanOf(RunScope(run, Olds(rs))) == multiset(Olds(rs))
            && (RanOf(ran) + multiset(Flat(after)) == multiset(Flat(before))
                <==> multiset(before[|before| - 1]) == multiset(News(rs)))
  {
    var left, mine := RunScopes(run, before[..|before| - 1], headerDepth), RunScope(run, Olds(rs));
    HeldBefore(run, before, headerDepth);
    HeldAfter(after);
    RanOfScope(run, Olds(rs));
    RanOfJoins(left, mine);
    ReplacedCounts(before[headerDepth - 1], rs, after[headerDepth - 1]);
    var kept := multiset(Flat(before[..headerDepth - 1]));
    var base := RanOf(left) + kept + multiset(before[headerDepth - 1]);
    Sum(RanOf(left), multiset(Olds(rs)), kept, multiset(after[headerDepth - 1]), multiset(before[headerDepth - 1]), multiset(News(rs)));
    assert RanOf(left + mine) + multiset(Flat(after)) == base + multiset(News(rs));
    SameRest(base, multiset(News(rs)), multiset(before[|before| - 1]));
  }

  lemma Sum(left: multiset<Cleanup>, olds: multiset<Cleanup>, kept: multiset<Cleanup>, after: multiset<Cleanup>,
            header: multiset<Cleanup>, news: multiset<Cleanup>)
    requires after + olds == header + news
    ensures left + olds + (kept + after) == left + kept + header + news
  {
    assert left + olds + (kept + after) == left + kept + (after + olds);
    assert left + kept + header + news == left + kept + (header + news);
  }

  lemma SameRest(base: multiset<Cleanup>, a: multiset<Cleanup>, b: multiset<Cleanup>)
    ensures base + a == base + b <==> a == b
  {
    if base + a == base + b {
      forall c ensures a[c] == b[c] {
        assert (base + a)[c] == (base + b)[c];
      }
    }
  }

  /** A failed transition runs every replaced and every acquired cleanup once and holds on to the others only. */
  lemma FailureConserves(run: Behaviour, before: seq<seq<Cleanup>>, headerDepth: nat, rs: seq<Replacement>, after: seq<seq<Cleanup>>)
    requires |before| > headerDepth > 0 && Distinct(before[headerDepth - 1]) && Distinct(Olds(rs))
    requires forall j | 0 <= j < |rs| :: rs[j].leaving in before[headerDepth - 1]
    requires |after| == headerDepth && after[..headerDepth - 1] == before[..headerDepth - 1]
    requires after[headerDepth - 1] == Untouched(before[headerDepth - 1], Olds(rs))
    ensures var acquired := before[|before| - 1];
            var ran := RunScopes(run, before[..|before| - 1], headerDepth) + RunScope(run, Olds(rs)) + RunScope(run, acquired);
            && RanOf(RunScope(run, Olds(rs)) + RunScope(run, acquired)) == multiset(Olds(rs)) + multiset(acquired)
            && RanOf(ran) + multiset(Flat(after)) == multiset(Flat(before))
  {
    hide Flat, Untouched, RunScopes, RunScope, RanOf;
    var header, acquired := before[headerDepth - 1], before[|before| - 1];
    var left, mine, last := RunScopes(run, before[..|before| - 1], headerDepth), RunScope(run, Olds(rs)), RunScope(run, acquired);
    HeldBefore(run, before, headerDepth);
    HeldAfter(after);
    RanOfScope(run, Olds(rs));
    RanOfScope(run, acquired);
    RanOfJoins(mine, last);
    RanOfJoins(left, mine);
    RanOfJoins(left + mine, last);
    UntouchedAndOlds(header, Olds(rs));
    var kept := multiset(Flat(before[..headerDepth - 1]));
    SumAll(RanOf(left), multiset(Olds(rs)), multiset(acquired), kept, multiset(after[headerDepth - 1]), multiset(header));
  }

  lemma SumAll(left: multiset<Cleanup>, olds: multiset<Cleanup>, acquired: multiset<Cleanup>, kept: multiset<Cleanup>,
               after: multiset<Cleanup>, header: multiset<Cleanup>)
    requires after + olds == header
    ensures left + olds + acquired + (kept + after) == left + kept + header + acquired
  {
    assert left + olds + acquired + (kept + after) == left + kept + (after + olds) + acquired;
  }

  lemma UntouchedAndOlds(header: seq<Cleanup>, olds: seq<Cleanup>)
    requires Distinct(header) && Distinct(olds) && forall c | c in olds :: c in header
    ensures multiset(Untouched(header, olds)) + multiset(olds) == multiset(header)
  {
    UntouchedCounts(header, olds);
    DistinctCounts(header);
    DistinctCounts(olds);
  }
}
