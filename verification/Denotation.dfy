/** What runtime values denote, apart from how they are compared: numbers are integers whatever their box, sequences are
    pointwise, maps are finite maps between meanings. Structural equality is equality of meanings. */
module Denotation {
  import opened Values
  import opened Structural
  import opened HashTrie
  import opened StructuralLaws
  import opened EqualityLaws
  import opened HashMap

  datatype Meaning =
    | Nothing
    | Integral(number: int)
    | Textual(kind: string, text: string)
    | Listed(items: seq<Meaning>)
    | Tupled(items: seq<Meaning>)
    | Named(tag: Option<string>, identity: string, names: seq<string>, values: seq<Meaning>)
    | Mapped(entries: map<Meaning, Meaning>)

  function Denotes(d: Datum): Meaning
    decreases Size(d), 1
  {
    match d
    case Void => Nothing
    case IntBox(v) => Integral(v)
    case UintBox(u) => Integral(u)
    case Payload(kind, text) => Textual(kind, text)
    case ListBox(items) => Listed(DenotesAll(items))
    case TupleBox(items) => Tupled(DenotesAll(items))
    case Nominal(tag, identity, members) => Named(tag, identity, NamesOf(members), DenotesMembers(members))
    case MapBox(root, _) => Mapped(DenotesEntries(Entries(root)))
  }

  function DenotesAll(items: seq<Datum>): (r: seq<Meaning>)
    ensures |r| == |items|
    decreases SizeAll(items), 2, |items|
  {
    if |items| == 0 then [] else [Denotes(items[0])] + DenotesAll(items[1..])
  }

  function NamesOf(members: seq<Member>): (r: seq<string>)
    ensures |r| == |members| && forall i | 0 <= i < |r| :: r[i] == members[i].name
  {
    seq(|members|, i requires 0 <= i < |members| => members[i].name)
  }

  function DenotesMembers(members: seq<Member>): (r: seq<Meaning>)
    ensures |r| == |members|
    decreases SizeMembers(members), 2, |members|
  {
    if |members| == 0 then [] else [Denotes(members[0].value)] + DenotesMembers(members[1..])
  }

  function DenotesEntries(entries: seq<Pair>): map<Meaning, Meaning>
    decreases SizePairs(entries), 2, |entries|
  {
    if |entries| == 0 then map[] else
    SizeOfPair(entries, 0);
    DenotesEntries(entries[1..])[Denotes(entries[0].key) := Denotes(entries[0].value)]
  }

  lemma {:induction false} DenotesEach(items: seq<Datum>)
    ensures forall i | 0 <= i < |items| :: DenotesAll(items)[i] == Denotes(items[i])
    decreases |items|
  {
    hide Denotes;
    if |items| > 0 { DenotesEach(items[1..]); }
  }

  lemma {:induction false} DenotesEachMember(members: seq<Member>)
    ensures forall i | 0 <= i < |members| :: DenotesMembers(members)[i] == Denotes(members[i].value)
    decreases |members|
  {
    hide Denotes;
    if |members| > 0 { DenotesEachMember(members[1..]); }
  }

  // ----- agreement, by induction on size -----

  ghost predicate Agree(n: nat) {
    forall a, b | Within(a, n) && Within(b, n) :: Equals(a, b) <==> Denotes(a) == Denotes(b)
  }

  lemma UseAgree(n: nat, a: Datum, b: Datum)
    requires Agree(n) && Within(a, n) && Within(b, n)
    ensures Equals(a, b) <==> Denotes(a) == Denotes(b)
  {}

  lemma ItemsAgree(n: nat, xs: seq<Datum>, ys: seq<Datum>)
    requires Agree(n) && SizeAll(xs) < n && SizeAll(ys) < n
    requires (forall i | 0 <= i < |xs| :: Ok(xs[i])) && forall i | 0 <= i < |ys| :: Ok(ys[i])
    ensures |xs| == |ys| && EqualsAll(xs, ys) <==> DenotesAll(xs) == DenotesAll(ys)
  {
    hide Agree, Equals, Denotes, DenotesAll, EqualsAll, Ok;
    ItemsWithin(xs, n);
    ItemsWithin(ys, n);
    DenotesEach(xs);
    DenotesEach(ys);
    if |xs| == |ys| {
      EqualsEach(xs, ys);
      forall i | 0 <= i < |xs| ensures Equals(xs[i], ys[i]) <==> DenotesAll(xs)[i] == DenotesAll(ys)[i] { UseAgree(n, xs[i], ys[i]); }
    }
  }

  lemma MembersAgree(n: nat, xs: seq<Member>, ys: seq<Member>)
    requires Agree(n) && SizeMembers(xs) < n && SizeMembers(ys) < n
    requires (forall i | 0 <= i < |xs| :: Ok(xs[i].value)) && forall i | 0 <= i < |ys| :: Ok(ys[i].value)
    ensures |xs| == |ys| && EqualsMembers(xs, ys) <==> NamesOf(xs) == NamesOf(ys) && DenotesMembers(xs) == DenotesMembers(ys)
  {
    hide Agree, Equals, Denotes, DenotesMembers, EqualsMembers, Ok;
    MembersWithin(xs, n);
    MembersWithin(ys, n);
    DenotesEachMember(xs);
    DenotesEachMember(ys);
    if |xs| == |ys| {
      EqualsEachMember(xs, ys);
      forall i | 0 <= i < |xs|
        ensures MemberEquals(xs[i], ys[i]) <==> NamesOf(xs)[i] == NamesOf(ys)[i] && DenotesMembers(xs)[i] == DenotesMembers(ys)[i]
      {
        UseAgree(n, xs[i].value, ys[i].value);
      }
    }
  }

  /** Entries with pairwise unequal keys denote a map that holds each of them and nothing else. */
  ghost predicate Holds(f: map<Meaning, Meaning>, es: seq<Pair>) {
    && |f| == |es|
    && (forall i | 0 <= i < |es| :: HoldsAt(f, es[i]))
    && forall m | m in f :: KeyAmong(es, m)
  }

  predicate HoldsAt(f: map<Meaning, Meaning>, p: Pair) {
    Denotes(p.key) in f && f[Denotes(p.key)] == Denotes(p.value)
  }

  ghost predicate KeyAmong(es: seq<Pair>, m: Meaning) {
    exists i :: 0 <= i < |es| && Denotes(es[i].key) == m
  }

  lemma RestWithin(es: seq<Pair>, n: nat)
    requires |es| > 0 && KeysWithin(es, n) && Apart(es)
    ensures KeysWithin(es[1..], n) && Apart(es[1..]) && Within(es[0].key, n)
  {
    hide Within, Equals;
    forall i | 0 <= i < |es[1..]| ensures Within(es[1..][i].key, n) && Within(es[1..][i].value, n) { assert es[1..][i] == es[i + 1]; }
  }

  lemma {:induction false} EntriesHeld(n: nat, es: seq<Pair>)
    requires Agree(n) && KeysWithin(es, n) && Apart(es)
    ensures Holds(DenotesEntries(es), es)
    decreases |es|
  {
    hide Agree, Within, Equals, Denotes;
    if |es| > 0 {
      RestWithin(es, n);
      EntriesHeld(n, es[1..]);
      FirstKeyIsNew(n, es);
      OneMoreHeld(es, DenotesEntries(es[1..]));
    }
  }

  lemma FirstKeyIsNew(n: nat, es: seq<Pair>)
    requires Agree(n) && KeysWithin(es, n) && Apart(es) && |es| > 0
    ensures !KeyAmong(es[1..], Denotes(es[0].key))
  {
    hide Agree, Within, Equals, Denotes;
    forall i | 0 <= i < |es[1..]| ensures Denotes(es[1..][i].key) != Denotes(es[0].key) {
      assert es[1..][i] == es[i + 1];
      UseAgree(n, es[i + 1].key, es[0].key);
    }
  }

  lemma OneMoreHeld(es: seq<Pair>, f: map<Meaning, Meaning>)
    requires |es| > 0 && Holds(f, es[1..]) && !KeyAmong(es[1..], Denotes(es[0].key))
    ensures Holds(f[Denotes(es[0].key) := Denotes(es[0].value)], es)
  {
    hide Denotes;
    var key := Denotes(es[0].key);
    var g := f[key := Denotes(es[0].value)];
    forall i | 0 <= i < |es| ensures HoldsAt(g, es[i]) {
      if i > 0 {
        assert HoldsAt(f, es[1..][i - 1]);
        assert Denotes(es[1..][i - 1].key) != key;
      }
    }
    forall m | m in g ensures KeyAmong(es, m) {
      if m != key {
        assert KeyAmong(es[1..], m);
        var i :| 0 <= i < |es[1..]| && Denotes(es[1..][i].key) == m;
        assert es[1..][i] == es[i + 1];
      }
    }
  }

  /** Matched entries denote a part of the other map. */
  lemma MatchedIsPart(n: nat, es: seq<Pair>, fs: seq<Pair>, f: seq<nat>, a: map<Meaning, Meaning>, b: map<Meaning, Meaning>)
    requires Agree(n) && KeysWithin(es, n) && KeysWithin(fs, n) && Matched(es, fs, f) && Holds(a, es) && Holds(b, fs)
    ensures forall m | m in a :: m in b && b[m] == a[m]
  {
    hide Agree, Within, Equals, Denotes;
    forall m | m in a ensures m in b && b[m] == a[m] {
      assert KeyAmong(es, m);
      var i :| 0 <= i < |es| && Denotes(es[i].key) == m;
      assert MatchedAt(es, fs, f, i) && HoldsAt(a, es[i]) && HoldsAt(b, fs[f[i]]);
      UseAgree(n, fs[f[i]].key, es[i].key);
      UseAgree(n, es[i].value, fs[f[i]].value);
    }
  }

  function PlaceOf(fs: seq<Pair>, m: Meaning): (j: nat)
    ensures KeyAmong(fs, m) ==> j < |fs| && Denotes(fs[j].key) == m
    decreases |fs|
  {
    if |fs| == 0 then 0 else
    assert KeyAmong(fs, m) && Denotes(fs[0].key) != m ==> KeyAmong(fs[1..], m) by {
      if KeyAmong(fs, m) && Denotes(fs[0].key) != m {
        var i :| 0 <= i < |fs| && Denotes(fs[i].key) == m;
        assert fs[1..][i - 1] == fs[i];
      }
    }
    if Denotes(fs[0].key) == m then 0 else 1 + PlaceOf(fs[1..], m)
  }

  /** Entries of one map are matched by those of any other that denotes the same. */
  lemma PartIsMatched(n: nat, es: seq<Pair>, fs: seq<Pair>, a: map<Meaning, Meaning>) returns (f: seq<nat>)
    requires Agree(n) && KeysWithin(es, n) && KeysWithin(fs, n) && Holds(a, es) && Holds(a, fs)
    ensures Matched(es, fs, f)
  {
    hide Agree, Within, Equals, Denotes;
    f := seq(|es|, i requires 0 <= i < |es| => PlaceOf(fs, Denotes(es[i].key)));
    forall i | 0 <= i < |es| ensures MatchedAt(es, fs, f, i) {
      assert HoldsAt(a, es[i]);
      assert KeyAmong(fs, Denotes(es[i].key));
      assert HoldsAt(a, fs[f[i]]);
      UseAgree(n, fs[f[i]].key, es[i].key);
      UseAgree(n, es[i].value, fs[f[i]].value);
    }
  }

  lemma MapsAgree(n: nat, r: Tree, s: Tree)
    requires Agree(n) && Laws(n) && RootOk(r) && RootOk(s) && SizeTree(r) <= n && SizeTree(s) <= n
    ensures |Entries(r)| == |Entries(s)| && EntriesIn(Entries(r), s) <==> DenotesEntries(Entries(r)) == DenotesEntries(Entries(s))
  {
    hide Agree, Laws, RootOk, Equals, Within, Entries, EntriesIn, SizeTree, DenotesEntries, Denotes, Matched, KeysWithin, Apart;
    var es, fs := Entries(r), Entries(s);
    var a, b := DenotesEntries(es), DenotesEntries(fs);
    MapEntries(r, n);
    MapEntries(s, n);
    EntriesHeld(n, es);
    EntriesHeld(n, fs);
    if |es| == |fs| && EntriesIn(es, s) {
      var f := MatchEntries(es, s, n);
      MapSymmetric(n, r, s);
      var g := MatchEntries(fs, r, n);
      MatchedIsPart(n, es, fs, f, a, b);
      MatchedIsPart(n, fs, es, g, b, a);
      assert a == b;
    }
    if a == b {
      var f := PartIsMatched(n, es, fs, a);
      MatchedIn(es, s, f, n);
    }
  }

  lemma AgreeStep(n: nat, a: Datum, b: Datum)
    requires Agree(n) && Laws(n) && Ok(a) && Size(a) <= n && Ok(b) && Size(b) <= n
    ensures Equals(a, b) <==> Denotes(a) == Denotes(b)
  {
    hide Agree, Laws, EqualsAll, EqualsMembers, EntriesIn, Entries, DenotesAll, DenotesMembers, DenotesEntries, NamesOf;
    if (a.ListBox? && b.ListBox?) || (a.TupleBox? && b.TupleBox?) {
      ItemsAgree(n, a.items, b.items);
    } else if a.Nominal? && b.Nominal? {
      MembersAgree(n, a.members, b.members);
    } else if a.MapBox? && b.MapBox? {
      MapParts(a, n);
      MapParts(b, n);
      MapsAgree(n, a.root, b.root);
    }
  }

  lemma {:induction false} AgreeHolds(n: nat)
    ensures Agree(n)
    decreases n
  {
    hide Agree, Laws;
    if n == 0 {
      NothingToAgree();
    } else {
      AgreeHolds(n - 1);
      LawsHold(n - 1);
      AllAgree(n);
    }
  }

  lemma NothingToAgree()
    ensures Agree(0)
  {
    hide Equals, Denotes, Ok;
  }

  lemma AllAgree(n: nat)
    requires n > 0 && Agree(n - 1) && Laws(n - 1)
    ensures Agree(n)
  {
    hide Equals, Denotes, Ok, Laws;
    forall a, b | Within(a, n) && Within(b, n) ensures Equals(a, b) <==> Denotes(a) == Denotes(b) { AgreeStep(n - 1, a, b); }
  }

  // ----- the theorems -----

  /** Two values are equal exactly when they denote the same: numbers by their integer, int or uint; payloads by kind and
      text; lists, tuples and members pointwise; maps as finite maps. */
  lemma EqualityIsSameMeaning(a: Datum, b: Datum)
    requires Ok(a) && Ok(b)
    ensures Equals(a, b) <==> Denotes(a) == Denotes(b)
  {
    hide Equals, Ok, Denotes;
    var n := Size(a) + Size(b) + 1;
    AgreeHolds(n);
    UseAgree(n, a, b);
  }

  /** An int and a uint box are equal exactly when they hold the same number, which no negative int does. */
  lemma NumbersMeet(v: int, u: nat)
    ensures Equals(IntBox(v), UintBox(u)) <==> v == u
    ensures Equals(UintBox(u), IntBox(v)) <==> v == u
  {
    EqualityIsSameMeaning(IntBox(v), UintBox(u));
    EqualityIsSameMeaning(UintBox(u), IntBox(v));
  }

  lemma VoidIsOk()
    ensures Ok(Void)
  {}

  lemma MapDenotes(m: Datum)
    requires m.MapBox?
    ensures Denotes(m) == Mapped(DenotesEntries(Entries(m.root)))
  {
    hide DenotesEntries, Entries;
  }

  lemma MapShape(m: Datum)
    requires IsMap(m)
    ensures m.MapBox? && RootOk(m.root) && m.size == |Entries(m.root)| && AllOk(Entries(m.root))
  {
    hide AllOk, Entries, WellPlaced;
    VoidIsOk();
    MapFacts(m, Void);
  }

  lemma MapHolds(m: Datum)
    requires IsMap(m)
    ensures m.MapBox? && Denotes(m).Mapped? && m.size == |Entries(m.root)| && AllOk(Entries(m.root)) && Holds(Denotes(m).entries, Entries(m.root))
  {
    hide *;
    MapShape(m);
    MapDenotes(m);
    var n := SizeTree(m.root) + 1;
    AgreeHolds(n);
    LawsHold(n);
    MapEntries(m.root, n);
    EntriesHeld(n, Entries(m.root));
  }

  lemma KeyApplies(es: seq<Pair>, f: map<Meaning, Meaning>, key: Datum)
    requires Holds(f, es) && AllOk(es) && Ok(key)
    ensures |f| == |es| && (Denotes(key) in f <==> exists i :: 0 <= i < |es| && Equals(es[i].key, key))
    ensures forall i | 0 <= i < |es| && Equals(es[i].key, key) :: Denotes(key) in f && f[Denotes(key)] == Denotes(es[i].value)
  {
    hide Equals, Denotes, Ok;
    forall i | 0 <= i < |es| && Equals(es[i].key, key) ensures Denotes(key) in f && f[Denotes(key)] == Denotes(es[i].value) {
      assert HoldsAt(f, es[i]) && PairOk(es[i]);
      EqualityIsSameMeaning(es[i].key, key);
    }
    if Denotes(key) in f {
      assert KeyAmong(es, Denotes(key));
      var i :| 0 <= i < |es| && Denotes(es[i].key) == Denotes(key);
      assert PairOk(es[i]);
      EqualityIsSameMeaning(es[i].key, key);
    }
  }

  /** A lookup is an application of the map denoted. */
  lemma LookupIsApplication(m: Datum, key: Datum)
    requires IsMap(m) && Ok(key)
    ensures Denotes(m).Mapped? && m.size == |Denotes(m).entries|
    ensures MapGet(m, key).Some? <==> Denotes(key) in Denotes(m).entries
    ensures MapGet(m, key).Some? ==> Denotes(MapGet(m, key).value) == Denotes(m).entries[Denotes(key)]
  {
    hide *;
    MapHolds(m);
    MapIsFinite(m, key);
    var es, f := Entries(m.root), Denotes(m).entries;
    KeyApplies(es, f, key);
    if Denotes(key) in f {
      var i :| 0 <= i < |es| && Equals(es[i].key, key);
      assert MapGet(m, key) == Some(es[i].value);
    }
    if MapGet(m, key).Some? {
      var i :| 0 <= i < |es| && Equals(es[i].key, key);
    }
  }

  /** Maps are equal exactly when they are as large and every key finds equal values in both, or nothing in either. */
  lemma MapsAreExtensional(m: Datum, o: Datum)
    requires IsMap(m) && IsMap(o)
    ensures Equals(m, o) <==> m.size == o.size && forall k | Ok(k) :: FoundAlike(m, o, k)
  {
    hide Equals, Ok, Denotes, MapGet;
    EqualityIsSameMeaning(m, o);
    VoidIsOk();
    LookupIsApplication(m, Void);
    LookupIsApplication(o, Void);
    var f, g := Denotes(m).entries, Denotes(o).entries;
    if Equals(m, o) {
      forall k | Ok(k) ensures FoundAlike(m, o, k) { AppliedAlike(m, o, k); }
    }
    if m.size == o.size && forall k | Ok(k) :: FoundAlike(m, o, k) {
      PartOf(m, o);
      forall k | Ok(k) ensures FoundAlike(o, m, k) { AlikeBack(m, o, k); }
      PartOf(o, m);
      assert f == g;
    }
  }

  ghost predicate FoundAlike(m: Datum, o: Datum, k: Datum)
    requires m.MapBox? && o.MapBox?
  {
    match (MapGet(m, k), MapGet(o, k))
    case (None, None) => true
    case (Some(v), Some(w)) => Equals(v, w)
    case _ => false
  }

  lemma FoundIsOk(m: Datum, k: Datum)
    requires IsMap(m) && Ok(k) && MapGet(m, k).Some?
    ensures Ok(MapGet(m, k).value)
  {
    MapFacts(m, k);
    hide Equals, Ok, Entries, MapGet, KeyHash;
    var es := Entries(m.root);
    MapIsFinite(m, k);
    var i :| 0 <= i < |es| && Equals(es[i].key, k);
    assert PairOk(es[i]);
  }

  lemma AlikeBack(m: Datum, o: Datum, k: Datum)
    requires IsMap(m) && IsMap(o) && Ok(k) && FoundAlike(m, o, k)
    ensures FoundAlike(o, m, k)
  {
    hide Equals, Ok, MapGet;
    if MapGet(m, k).Some? {
      FoundIsOk(m, k);
      FoundIsOk(o, k);
      EqualityIsAnEquivalence(MapGet(m, k).value, MapGet(o, k).value, k);
    }
  }

  lemma AppliedAlike(m: Datum, o: Datum, k: Datum)
    requires IsMap(m) && IsMap(o) && Ok(k) && Denotes(m) == Denotes(o)
    ensures FoundAlike(m, o, k)
  {
    hide Equals, Ok, Denotes, MapGet;
    LookupIsApplication(m, k);
    LookupIsApplication(o, k);
    if MapGet(m, k).Some? {
      FoundIsOk(m, k);
      FoundIsOk(o, k);
      EqualityIsSameMeaning(MapGet(m, k).value, MapGet(o, k).value);
    }
  }

  /** What is found alike under every key is part of the other map. */
  lemma PartOf(m: Datum, o: Datum)
    requires IsMap(m) && IsMap(o) && (forall k | Ok(k) :: FoundAlike(m, o, k)) && Denotes(m).Mapped? && Denotes(o).Mapped?
    ensures forall x | x in Denotes(m).entries :: x in Denotes(o).entries && Denotes(o).entries[x] == Denotes(m).entries[x]
  {
    MapHolds(m);
    var es := Entries(m.root);
    hide Equals, Ok, Denotes, MapGet, Entries;
    forall x | x in Denotes(m).entries ensures x in Denotes(o).entries && Denotes(o).entries[x] == Denotes(m).entries[x] {
      assert KeyAmong(es, x);
      var i :| 0 <= i < |es| && Denotes(es[i].key) == x;
      assert PairOk(es[i]);
      var k := es[i].key;
      LookupIsApplication(m, k);
      LookupIsApplication(o, k);
      assert FoundAlike(m, o, k);
      FoundIsOk(m, k);
      FoundIsOk(o, k);
      EqualityIsSameMeaning(MapGet(m, k).value, MapGet(o, k).value);
    }
  }

  /** Setting and deleting are update and removal of the map denoted. */
  lemma SetDenotes(m: Datum, key: Datum, value: Datum)
    requires IsMap(m) && Ok(key) && Ok(value)
    ensures IsMap(MapSet(m, key, value)) && Denotes(m).Mapped?
    ensures Denotes(MapSet(m, key, value)) == Mapped(Denotes(m).entries[Denotes(key) := Denotes(value)])
  {
    hide Equals, Ok, Denotes, MapGet, MapSet;
    var u := MapSet(m, key, value);
    SetRefines(m, key, value, key);
    LookupIsApplication(m, key);
    LookupIsApplication(u, key);
    var f, g := Denotes(m).entries[Denotes(key) := Denotes(value)], Denotes(u).entries;
    EqualityIsAnEquivalence(key, key, key);
    forall x | x in f ensures x in g && g[x] == f[x] {
      if x != Denotes(key) {
        var k := KeyFor(m, x);
        SetRefines(m, key, value, k);
        LookupIsApplication(m, k);
        LookupIsApplication(u, k);
        EqualityIsSameMeaning(key, k);
      }
    }
    forall x | x in g ensures x in f {
      var k := KeyFor(u, x);
      SetRefines(m, key, value, k);
      LookupIsApplication(m, k);
      LookupIsApplication(u, k);
      EqualityIsSameMeaning(key, k);
    }
    assert f == g;
  }

  lemma DeleteDenotes(m: Datum, key: Datum)
    requires IsMap(m) && Ok(key)
    ensures IsMap(MapDelete(m, key).0) && Denotes(m).Mapped?
    ensures Denotes(MapDelete(m, key).0) == Mapped(Denotes(m).entries - {Denotes(key)})
  {
    hide Equals, Ok, Denotes, MapGet, MapDelete;
    var u := MapDelete(m, key).0;
    DeleteRefines(m, key, key);
    LookupIsApplication(m, key);
    LookupIsApplication(u, key);
    var f, g := Denotes(m).entries - {Denotes(key)}, Denotes(u).entries;
    EqualityIsAnEquivalence(key, key, key);
    forall x | x in f ensures x in g && g[x] == f[x] {
      var k := KeyFor(m, x);
      DeleteRefines(m, key, k);
      LookupIsApplication(m, k);
      LookupIsApplication(u, k);
      EqualityIsSameMeaning(key, k);
    }
    forall x | x in g ensures x in f {
      var k := KeyFor(u, x);
      DeleteRefines(m, key, k);
      LookupIsApplication(m, k);
      LookupIsApplication(u, k);
      EqualityIsSameMeaning(key, k);
    }
    assert f == g;
  }

  /** Every key denoted is the meaning of a key that is there. */
  lemma KeyFor(m: Datum, x: Meaning) returns (k: Datum)
    requires IsMap(m) && Denotes(m).Mapped? && x in Denotes(m).entries
    ensures Ok(k) && Denotes(k) == x
  {
    MapHolds(m);
    var es := Entries(m.root);
    hide Equals, Ok, Denotes, Entries;
    assert KeyAmong(es, x);
    var i :| 0 <= i < |es| && Denotes(es[i].key) == x;
    assert PairOk(es[i]);
    k := es[i].key;
  }

  /** Entries set one after the other, later ones over earlier ones. */
  function Updates(f: map<Meaning, Meaning>, entries: seq<Pair>): map<Meaning, Meaning>
    decreases |entries|
  {
    if |entries| == 0 then f else Updates(f, entries[..|entries| - 1])[Denotes(entries[|entries| - 1].key) := Denotes(entries[|entries| - 1].value)]
  }

  lemma OneMoreUpdate(f: map<Meaning, Meaning>, entries: seq<Pair>, i: nat)
    requires i < |entries|
    ensures Updates(f, entries[..i + 1]) == Updates(f, entries[..i])[Denotes(entries[i].key) := Denotes(entries[i].value)]
  {
    assert entries[..i + 1][..i] == entries[..i];
  }

  lemma {:induction false} UpdatesHold(entries: seq<Pair>, x: Meaning)
    ensures x in Updates(map[], entries) <==> KeyAmong(entries, x)
    ensures DistinctKeys(entries) ==> forall i | 0 <= i < |entries| :: HoldsAt(Updates(map[], entries), entries[i])
    decreases |entries|
  {
    hide Denotes;
    if |entries| > 0 {
      var init, last := entries[..|entries| - 1], entries[|entries| - 1];
      UpdatesHold(init, x);
      UpdatesHold(init, Denotes(last.key));
      if KeyAmong(init, x) {
        var i :| 0 <= i < |init| && Denotes(init[i].key) == x;
        assert entries[i] == init[i];
      }
      if KeyAmong(entries, x) && Denotes(last.key) != x {
        var i :| 0 <= i < |entries| && Denotes(entries[i].key) == x;
        assert init[i] == entries[i];
      }
      if DistinctKeys(entries) {
        forall i | 0 <= i < |entries| ensures HoldsAt(Updates(map[], entries), entries[i]) {
          if i < |init| { assert HoldsAt(Updates(map[], init), init[i]) && entries[i] == init[i]; }
        }
      }
    }
  }

  ghost predicate DistinctKeys(entries: seq<Pair>) {
    forall i, j | 0 <= i < j < |entries| :: Denotes(entries[i].key) != Denotes(entries[j].key)
  }

  lemma {:induction false} CameFrom(entries: seq<Pair>, x: Meaning) returns (i: nat)
    requires x in Updates(map[], entries)
    ensures i < |entries| && Denotes(entries[i].key) == x && Denotes(entries[i].value) == Updates(map[], entries)[x]
    decreases |entries|
  {
    hide Denotes;
    i := |entries| - 1;
    if Denotes(entries[i].key) != x { i := CameFrom(entries[..i], x); }
  }

  /** Entries with different keys make the same map in whatever order they are set. */
  lemma EntriesInAnyOrder(es: seq<Pair>, fs: seq<Pair>)
    requires multiset(es) == multiset(fs) && DistinctKeys(es)
    ensures Updates(map[], es) == Updates(map[], fs)
  {
    hide Denotes, Updates, DistinctKeys;
    var f, g := Updates(map[], es), Updates(map[], fs);
    forall x | x in g ensures x in f && f[x] == g[x] {
      var j := CameFrom(fs, x);
      assert fs[j] in multiset(es);
      var i :| 0 <= i < |es| && es[i] == fs[j];
      UpdatesHold(es, x);
      assert HoldsAt(f, es[i]);
    }
    forall x | x in f ensures x in g {
      var i := CameFrom(es, x);
      assert es[i] in multiset(fs);
      var j :| 0 <= j < |fs| && fs[j] == es[i];
      assert KeyAmong(fs, x);
      UpdatesHold(fs, x);
    }
    assert f == g;
  }

  /** So maps made from the same entries are equal, and hash alike. */
  lemma MapsInAnyOrder(es: seq<Pair>, fs: seq<Pair>, m: Datum, o: Datum)
    requires multiset(es) == multiset(fs) && DistinctKeys(es) && IsMap(m) && IsMap(o)
    requires Denotes(m) == Mapped(Updates(map[], es)) && Denotes(o) == Mapped(Updates(map[], fs))
    ensures Equals(m, o) && KeyHash(m) == KeyHash(o)
  {
    hide Denotes, Updates, DistinctKeys, Equals, Ok, KeyHash;
    EntriesInAnyOrder(es, fs);
    EqualityIsSameMeaning(m, o);
    EqualValuesHashAlike(m, o);
  }
}
