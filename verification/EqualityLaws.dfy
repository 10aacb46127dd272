/** The induction step of the equality laws, and the laws themselves. */
module EqualityLaws {
  import opened Values
  import opened HashBits
  import opened Structural
  import opened HashTrie
  import opened StructuralLaws

  // ----- injections between sequences of one length -----

  ghost predicate Injective(f: seq<nat>, n: nat) {
    && (forall i | 0 <= i < |f| :: f[i] < n)
    && (forall i, j | 0 <= i < j < |f| :: f[i] != f[j])
  }

  function Skip(f: seq<nat>, gone: nat): (r: seq<nat>)
    ensures |r| == |f| && forall i | 0 <= i < |f| :: r[i] == if f[i] > gone then f[i] - 1 else f[i]
  {
    seq(|f|, i requires 0 <= i < |f| => if f[i] > gone then f[i] - 1 else f[i])
  }

  lemma RemoveCounts<T>(s: seq<T>, i: nat)
    requires i < |s|
    ensures multiset(s) == multiset(Remove(s, i)) + multiset{s[i]}
  {
    assert s == s[..i] + [s[i]] + s[i + 1..];
  }

  /** A sequence read off another one through an injection has the same items. */
  lemma {:induction false} InjectionCounts<T>(a: seq<T>, b: seq<T>, f: seq<nat>)
    requires |a| == |b| == |f| && Injective(f, |b|) && forall i | 0 <= i < |a| :: a[i] == b[f[i]]
    ensures multiset(a) == multiset(b)
    decreases |a|
  {
    if |a| > 0 {
      var last := |a| - 1;
      var gone := f[last];
      var rest, g := Remove(b, gone), Skip(f[..last], gone);
      forall i | 0 <= i < last ensures g[i] < |rest| && a[..last][i] == rest[g[i]] {
        assert f[i] != gone;
      }
      InjectionCounts(a[..last], rest, g);
      RemoveCounts(b, gone);
      assert a == a[..last] + [a[last]];
    }
  }

  lemma InjectionOnto(f: seq<nat>)
    requires Injective(f, |f|)
    ensures forall j: nat | j < |f| :: j in f
  {
    var all: seq<nat> := seq(|f|, i => i);
    InjectionCounts(f, all, f);
    forall j: nat | j < |f| ensures j in f {
      assert all[j] == j && j in multiset(all);
      assert j in multiset(f);
    }
  }

  // ----- the unordered hash does not depend on the order -----

  lemma AddCommutes(s: Sums, x: Hash, y: Hash)
    ensures AddItem(AddItem(s, x), y) == AddItem(AddItem(s, y), x)
  {
    hide Mixed, Add32, Xor32;
    var m, k := Mixed(x), Mixed(y);
    PlusCommutes(s.sumLo, m.lo, k.lo);
    PlusCommutes(s.sumHi, m.hi, k.hi);
    XorCommutes(s.xorLo, m.lo, k.lo);
    XorCommutes(s.xorHi, m.hi, k.hi);
  }

  lemma AddIs(a: bv32, b: bv32)
    ensures Add32(a, b) == a + b
  {}

  lemma AddSwaps(a: bv32, b: bv32)
    ensures Add32(a, b) == Add32(b, a)
  {}

  lemma PlainAssociates(a: bv32, b: bv32, c: bv32)
    ensures Add32(a + b, c) == Add32(a, b + c)
  {
    assert Add32(a + b, c) == (a + b) + c;
    assert Add32(a, b + c) == a + (b + c);
  }

  lemma AddAssociates(a: bv32, b: bv32, c: bv32)
    ensures Add32(Add32(a, b), c) == Add32(a, Add32(b, c))
  {
    hide Add32;
    AddIs(a, b);
    AddIs(b, c);
    PlainAssociates(a, b, c);
  }

  lemma PlusCommutes(a: bv32, b: bv32, c: bv32)
    ensures Add32(Add32(a, b), c) == Add32(Add32(a, c), b)
  {
    hide Add32;
    AddAssociates(a, b, c);
    AddAssociates(a, c, b);
    AddSwaps(b, c);
  }

  lemma XorSwaps(a: bv32, b: bv32)
    ensures Xor32(a, b) == Xor32(b, a)
  {}

  lemma XorAssociates(a: bv32, b: bv32, c: bv32)
    ensures Xor32(Xor32(a, b), c) == Xor32(a, Xor32(b, c))
  {
    assert Xor32(Xor32(a, b), c) == (a ^ b) ^ c;
    assert Xor32(a, Xor32(b, c)) == a ^ (b ^ c);
  }

  lemma XorCommutes(a: bv32, b: bv32, c: bv32)
    ensures Xor32(Xor32(a, b), c) == Xor32(Xor32(a, c), b)
  {
    hide Xor32;
    XorAssociates(a, b, c);
    XorAssociates(a, c, b);
    XorSwaps(b, c);
  }

  /** An item may be added first. */
  lemma {:induction false} AddFirst(hashes: seq<Hash>, i: nat, s: Sums)
    requires i < |hashes|
    ensures SumItems(hashes, s) == SumItems(Remove(hashes, i), AddItem(s, hashes[i]))
    decreases i
  {
    hide AddItem;
    if i == 0 {
      assert Remove(hashes, 0) == hashes[1..];
    } else {
      AddFirst(hashes[1..], i - 1, AddItem(s, hashes[0]));
      AddCommutes(s, hashes[0], hashes[i]);
      assert Remove(hashes, i)[0] == hashes[0] && Remove(hashes, i)[1..] == Remove(hashes[1..], i - 1);
    }
  }

  lemma {:induction false} SumsAgree(a: seq<Hash>, b: seq<Hash>, s: Sums)
    requires multiset(a) == multiset(b)
    ensures SumItems(a, s) == SumItems(b, s)
    decreases |a|
  {
    hide AddItem;
    if |a| == 0 {
      assert |multiset(b)| == 0;
      assert b == [];
    } else {
      assert a[0] in multiset(a) && a[0] in multiset(b);
      var i :| 0 <= i < |b| && b[i] == a[0];
      AddFirst(b, i, s);
      RemoveCounts(b, i);
      RemoveCounts(a, 0);
      assert Remove(a, 0) == a[1..];
      assert multiset(a[1..]) == multiset(a) - multiset{a[0]} == multiset(Remove(b, i));
      SumsAgree(a[1..], Remove(b, i), AddItem(s, a[0]));
    }
  }

  /** Maps built in different orders hash alike. */
  lemma UnorderedAgrees(seed: string, a: seq<Hash>, b: seq<Hash>)
    requires multiset(a) == multiset(b)
    ensures HashUnordered(seed, a) == HashUnordered(seed, b)
  {
    hide HashOrdered, Mix32, AddItem;
    SumsAgree(a, b, Sums(0, 0, 0, 0, 0));
  }

  // ----- maps as matched entries -----

  ghost predicate RootOk(root: Tree) {
    root.Empty? || WellPlaced(root, [])
  }

  lemma MapEntries(root: Tree, n: nat)
    requires RootOk(root) && SizeTree(root) <= n
    ensures KeysWithin(Entries(root), n) && (Laws(n) ==> Apart(Entries(root)))
  {
    hide KeyHash, Laws, Equals, Ok;
    if root.Empty? {
    } else {
      EntriesPlaced(root, []);
      SmallEntries(Entries(root), [], n);
      if Laws(n) { TreeApart(root, [], n); }
    }
  }

  lemma LookupFinds(root: Tree, key: Datum, n: nat)
    requires Laws(n) && RootOk(root) && SizeTree(root) <= n && Within(key, n)
    ensures Get(root, KeyHash(key), key, 0) == Find(Entries(root), key)
  {
    hide KeyHash, Laws, Equals, Ok;
    if root.Empty? {
      EmptyFinds(key);
    } else {
      GetFinds(root, [], key, n);
    }
  }

  /** `f` sends every entry to the one with an equal key, which has an equal value. */
  ghost predicate Matched(es: seq<Pair>, fs: seq<Pair>, f: seq<nat>) {
    |f| == |es| && forall i | 0 <= i < |es| :: MatchedAt(es, fs, f, i)
  }

  ghost predicate MatchedAt(es: seq<Pair>, fs: seq<Pair>, f: seq<nat>, i: nat)
    requires |f| == |es| && i < |es|
  {
    f[i] < |fs| && Equals(fs[f[i]].key, es[i].key) && Equals(es[i].value, fs[f[i]].value)
  }

  lemma EntriesInStep(es: seq<Pair>, root: Tree)
    requires |es| > 0
    ensures EntriesIn(es, root) <==>
              var found := Get(root, KeyHash(es[0].key), es[0].key, 0);
              found.Some? && Equals(es[0].value, found.value) && EntriesIn(es[1..], root)
  {
    hide KeyHash, Equals, Get;
  }

  lemma {:induction false} MatchEntries(es: seq<Pair>, root: Tree, n: nat) returns (f: seq<nat>)
    requires Laws(n) && RootOk(root) && SizeTree(root) <= n && KeysWithin(es, n) && EntriesIn(es, root)
    ensures Matched(es, Entries(root), f)
    decreases |es|
  {
    hide Laws, KeyHash, Equals, Get, EntriesIn, RootOk, Find, Entries, SizeTree, Ok, Size;
    if |es| == 0 {
      f := [];
    } else {
      EntriesInStep(es, root);
      assert Within(es[0].key, n);
      LookupFinds(root, es[0].key, n);
      var j := FoundAt(Entries(root), es[0].key);
      forall i | 0 <= i < |es[1..]| ensures Within(es[1..][i].key, n) && Within(es[1..][i].value, n) { assert es[1..][i] == es[i + 1]; }
      var rest := MatchEntries(es[1..], root, n);
      f := [j] + rest;
      forall i | 0 <= i < |es| ensures MatchedAt(es, Entries(root), f, i) {
        if i > 0 { assert MatchedAt(es[1..], Entries(root), rest, i - 1); }
      }
    }
  }

  /** The entry `f` names is the first one with an equal key, so lookup finds it. */
  lemma {:induction false} MatchedIn(es: seq<Pair>, root: Tree, f: seq<nat>, n: nat)
    requires Laws(n) && RootOk(root) && SizeTree(root) <= n && KeysWithin(es, n) && Matched(es, Entries(root), f)
    ensures EntriesIn(es, root)
    decreases |es|
  {
    hide Laws, KeyHash, Equals, Get, EntriesIn, RootOk, Find, Entries, SizeTree, Ok, Size, Within;
    if |es| == 0 {
      NothingIn(root);
    } else {
      EntriesInStep(es, root);
      assert MatchedAt(es, Entries(root), f, 0);
      MapEntries(root, n);
      LookupFinds(root, es[0].key, n);
      FirstIsOnly(Entries(root), es[0].key, f[0], n);
      FindFirst(Entries(root), es[0].key, f[0]);
      forall i | 0 <= i < |es[1..]| ensures Within(es[1..][i].key, n) && Within(es[1..][i].value, n) && MatchedAt(es[1..], Entries(root), f[1..], i) {
        assert es[1..][i] == es[i + 1] && MatchedAt(es, Entries(root), f, i + 1);
      }
      MatchedIn(es[1..], root, f[1..], n);
    }
  }

  lemma NothingIn(root: Tree)
    ensures EntriesIn([], root)
  {}

  lemma FirstIsOnly(fs: seq<Pair>, key: Datum, i: nat, n: nat)
    requires Laws(n) && KeysWithin(fs, n) && Apart(fs) && Within(key, n) && i < |fs| && Equals(fs[i].key, key)
    ensures forall j | 0 <= j < |fs| && j != i :: !Equals(fs[j].key, key)
  {
    hide Laws, Equals, Within;
    forall j | 0 <= j < |fs| && j != i ensures !Equals(fs[j].key, key) {
      UseSymmetric(n, fs[i].key, key);
      if Equals(fs[j].key, key) { UseTransitive(n, fs[j].key, key, fs[i].key); }
    }
  }

  lemma MatchingIsInjective(es: seq<Pair>, fs: seq<Pair>, f: seq<nat>, n: nat)
    requires Laws(n) && KeysWithin(es, n) && KeysWithin(fs, n) && Apart(es) && Matched(es, fs, f)
    ensures Injective(f, |fs|)
  {
    hide Laws, Equals, Within;
    forall i | 0 <= i < |f| ensures f[i] < |fs| { assert MatchedAt(es, fs, f, i); }
    forall i, j | 0 <= i < j < |f| ensures f[i] != f[j] {
      assert MatchedAt(es, fs, f, i) && MatchedAt(es, fs, f, j);
      if f[i] == f[j] {
        UseSymmetric(n, fs[f[i]].key, es[i].key);
        UseTransitive(n, es[i].key, fs[f[i]].key, es[j].key);
      }
    }
  }

  // ----- items and members, one by one -----

  lemma {:induction false} EqualsEach(xs: seq<Datum>, ys: seq<Datum>)
    requires |xs| == |ys|
    ensures EqualsAll(xs, ys) <==> forall i | 0 <= i < |xs| :: Equals(xs[i], ys[i])
    decreases |xs|
  {
    hide Equals;
    if |xs| > 0 {
      EqualsEach(xs[1..], ys[1..]);
      assert (forall i | 0 <= i < |xs| :: Equals(xs[i], ys[i])) <==>
             Equals(xs[0], ys[0]) && forall i | 0 <= i < |xs[1..]| :: Equals(xs[1..][i], ys[1..][i])
      by {
        forall i | 0 < i < |xs| ensures Equals(xs[i], ys[i]) == Equals(xs[1..][i - 1], ys[1..][i - 1]) {}
      }
    }
  }

  ghost predicate MemberEquals(x: Member, y: Member) {
    x.name == y.name && Equals(x.value, y.value)
  }

  lemma {:induction false} EqualsEachMember(xs: seq<Member>, ys: seq<Member>)
    requires |xs| == |ys|
    ensures EqualsMembers(xs, ys) <==> forall i | 0 <= i < |xs| :: MemberEquals(xs[i], ys[i])
    decreases |xs|
  {
    hide Equals;
    if |xs| > 0 {
      EqualsEachMember(xs[1..], ys[1..]);
      assert (forall i | 0 <= i < |xs| :: MemberEquals(xs[i], ys[i])) <==>
             MemberEquals(xs[0], ys[0]) && forall i | 0 <= i < |xs[1..]| :: MemberEquals(xs[1..][i], ys[1..][i])
      by {
        forall i | 0 < i < |xs| ensures MemberEquals(xs[i], ys[i]) == MemberEquals(xs[1..][i - 1], ys[1..][i - 1]) {}
      }
    }
  }

  lemma {:induction false} HashesEach(items: seq<Datum>)
    ensures forall i | 0 <= i < |items| :: HashesOf(items)[i] == HashOf(items[i])
    decreases |items|
  {
    hide HashOf;
    if |items| > 0 { HashesEach(items[1..]); }
  }

  function MemberHash(m: Member): Hash {
    HashOrdered("field", [HashString(m.name), HashOf(m.value)])
  }

  lemma {:induction false} MemberHashesEach(members: seq<Member>)
    ensures forall i | 0 <= i < |members| :: MemberHashes(members)[i] == MemberHash(members[i])
    decreases |members|
  {
    hide HashOf, HashOrdered, HashString;
    if |members| > 0 { MemberHashesEach(members[1..]); }
  }

  lemma {:induction false} EntryHashesEach(entries: seq<Pair>)
    ensures forall i | 0 <= i < |entries| :: EntryHashes(entries)[i] == EntryHash(HashOf(entries[i].key), HashOf(entries[i].value))
    decreases |entries|
  {
    hide HashOf, EntryHash;
    if |entries| > 0 { EntryHashesEach(entries[1..]); }
  }

  lemma ItemsWithin(items: seq<Datum>, n: nat)
    requires SizeAll(items) < n && forall i | 0 <= i < |items| :: Ok(items[i])
    ensures forall i | 0 <= i < |items| :: Within(items[i], n)
  {
    hide Ok, Size;
    forall i | 0 <= i < |items| ensures Within(items[i], n) { SizeOfItem(items, i); }
  }

  lemma MembersWithin(members: seq<Member>, n: nat)
    requires SizeMembers(members) < n && forall i | 0 <= i < |members| :: Ok(members[i].value)
    ensures forall i | 0 <= i < |members| :: Within(members[i].value, n)
  {
    hide Ok, Size;
    forall i | 0 <= i < |members| ensures Within(members[i].value, n) { SizeOfMember(members, i); }
  }

  // ----- what equality says of each kind -----

  lemma SameKind(a: Datum, b: Datum)
    requires Equals(a, b)
    ensures a.MapBox? <==> b.MapBox?
    ensures a.ListBox? <==> b.ListBox?
    ensures a.TupleBox? <==> b.TupleBox?
    ensures a.Nominal? <==> b.Nominal?
    ensures a.MapBox? ==> a.size == b.size && EntriesIn(Entries(a.root), b.root)
    ensures a.ListBox? || a.TupleBox? ==> |a.items| == |b.items| && EqualsAll(a.items, b.items)
    ensures a.Nominal? ==> a.tag == b.tag && a.identity == b.identity && |a.members| == |b.members| && EqualsMembers(a.members, b.members)
  {}

  lemma MapParts(a: Datum, n: nat)
    requires a.MapBox? && Ok(a) && Size(a) <= n
    ensures RootOk(a.root) && a.size == |Entries(a.root)| && SizeTree(a.root) < n
  {}

  predicate Scalar(d: Datum) {
    d.Void? || d.IntBox? || d.UintBox? || d.Payload?
  }

  // ----- one size more -----

  lemma ReflexiveStep(n: nat, a: Datum)
    requires Laws(n) && Ok(a) && Size(a) <= n
    ensures Equals(a, a)
  {
    hide Laws, EqualsAll, EqualsMembers, EntriesIn, Entries, KeyHash;
    match a
    case ListBox(items) =>
      ItemsWithin(items, n);
      EqualsEach(items, items);
      forall i | 0 <= i < |items| ensures Equals(items[i], items[i]) { UseReflexive(n, items[i]); }
    case TupleBox(items) =>
      ItemsWithin(items, n);
      EqualsEach(items, items);
      forall i | 0 <= i < |items| ensures Equals(items[i], items[i]) { UseReflexive(n, items[i]); }
    case Nominal(_, _, members) =>
      MembersWithin(members, n);
      EqualsEachMember(members, members);
      forall i | 0 <= i < |members| ensures MemberEquals(members[i], members[i]) { UseReflexive(n, members[i].value); }
    case MapBox(root, _) =>
      MapParts(a, n);
      MapReflexive(n, root);
    case _ =>
  }

  lemma MapReflexive(n: nat, root: Tree)
    requires Laws(n) && RootOk(root) && SizeTree(root) <= n
    ensures EntriesIn(Entries(root), root)
  {
    hide Laws, Equals, RootOk, Entries, EntriesIn, Within, SizeTree;
    var es := Entries(root);
    var f: seq<nat> := seq(|es|, i => i);
    MapEntries(root, n);
    forall i | 0 <= i < |es| ensures MatchedAt(es, es, f, i) {
      UseReflexive(n, es[i].key);
      UseReflexive(n, es[i].value);
    }
    MatchedIn(es, root, f, n);
  }

  lemma SymmetricStep(n: nat, a: Datum, b: Datum)
    requires Laws(n) && Ok(a) && Size(a) <= n && Ok(b) && Size(b) <= n && Equals(a, b)
    ensures Equals(b, a)
  {
    hide Laws, EqualsAll, EqualsMembers, EntriesIn, Entries, KeyHash;
    SameKind(a, b);
    if a.ListBox? || a.TupleBox? {
      ItemsWithin(a.items, n);
      ItemsWithin(b.items, n);
      EqualsEach(a.items, b.items);
      EqualsEach(b.items, a.items);
      forall i | 0 <= i < |a.items| ensures Equals(b.items[i], a.items[i]) { UseSymmetric(n, a.items[i], b.items[i]); }
    } else if a.Nominal? {
      MembersWithin(a.members, n);
      MembersWithin(b.members, n);
      EqualsEachMember(a.members, b.members);
      EqualsEachMember(b.members, a.members);
      forall i | 0 <= i < |a.members| ensures MemberEquals(b.members[i], a.members[i]) {
        assert MemberEquals(a.members[i], b.members[i]);
        UseSymmetric(n, a.members[i].value, b.members[i].value);
      }
    } else if a.MapBox? {
      MapParts(a, n);
      MapParts(b, n);
      MapSymmetric(n, a.root, b.root);
    }
  }

  lemma MapSymmetric(n: nat, r: Tree, s: Tree)
    requires Laws(n) && RootOk(r) && RootOk(s) && SizeTree(r) <= n && SizeTree(s) <= n
    requires |Entries(r)| == |Entries(s)| && EntriesIn(Entries(r), s)
    ensures EntriesIn(Entries(s), r)
  {
    hide Laws, Equals, RootOk, Entries, EntriesIn, Within, SizeTree;
    var es, fs := Entries(r), Entries(s);
    MapEntries(r, n);
    MapEntries(s, n);
    var f := MatchEntries(es, s, n);
    MatchingIsInjective(es, fs, f, n);
    InjectionOnto(f);
    var g := Inverse(f);
    forall j | 0 <= j < |fs| ensures MatchedAt(fs, es, g, j) {
      var i := g[j];
      assert MatchedAt(es, fs, f, i);
      UseSymmetric(n, fs[j].key, es[i].key);
      UseSymmetric(n, es[i].value, fs[j].value);
    }
    MatchedIn(fs, r, g, n);
  }

  function PositionOf(f: seq<nat>, j: nat): (i: nat)
    requires j in f
    ensures i < |f| && f[i] == j
    decreases |f|
  {
    if f[0] == j then 0 else 1 + PositionOf(f[1..], j)
  }

  function Inverse(f: seq<nat>): (g: seq<nat>)
    requires forall j: nat | j < |f| :: j in f
    ensures |g| == |f| && forall j | 0 <= j < |g| :: g[j] < |f| && f[g[j]] == j
  {
    seq(|f|, j requires 0 <= j < |f| => PositionOf(f, j))
  }

  lemma TransitiveStep(n: nat, a: Datum, b: Datum, c: Datum)
    requires Laws(n) && Ok(a) && Size(a) <= n && Ok(b) && Size(b) <= n && Ok(c) && Size(c) <= n
    requires Equals(a, b) && Equals(b, c)
    ensures Equals(a, c)
  {
    hide Laws, EqualsAll, EqualsMembers, EntriesIn, Entries, KeyHash;
    SameKind(a, b);
    SameKind(b, c);
    if a.ListBox? || a.TupleBox? {
      ItemsWithin(a.items, n);
      ItemsWithin(b.items, n);
      ItemsWithin(c.items, n);
      EqualsEach(a.items, b.items);
      EqualsEach(b.items, c.items);
      EqualsEach(a.items, c.items);
      forall i | 0 <= i < |a.items| ensures Equals(a.items[i], c.items[i]) { UseTransitive(n, a.items[i], b.items[i], c.items[i]); }
    } else if a.Nominal? {
      MembersTransitive(n, a.members, b.members, c.members);
    } else if a.MapBox? {
      MapParts(a, n);
      MapParts(b, n);
      MapParts(c, n);
      MapTransitive(n, a.root, b.root, c.root);
    }
  }

  lemma MembersTransitive(n: nat, xs: seq<Member>, ys: seq<Member>, zs: seq<Member>)
    requires Laws(n) && |xs| == |ys| == |zs| && EqualsMembers(xs, ys) && EqualsMembers(ys, zs)
    requires SizeMembers(xs) < n && SizeMembers(ys) < n && SizeMembers(zs) < n
    requires forall i | 0 <= i < |xs| :: Ok(xs[i].value) && Ok(ys[i].value) && Ok(zs[i].value)
    ensures EqualsMembers(xs, zs)
  {
    hide Laws, Equals, Ok, EqualsMembers;
    MembersWithin(xs, n);
    MembersWithin(ys, n);
    MembersWithin(zs, n);
    EqualsEachMember(xs, ys);
    EqualsEachMember(ys, zs);
    EqualsEachMember(xs, zs);
    forall i | 0 <= i < |xs| ensures MemberEquals(xs[i], zs[i]) {
      assert MemberEquals(xs[i], ys[i]) && MemberEquals(ys[i], zs[i]);
      UseTransitive(n, xs[i].value, ys[i].value, zs[i].value);
    }
  }

  lemma MapTransitive(n: nat, r: Tree, s: Tree, t: Tree)
    requires Laws(n) && RootOk(r) && RootOk(s) && RootOk(t) && SizeTree(r) <= n && SizeTree(s) <= n && SizeTree(t) <= n
    requires EntriesIn(Entries(r), s) && EntriesIn(Entries(s), t)
    ensures EntriesIn(Entries(r), t)
  {
    hide Laws, Equals, RootOk, Entries, EntriesIn, Within, SizeTree;
    var es, fs, gs := Entries(r), Entries(s), Entries(t);
    MapEntries(r, n);
    MapEntries(s, n);
    MapEntries(t, n);
    var f := MatchEntries(es, s, n);
    var g := MatchEntries(fs, t, n);
    forall i | 0 <= i < |f| ensures f[i] < |g| { assert MatchedAt(es, fs, f, i); }
    var h: seq<nat> := seq(|es|, i requires 0 <= i < |es| => g[f[i]]);
    forall i | 0 <= i < |es| ensures MatchedAt(es, gs, h, i) {
      assert MatchedAt(es, fs, f, i) && MatchedAt(fs, gs, g, f[i]);
      UseTransitive(n, gs[h[i]].key, fs[f[i]].key, es[i].key);
      UseTransitive(n, es[i].value, fs[f[i]].value, gs[h[i]].value);
    }
    MatchedIn(es, t, h, n);
  }

  lemma HashStep(n: nat, a: Datum, b: Datum)
    requires Laws(n) && Ok(a) && Size(a) <= n && Ok(b) && Size(b) <= n && Equals(a, b)
    ensures HashOf(a) == HashOf(b)
  {
    hide Laws, EqualsAll, EqualsMembers, EntriesIn, Entries, KeyHash, HashOrdered, HashUnordered, HashString, HashInteger, HashesOf, MemberHashes, EntryHashes;
    SameKind(a, b);
    if a.ListBox? || a.TupleBox? {
      ItemsHash(n, a.items, b.items);
    } else if a.Nominal? {
      MembersHash(n, a.members, b.members);
    } else if a.MapBox? {
      MapParts(a, n);
      MapParts(b, n);
      MapHash(n, a.root, b.root);
    }
  }

  lemma ItemsHash(n: nat, xs: seq<Datum>, ys: seq<Datum>)
    requires Laws(n) && |xs| == |ys| && EqualsAll(xs, ys) && SizeAll(xs) < n && SizeAll(ys) < n
    requires forall i | 0 <= i < |xs| :: Ok(xs[i]) && Ok(ys[i])
    ensures HashesOf(xs) == HashesOf(ys)
  {
    hide Laws, Equals, Ok, EqualsAll, HashOf, HashesOf;
    ItemsWithin(xs, n);
    ItemsWithin(ys, n);
    EqualsEach(xs, ys);
    HashesEach(xs);
    HashesEach(ys);
    forall i | 0 <= i < |xs| ensures HashesOf(xs)[i] == HashesOf(ys)[i] { UseHash(n, xs[i], ys[i]); }
  }

  lemma MembersHash(n: nat, xs: seq<Member>, ys: seq<Member>)
    requires Laws(n) && |xs| == |ys| && EqualsMembers(xs, ys) && SizeMembers(xs) < n && SizeMembers(ys) < n
    requires forall i | 0 <= i < |xs| :: Ok(xs[i].value) && Ok(ys[i].value)
    ensures MemberHashes(xs) == MemberHashes(ys)
  {
    hide Laws, Equals, Ok, EqualsMembers, HashOf, MemberHashes, HashOrdered, HashString;
    MembersWithin(xs, n);
    MembersWithin(ys, n);
    EqualsEachMember(xs, ys);
    MemberHashesEach(xs);
    MemberHashesEach(ys);
    forall i | 0 <= i < |xs| ensures MemberHashes(xs)[i] == MemberHashes(ys)[i] {
      assert MemberEquals(xs[i], ys[i]);
      UseHash(n, xs[i].value, ys[i].value);
    }
  }

  lemma MapHash(n: nat, r: Tree, s: Tree)
    requires Laws(n) && RootOk(r) && RootOk(s) && SizeTree(r) <= n && SizeTree(s) <= n
    requires |Entries(r)| == |Entries(s)| && EntriesIn(Entries(r), s)
    ensures HashUnordered("map", EntryHashes(Entries(r))) == HashUnordered("map", EntryHashes(Entries(s)))
  {
    hide Laws, Equals, RootOk, Entries, EntriesIn, Within, SizeTree, HashUnordered, EntryHashes, HashOf, EntryHash;
    var es, fs := Entries(r), Entries(s);
    MapEntries(r, n);
    MapEntries(s, n);
    var f := MatchEntries(es, s, n);
    MatchingIsInjective(es, fs, f, n);
    EntryHashesEach(es);
    EntryHashesEach(fs);
    forall i | 0 <= i < |es| ensures EntryHashes(es)[i] == EntryHashes(fs)[f[i]] {
      assert MatchedAt(es, fs, f, i);
      UseHash(n, fs[f[i]].key, es[i].key);
      UseHash(n, es[i].value, fs[f[i]].value);
    }
    InjectionCounts(EntryHashes(es), EntryHashes(fs), f);
    UnorderedAgrees("map", EntryHashes(es), EntryHashes(fs));
  }

  // ----- the laws -----

  lemma LawsStep(n: nat)
    requires Laws(n)
    ensures Laws(n + 1)
  {
    hide Equals, Ok, Size, HashOf;
    forall a | Within(a, n + 1) ensures Equals(a, a) { ReflexiveStep(n, a); }
    forall a, b | Within(a, n + 1) && Within(b, n + 1) && Equals(a, b) ensures Equals(b, a) && HashOf(a) == HashOf(b) {
      SymmetricStep(n, a, b);
      HashStep(n, a, b);
    }
    forall a, b, c | Within(a, n + 1) && Within(b, n + 1) && Within(c, n + 1) && Equals(a, b) && Equals(b, c) ensures Equals(a, c) {
      TransitiveStep(n, a, b, c);
    }
  }

  lemma {:induction false} LawsHold(n: nat)
    ensures Laws(n)
    decreases n
  {
    hide Equals, Ok, HashOf;
    if n == 0 {
    } else {
      hide Laws;
      LawsHold(n - 1);
      LawsStep(n - 1);
    }
  }

  /** Structural equality is an equivalence on well-formed values, however deeply maps are nested in them. */
  lemma EqualityIsAnEquivalence(a: Datum, b: Datum, c: Datum)
    requires Ok(a) && Ok(b) && Ok(c)
    ensures Equals(a, a)
    ensures Equals(a, b) <==> Equals(b, a)
    ensures Equals(a, b) && Equals(b, c) ==> Equals(a, c)
  {
    hide Equals, Ok, Laws;
    var n := Size(a) + Size(b) + Size(c) + 1;
    LawsHold(n);
    UseReflexive(n, a);
    UseSymmetric(n, a, b);
    if Equals(a, b) && Equals(b, c) { UseTransitive(n, a, b, c); }
  }

  /** Equal values have equal hashes: across int and uint, and for maps built in different orders. */
  lemma EqualValuesHashAlike(a: Datum, b: Datum)
    requires Ok(a) && Ok(b) && Equals(a, b)
    ensures HashOf(a) == HashOf(b) && KeyHash(a) == KeyHash(b)
  {
    hide Equals, Ok, Laws, HashOf, KeyHash;
    var n := Size(a) + Size(b) + 1;
    LawsHold(n);
    UseHash(n, a, b);
  }
}
