/** Structural equality is an equivalence, and equal values have equal hashes, on every well-formed value. For maps both
    rest on lookup finding exactly the entry with an equal key, which in turn rests on the laws for the smaller values
    inside; so everything is proved by induction on size. */
module StructuralLaws {
  import opened Values
  import opened HashBits
  import opened Structural
  import opened HashTrie

  // ----- the laws, up to a size -----

  ghost predicate Within(d: Datum, n: nat) {
    Ok(d) && Size(d) < n
  }

  ghost predicate Reflexive(n: nat) {
    forall a | Within(a, n) :: Equals(a, a)
  }

  ghost predicate Symmetric(n: nat) {
    forall a, b | Within(a, n) && Within(b, n) && Equals(a, b) :: Equals(b, a)
  }

  ghost predicate Transitive(n: nat) {
    forall a, b, c | Within(a, n) && Within(b, n) && Within(c, n) && Equals(a, b) && Equals(b, c) :: Equals(a, c)
  }

  ghost predicate SameHash(n: nat) {
    forall a, b | Within(a, n) && Within(b, n) && Equals(a, b) :: HashOf(a) == HashOf(b)
  }

  ghost predicate Laws(n: nat) {
    Reflexive(n) && Symmetric(n) && Transitive(n) && SameHash(n)
  }

  lemma UseReflexive(n: nat, a: Datum)
    requires Laws(n) && Within(a, n)
    ensures Equals(a, a)
  {}

  lemma UseSymmetric(n: nat, a: Datum, b: Datum)
    requires Laws(n) && Within(a, n) && Within(b, n)
    ensures Equals(a, b) <==> Equals(b, a)
  {}

  lemma UseTransitive(n: nat, a: Datum, b: Datum, c: Datum)
    requires Laws(n) && Within(a, n) && Within(b, n) && Within(c, n) && Equals(a, b) && Equals(b, c)
    ensures Equals(a, c)
  {}

  lemma UseHash(n: nat, a: Datum, b: Datum)
    requires Laws(n) && Within(a, n) && Within(b, n) && Equals(a, b)
    ensures HashOf(a) == HashOf(b) && KeyHash(a) == KeyHash(b)
  {
    hide Equals, HashOf, Ok, PackHash, FoldHash;
  }

  // ----- set bits in order -----

  function SetBits(bitmap: bv32, n: nat): (r: seq<nat>)
    ensures |r| == CountBelow(bitmap, n)
    ensures forall j | 0 <= j < |r| :: r[j] < n && BitAt(bitmap, r[j])
    ensures forall j, k | 0 <= j < k < |r| :: r[j] < r[k]
    decreases n
  {
    if n == 0 then [] else SetBits(bitmap, n - 1) + if BitAt(bitmap, n - 1) then [n - 1] else []
  }

  lemma {:induction false} SetBitAt(bitmap: bv32, i: nat, n: nat)
    requires i < n && BitAt(bitmap, i)
    ensures CountBelow(bitmap, i) < CountBelow(bitmap, n) && SetBits(bitmap, n)[CountBelow(bitmap, i)] == i
    decreases n
  {
    hide BitAt;
    if i < n - 1 { SetBitAt(bitmap, i, n - 1); }
  }

  /** A bitmap node is well placed exactly when each child is, under its own bit. */
  lemma PlacedByBits(bitmap: bv32, children: seq<Tree>, path: seq<nat>)
    ensures WellPlaced(Bitmap(bitmap, children), path) <==>
              && |path| < LEVELS && |children| == CountBelow(bitmap, 32) > 0
              && forall j | 0 <= j < |children| :: WellPlaced(children[j], path + [SetBits(bitmap, 32)[j]])
  {
    hide BitAt, SetBits, CountBelow;
    var bits := SetBits(bitmap, 32);
    if |path| < LEVELS && |children| == CountBelow(bitmap, 32) > 0 {
      if WellPlaced(Bitmap(bitmap, children), path) {
        forall j | 0 <= j < |children| ensures WellPlaced(children[j], path + [bits[j]]) {
          var i := BitOfChild(bitmap, j, 32);
          SetBitAt(bitmap, i, 32);
        }
      }
      if forall j | 0 <= j < |children| :: WellPlaced(children[j], path + [bits[j]]) {
        forall i: nat | i < 32 && BitAt(bitmap, i)
          ensures CountBelow(bitmap, i) < |children| && WellPlaced(children[CountBelow(bitmap, i)], path + [i])
        {
          SetBitAt(bitmap, i, 32);
        }
      }
    }
  }

  // ----- entries of a list of trees -----

  lemma EntriesHead(t: Tree, rest: seq<Tree>)
    ensures EntriesAll([t] + rest) == Entries(t) + EntriesAll(rest)
  {
    hide Entries;
    assert ([t] + rest)[1..] == rest;
  }

  lemma Regroup<T>(a: seq<T>, b: seq<T>, c: seq<T>)
    ensures a + b + c == a + (b + c)
  {}

  lemma {:induction false} EntriesJoin(a: seq<Tree>, b: seq<Tree>)
    ensures EntriesAll(a + b) == EntriesAll(a) + EntriesAll(b)
    decreases |a|
  {
    if |a| == 0 {
      assert a + b == b;
      assert EntriesAll(a) == [];
    } else {
      hide Entries, EntriesAll;
      EntriesJoin(a[1..], b);
      EntriesHead(a[0], a[1..]);
      EntriesHead(a[0], a[1..] + b);
      Regroup([a[0]], a[1..], b);
      Regroup(Entries(a[0]), EntriesAll(a[1..]), EntriesAll(b));
      assert [a[0]] + a[1..] == a;
    }
  }

  lemma EntriesOfOne(t: Tree)
    ensures EntriesAll([t]) == Entries(t)
  {
    assert [t][1..] == [];
    assert EntriesAll([t]) == Entries(t) + EntriesAll([]);
  }

  lemma EntriesSplit(trees: seq<Tree>, j: nat)
    requires j < |trees|
    ensures EntriesAll(trees) == EntriesAll(trees[..j]) + Entries(trees[j]) + EntriesAll(trees[j + 1..])
  {
    hide Entries, EntriesAll;
    var front, back := trees[..j], trees[j + 1..];
    EntriesJoin(front, [trees[j]] + back);
    EntriesHead(trees[j], back);
    assert trees == front + ([trees[j]] + back);
    Regroup(EntriesAll(front), Entries(trees[j]), EntriesAll(back));
  }

  // ----- the entries of a well-placed tree -----

  ghost predicate EntryOn(p: Pair, path: seq<nat>) {
    PairOk(p) && OnPath(KeyHash(p.key), path)
  }

  ghost predicate EntriesOn(es: seq<Pair>, path: seq<nat>) {
    forall i | 0 <= i < |es| :: EntryOn(es[i], path)
  }

  lemma {:induction false} EntriesPlaced(t: Tree, path: seq<nat>)
    requires WellPlaced(t, path)
    ensures EntriesOn(Entries(t), path) && |Entries(t)| > 0
    decreases t, 0
  {
    hide KeyHash;
    match t
    case Leaf(_, _, _) =>
    case Collision(_, _) =>
    case Bitmap(bitmap, children) =>
      PlacedByBits(bitmap, children, path);
      AllEntriesPlaced(children, path, SetBits(bitmap, 32));
  }

  lemma {:induction false} AllEntriesPlaced(trees: seq<Tree>, path: seq<nat>, bits: seq<nat>)
    requires |bits| == |trees| && forall j | 0 <= j < |trees| :: WellPlaced(trees[j], path + [bits[j]])
    ensures EntriesOn(EntriesAll(trees), path) && (|trees| > 0 ==> |EntriesAll(trees)| > 0)
    decreases trees, 1
  {
    hide KeyHash, WellPlaced, OnPath;
    if |trees| > 0 {
      EntriesPlaced(trees[0], path + [bits[0]]);
      forall j | 0 <= j < |trees[1..]| ensures WellPlaced(trees[1..][j], path + [bits[1..][j]]) {
        assert trees[1..][j] == trees[j + 1];
      }
      AllEntriesPlaced(trees[1..], path, bits[1..]);
      ShorterPath(Entries(trees[0]), path, bits[0]);
      var a, b := Entries(trees[0]), EntriesAll(trees[1..]);
      forall i | 0 <= i < |a + b| ensures EntryOn((a + b)[i], path) {
        if i >= |a| { assert (a + b)[i] == b[i - |a|]; }
      }
    }
  }

  lemma ShorterPath(es: seq<Pair>, path: seq<nat>, i: nat)
    requires EntriesOn(es, path + [i])
    ensures EntriesOn(es, path)
  {
    hide KeyHash, PairOk;
    forall k | 0 <= k < |es| ensures EntryOn(es[k], path) {
      assert EntryOn(es[k], path + [i]);
      OnShorter(KeyHash(es[k].key), path, i);
    }
  }

  lemma OnShorter(h: bv32, path: seq<nat>, i: nat)
    ensures OnPath(h, path + [i]) <==> OnPath(h, path) && Chunk(h, |path|) == i
  {
    if OnPath(h, path + [i]) {
      forall k: nat | k < |path| ensures Chunk(h, k) == path[k] {
        assert (path + [i])[k] == path[k];
      }
      assert (path + [i])[|path|] == i;
    }
  }

  // ----- finding -----

  lemma {:induction false} FindJoin(a: seq<Pair>, b: seq<Pair>, key: Datum)
    ensures Find(a + b, key) == if Find(a, key).Some? then Find(a, key) else Find(b, key)
    decreases |a|
  {
    hide Equals;
    if |a| == 0 {
      assert a + b == b;
    } else {
      FindJoin(a[1..], b, key);
      assert (a + b)[1..] == a[1..] + b;
    }
  }

  lemma {:induction false} FindNothing(es: seq<Pair>, key: Datum)
    requires forall i | 0 <= i < |es| :: !Equals(es[i].key, key)
    ensures Find(es, key).None?
    decreases |es|
  {
    hide Equals;
    if |es| > 0 {
      forall i | 0 <= i < |es[1..]| ensures !Equals(es[1..][i].key, key) { assert es[1..][i] == es[i + 1]; }
      FindNothing(es[1..], key);
    }
  }

  /** The first entry with an equal key, and nothing before it. */
  lemma {:induction false} FindFirst(es: seq<Pair>, key: Datum, i: nat)
    requires i < |es| && Equals(es[i].key, key) && forall j | 0 <= j < i :: !Equals(es[j].key, key)
    ensures Find(es, key) == Some(es[i].value)
    decreases i
  {
    hide Equals;
    if i > 0 {
      assert es[1..][i - 1] == es[i];
      forall j | 0 <= j < i - 1 ensures !Equals(es[1..][j].key, key) { assert es[1..][j] == es[j + 1]; }
      FindFirst(es[1..], key, i - 1);
    }
  }

  lemma {:induction false} FoundAt(es: seq<Pair>, key: Datum) returns (i: nat)
    requires Find(es, key).Some?
    ensures i < |es| && Equals(es[i].key, key) && Find(es, key) == Some(es[i].value)
    decreases |es|
  {
    hide Equals;
    if Equals(es[0].key, key) {
      i := 0;
    } else {
      var j := FoundAt(es[1..], key);
      i := j + 1;
    }
  }

  /** Keys all smaller than `n`. */
  ghost predicate KeysWithin(es: seq<Pair>, n: nat) {
    forall i | 0 <= i < |es| :: Within(es[i].key, n) && Within(es[i].value, n)
  }

  lemma SmallEntries(es: seq<Pair>, path: seq<nat>, n: nat)
    requires EntriesOn(es, path) && SizePairs(es) <= n
    ensures KeysWithin(es, n)
  {
    hide KeyHash, OnPath, Ok, Size;
    forall i | 0 <= i < |es| ensures Within(es[i].key, n) && Within(es[i].value, n) {
      assert EntryOn(es[i], path);
      SizeOfPair(es, i);
    }
  }

  /** An entry under another chunk is not the one sought. */
  lemma ElsewhereNothing(es: seq<Pair>, key: Datum, path: seq<nat>, i: nat, n: nat)
    requires Laws(n) && EntriesOn(es, path + [i]) && KeysWithin(es, n) && Within(key, n)
    requires Chunk(KeyHash(key), |path|) != i
    ensures Find(es, key).None?
  {
    hide Laws, Equals, KeyHash, Ok, Size, OnPath;
    forall k | 0 <= k < |es| ensures !Equals(es[k].key, key) {
      assert EntryOn(es[k], path + [i]);
      OnShorter(KeyHash(es[k].key), path, i);
      if Equals(es[k].key, key) { UseHash(n, es[k].key, key); }
    }
    FindNothing(es, key);
  }

  lemma {:induction false} AllElsewhere(trees: seq<Tree>, key: Datum, path: seq<nat>, bits: seq<nat>, n: nat)
    requires Laws(n) && Within(key, n) && SizeTrees(trees) <= n && |bits| == |trees|
    requires forall j | 0 <= j < |trees| :: WellPlaced(trees[j], path + [bits[j]]) && Chunk(KeyHash(key), |path|) != bits[j]
    ensures Find(EntriesAll(trees), key).None?
    decreases |trees|
  {
    hide Laws, Equals, KeyHash, Ok, Size, WellPlaced, Find, EntriesOn;
    if |trees| == 0 {
      EmptyFinds(key);
    } else {
      EntriesPlaced(trees[0], path + [bits[0]]);
      SmallEntries(Entries(trees[0]), path + [bits[0]], n);
      ElsewhereNothing(Entries(trees[0]), key, path, bits[0], n);
      forall j | 0 <= j < |trees[1..]|
        ensures WellPlaced(trees[1..][j], path + [bits[1..][j]]) && Chunk(KeyHash(key), |path|) != bits[1..][j]
      {
        assert trees[1..][j] == trees[j + 1] && bits[1..][j] == bits[j + 1];
      }
      AllElsewhere(trees[1..], key, path, bits[1..], n);
      FindJoin(Entries(trees[0]), EntriesAll(trees[1..]), key);
    }
  }

  lemma EmptyFinds(key: Datum)
    ensures Find([], key).None?
  {}

  /** Finding among all children is finding in the one child the hash leads to. */
  lemma FindInChild(trees: seq<Tree>, key: Datum, path: seq<nat>, bits: seq<nat>, j: nat, n: nat)
    requires Laws(n) && Within(key, n) && SizeTrees(trees) <= n && |bits| == |trees| && j < |trees|
    requires forall k | 0 <= k < |trees| :: WellPlaced(trees[k], path + [bits[k]])
    requires forall k, l | 0 <= k < l < |bits| :: bits[k] < bits[l]
    requires Chunk(KeyHash(key), |path|) == bits[j]
    ensures Find(EntriesAll(trees), key) == Find(Entries(trees[j]), key)
    ensures Find(EntriesAll(trees[..j]), key).None? && Find(EntriesAll(trees[j + 1..]), key).None?
  {
    hide Laws, Equals, KeyHash, Ok, Size, WellPlaced, Find, EntriesOn, Entries, EntriesAll;
    EntriesSplit(trees, j);
    SizesSplit(trees, j);
    AllElsewhere(trees[..j], key, path, bits[..j], n);
    AllElsewhere(trees[j + 1..], key, path, bits[j + 1..], n);
    FindJoin(EntriesAll(trees[..j]) + Entries(trees[j]), EntriesAll(trees[j + 1..]), key);
    FindJoin(EntriesAll(trees[..j]), Entries(trees[j]), key);
  }

  lemma {:induction false} SizesJoin(a: seq<Tree>, b: seq<Tree>)
    ensures SizeTrees(a + b) == SizeTrees(a) + SizeTrees(b)
    decreases |a|
  {
    if |a| == 0 {
      assert a + b == b;
    } else {
      SizesJoin(a[1..], b);
      assert (a + b)[1..] == a[1..] + b;
    }
  }

  lemma SizesSplit(trees: seq<Tree>, j: nat)
    requires j < |trees|
    ensures SizeTrees(trees) == SizeTrees(trees[..j]) + SizeTree(trees[j]) + SizeTrees(trees[j + 1..])
  {
    SizesJoin(trees[..j], trees[j..]);
    assert trees == trees[..j] + trees[j..] && trees[j..][1..] == trees[j + 1..];
  }

  // ----- lookup is finding -----

  lemma GetAtBitmap(t: Tree, hash: bv32, key: Datum, level: nat)
    requires t.Bitmap?
    ensures var i := Chunk(hash, level); var j := CountBelow(t.bitmap, i);
            Get(t, hash, key, level) == if BitAt(t.bitmap, i) && j < |t.children| then Get(t.children[j], hash, key, level + 1) else None
  {
    hide Popcount, OneBit, Meet, Mask, Chunk, CountBelow, BitAt;
    BitTest(t.bitmap, Chunk(hash, level));
    RankCounts(t.bitmap, Chunk(hash, level));
  }

  lemma BitmapParts(t: Tree)
    requires t.Bitmap?
    ensures SizeTree(t) == 1 + SizeTrees(t.children) && Entries(t) == EntriesAll(t.children)
  {}

  /** Level by level, the trie finds what a search through all entries would find. */
  lemma {:induction false} GetFinds(t: Tree, path: seq<nat>, key: Datum, n: nat)
    requires Laws(n) && WellPlaced(t, path) && SizeTree(t) <= n && Within(key, n) && OnPath(KeyHash(key), path)
    ensures Get(t, KeyHash(key), key, |path|) == Find(Entries(t), key)
    decreases t
  {
    hide Laws, KeyHash, Ok, Get, WellPlaced, Find, SizeTree, Entries, BitAt, CountBelow, OnPath, Within;
    match t
    case Empty => EmptyMisplaced(path);
    case Leaf(h, k, v) => LeafFinds(t, path, key, n);
    case Collision(h, entries) => CollisionFinds(t, path, key, n);
    case Bitmap(bitmap, children) =>
      PlacedByBits(bitmap, children, path);
      BitmapParts(t);
      GetAtBitmap(t, KeyHash(key), key, |path|);
      var i := Chunk(KeyHash(key), |path|);
      if BitAt(bitmap, i) {
        SetBitAt(bitmap, i, 32);
        var j := CountBelow(bitmap, i);
        SizeOfTree(children, j);
        OnShorter(KeyHash(key), path, i);
        GetFinds(children[j], path + [i], key, n);
        BitmapFinds(t, path, key, j, n);
      } else {
        BitmapMisses(t, path, key, n);
      }
  }

  lemma BitmapFinds(t: Tree, path: seq<nat>, key: Datum, j: nat, n: nat)
    requires t.Bitmap? && Laws(n) && WellPlaced(t, path) && SizeTree(t) <= n && Within(key, n)
    requires j < |t.children| && j < CountBelow(t.bitmap, 32) && SetBits(t.bitmap, 32)[j] == Chunk(KeyHash(key), |path|)
    ensures Find(Entries(t), key) == Find(Entries(t.children[j]), key)
  {
    hide Laws, KeyHash, Ok, WellPlaced, Find, SizeTree, Entries, BitAt, CountBelow, OnPath, Within, EntriesAll;
    PlacedByBits(t.bitmap, t.children, path);
    BitmapParts(t);
    FindInChild(t.children, key, path, SetBits(t.bitmap, 32), j, n);
  }

  lemma BitmapMisses(t: Tree, path: seq<nat>, key: Datum, n: nat)
    requires t.Bitmap? && Laws(n) && WellPlaced(t, path) && SizeTree(t) <= n && Within(key, n)
    requires !BitAt(t.bitmap, Chunk(KeyHash(key), |path|))
    ensures Find(Entries(t), key).None?
  {
    hide Laws, KeyHash, Ok, WellPlaced, Find, SizeTree, Entries, BitAt, CountBelow, OnPath, Within, EntriesAll;
    PlacedByBits(t.bitmap, t.children, path);
    BitmapParts(t);
    AllElsewhere(t.children, key, path, SetBits(t.bitmap, 32), n);
  }

  lemma EmptyMisplaced(path: seq<nat>)
    ensures !WellPlaced(Empty, path)
  {}

  lemma LeafFinds(t: Tree, path: seq<nat>, key: Datum, n: nat)
    requires t.Leaf? && Laws(n) && WellPlaced(t, path) && SizeTree(t) <= n && Within(key, n)
    ensures Get(t, KeyHash(key), key, |path|) == Find(Entries(t), key)
  {
    hide Laws, KeyHash, Equals, Ok;
    EmptyFinds(key);
    assert [Pair(t.key, t.value)][1..] == [];
    if Equals(t.key, key) { UseHash(n, t.key, key); }
  }

  lemma CollisionFinds(t: Tree, path: seq<nat>, key: Datum, n: nat)
    requires t.Collision? && Laws(n) && WellPlaced(t, path) && SizeTree(t) <= n && Within(key, n)
    ensures Get(t, KeyHash(key), key, |path|) == Find(Entries(t), key)
  {
    hide Laws, KeyHash, Equals, Ok, Find, SizePairs, Size;
    if t.hash != KeyHash(key) {
      forall i | 0 <= i < |t.entries| ensures !Equals(t.entries[i].key, key) {
        SizeOfPair(t.entries, i);
        assert PairOk(t.entries[i]) && KeyHash(t.entries[i].key) == t.hash;
        CollisionSize(t);
        if Equals(t.entries[i].key, key) { UseHash(n, t.entries[i].key, key); }
      }
      FindNothing(t.entries, key);
    }
  }

  lemma CollisionSize(t: Tree)
    requires t.Collision?
    ensures SizeTree(t) == 1 + SizePairs(t.entries) && Entries(t) == t.entries
  {}

  // ----- the entries of a tree are pairwise unequal -----

  lemma {:induction false} TreeApart(t: Tree, path: seq<nat>, n: nat)
    requires Laws(n) && WellPlaced(t, path) && SizeTree(t) <= n
    ensures Apart(Entries(t))
    decreases t, 0
  {
    hide Laws, KeyHash, Ok, Equals;
    match t
    case Leaf(_, _, _) =>
    case Collision(_, _) =>
    case Bitmap(bitmap, children) =>
      PlacedByBits(bitmap, children, path);
      AllApart(children, path, SetBits(bitmap, 32), n);
  }

  lemma {:induction false} AllApart(trees: seq<Tree>, path: seq<nat>, bits: seq<nat>, n: nat)
    requires Laws(n) && SizeTrees(trees) <= n && |bits| == |trees|
    requires forall j | 0 <= j < |trees| :: WellPlaced(trees[j], path + [bits[j]])
    requires forall k, l | 0 <= k < l < |bits| :: bits[k] < bits[l]
    ensures Apart(EntriesAll(trees))
    decreases trees, 1
  {
    hide Laws, KeyHash, Ok, Equals, WellPlaced, OnPath, Entries;
    if |trees| > 0 {
      var rest, later := trees[1..], bits[1..];
      forall j | 0 <= j < |rest| ensures WellPlaced(rest[j], path + [later[j]]) { assert rest[j] == trees[j + 1]; }
      TreeApart(trees[0], path + [bits[0]], n);
      AllApart(rest, path, later, n);
      var a, b := Entries(trees[0]), EntriesAll(rest);
      EntriesPlaced(trees[0], path + [bits[0]]);
      SmallEntries(a, path + [bits[0]], n);
      forall i, j | 0 <= i < |a| && 0 <= j < |b| ensures !Equals(a[i].key, b[j].key) && !Equals(b[j].key, a[i].key) {
        ApartFromRest(trees, path, bits, n, i, j);
      }
      JoinApart(a, b);
    }
  }

  lemma JoinApart(a: seq<Pair>, b: seq<Pair>)
    requires Apart(a) && Apart(b)
    requires forall i, j | 0 <= i < |a| && 0 <= j < |b| :: !Equals(a[i].key, b[j].key) && !Equals(b[j].key, a[i].key)
    ensures Apart(a + b)
  {
    hide Equals;
    var c := a + b;
    forall i, j | 0 <= i < |c| && 0 <= j < |c| && i != j ensures !Equals(c[i].key, c[j].key) {
      if i < |a| && j < |a| {
        assert c[i] == a[i] && c[j] == a[j];
      } else if i < |a| {
        assert c[i] == a[i] && c[j] == b[j - |a|];
      } else if j < |a| {
        assert c[i] == b[i - |a|] && c[j] == a[j];
      } else {
        assert c[i] == b[i - |a|] && c[j] == b[j - |a|];
      }
    }
  }

  /** An entry of the first tree and one of a later tree differ in the chunk of their bits. */
  lemma ApartFromRest(trees: seq<Tree>, path: seq<nat>, bits: seq<nat>, n: nat, i: nat, j: nat)
    requires Laws(n) && |trees| > 0 && SizeTrees(trees) <= n && |bits| == |trees|
    requires forall k | 0 <= k < |trees| :: WellPlaced(trees[k], path + [bits[k]])
    requires forall k, l | 0 <= k < l < |bits| :: bits[k] < bits[l]
    requires i < |Entries(trees[0])| && j < |EntriesAll(trees[1..])|
    ensures var a, b := Entries(trees[0])[i], EntriesAll(trees[1..])[j]; !Equals(a.key, b.key) && !Equals(b.key, a.key)
  {
    hide Laws, KeyHash, Ok, Equals, WellPlaced, OnPath, Find, Size;
    var a := Entries(trees[0])[i];
    var rest, later := trees[1..], bits[1..];
    forall k | 0 <= k < |rest| ensures WellPlaced(rest[k], path + [later[k]]) { assert rest[k] == trees[k + 1]; }
    EntriesPlaced(trees[0], path + [bits[0]]);
    SmallEntries(Entries(trees[0]), path + [bits[0]], n);
    assert EntryOn(a, path + [bits[0]]);
    OnShorter(KeyHash(a.key), path, bits[0]);
    AllEntriesPlaced(rest, path, later);
    SmallEntries(EntriesAll(rest), path, n);
    AllElsewhere(rest, a.key, path, later, n);
    var b := EntriesAll(rest)[j];
    if Equals(b.key, a.key) { FindNothingMeans(EntriesAll(rest), a.key, j); }
    UseSymmetric(n, a.key, b.key);
  }

  lemma {:induction false} FindNothingMeans(es: seq<Pair>, key: Datum, j: nat)
    requires Find(es, key).None? && j < |es|
    ensures !Equals(es[j].key, key)
    decreases |es|
  {
    hide Equals;
    if j > 0 {
      assert es[1..][j - 1] == es[j];
      FindNothingMeans(es[1..], key, j - 1);
    }
  }
}
