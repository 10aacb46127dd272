/** Set and delete keep the trie well-formed and refine a finite map modulo structural equality. */
module HashMap {
  import opened Values
  import opened HashBits
  import opened Structural
  import opened HashTrie
  import opened StructuralLaws
  import opened EqualityLaws

  // ----- bits of new bitmaps -----

  lemma {:induction false} CountOfOne(i: nat, n: nat)
    requires i < 32
    ensures CountBelow(OneBit(i), n) == if i < n then 1 else 0
    decreases n
  {
    hide OneBit, BitAt;
    if n > 0 {
      CountOfOne(i, n - 1);
      BitOfOne(i, n - 1);
    }
  }

  /** Bits above the highest one looked at do not matter. */
  lemma {:induction false} SetBitsAbove(bitmap: bv32, i: nat, n: nat)
    requires n <= i < 32
    ensures SetBits(Union(bitmap, OneBit(i)), n) == SetBits(bitmap, n)
    decreases n
  {
    hide OneBit, BitAt, Union;
    if n > 0 {
      SetBitsAbove(bitmap, i, n - 1);
      BitOfUnion(bitmap, OneBit(i), n - 1);
      BitOfOne(i, n - 1);
    }
  }

  lemma {:induction false} SetBitsInsert(bitmap: bv32, i: nat, n: nat)
    requires i < 32 && !BitAt(bitmap, i) && i < n
    ensures CountBelow(bitmap, i) <= |SetBits(bitmap, n)|
    ensures SetBits(Union(bitmap, OneBit(i)), n) == Insert(SetBits(bitmap, n), CountBelow(bitmap, i), i)
    decreases n
  {
    hide OneBit, BitAt, Union, CountBelow, SetBits, Insert;
    var fuller := Union(bitmap, OneBit(i));
    BitOfUnion(bitmap, OneBit(i), n - 1);
    BitOfOne(i, n - 1);
    CountGrows(bitmap, i, n);
    CountIs(bitmap, n);
    LastBit(bitmap, n);
    LastBit(fuller, n);
    if i == n - 1 {
      SetBitsAbove(bitmap, i, n - 1);
      CountIs(bitmap, n - 1);
      InsertedLast(SetBits(bitmap, n - 1), i);
    } else {
      SetBitsInsert(bitmap, i, n - 1);
      LastStays(SetBits(bitmap, n - 1), CountBelow(bitmap, i), i, n - 1);
    }
  }

  lemma CountIs(bitmap: bv32, n: nat)
    ensures |SetBits(bitmap, n)| == CountBelow(bitmap, n)
  {}

  lemma InsertedLast(s: seq<nat>, x: nat)
    ensures Insert(s, |s|, x) == s + [x]
  {}

  lemma LastStays(s: seq<nat>, c: nat, x: nat, last: nat)
    requires c <= |s|
    ensures Insert(s + [last], c, x) == Insert(s, c, x) + [last]
  {}

  lemma {:induction false} SetBitsBelow(bitmap: bv32, i: nat, n: nat)
    requires n <= i < 32
    ensures SetBits(Without(bitmap, OneBit(i)), n) == SetBits(bitmap, n)
    decreases n
  {
    hide OneBit, BitAt, Without;
    if n > 0 {
      SetBitsBelow(bitmap, i, n - 1);
      BitOfRemoved(bitmap, i, n - 1);
    }
  }

  lemma {:induction false} SetBitsRemove(bitmap: bv32, i: nat, n: nat)
    requires i < 32 && BitAt(bitmap, i) && i < n
    ensures CountBelow(bitmap, i) < |SetBits(bitmap, n)|
    ensures SetBits(Without(bitmap, OneBit(i)), n) == Remove(SetBits(bitmap, n), CountBelow(bitmap, i))
    decreases n
  {
    hide OneBit, BitAt, Without, CountBelow, Remove;
    BitOfRemoved(bitmap, i, n - 1);
    CountGrows(bitmap, i, n);
    if i < n - 1 {
      SetBitsRemove(bitmap, i, n - 1);
      LastRemoved(SetBits(bitmap, n - 1), CountBelow(bitmap, i), n - 1);
      LastBit(bitmap, n);
      LastBit(Without(bitmap, OneBit(i)), n);
    } else {
      SetBitsBelow(bitmap, i, n - 1);
      assert SetBits(bitmap, n) == SetBits(bitmap, n - 1) + [n - 1];
      LastGone(SetBits(bitmap, n - 1), n - 1);
    }
  }

  lemma LastBit(bitmap: bv32, n: nat)
    requires 0 < n
    ensures SetBits(bitmap, n) == if BitAt(bitmap, n - 1) then SetBits(bitmap, n - 1) + [n - 1] else SetBits(bitmap, n - 1)
  {}

  lemma LastGone(s: seq<nat>, x: nat)
    ensures Remove(s + [x], |s|) == s
  {}

  lemma LastRemoved(s: seq<nat>, i: nat, x: nat)
    requires i < |s|
    ensures Remove(s + [x], i) == Remove(s, i) + [x]
  {}

  // ----- leaves and collisions can hang anywhere along their hash -----

  lemma Rehung(t: Tree, path: seq<nat>, other: seq<nat>)
    requires (t.Leaf? || t.Collision?) && WellPlaced(t, path) && OnPath(t.hash, other)
    ensures WellPlaced(t, other)
  {
    hide Ok, KeyHash, Equals, OnPath;
  }

  lemma OneChild(t: Tree, path: seq<nat>, i: nat)
    requires |path| < LEVELS && i < 32 && WellPlaced(t, path + [i])
    ensures WellPlaced(Bitmap(OneBit(i), [t]), path)
  {
    hide OneBit, BitAt, CountBelow, WellPlaced, SetBits;
    CountOfOne(i, 32);
    PlacedByBits(OneBit(i), [t], path);
    BitOfOne(i, SetBits(OneBit(i), 32)[0]);
  }

  lemma TwoChildren(low: Tree, high: Tree, path: seq<nat>, i: nat, j: nat)
    requires |path| < LEVELS && i < j < 32 && WellPlaced(low, path + [i]) && WellPlaced(high, path + [j])
    ensures WellPlaced(Bitmap(Union(OneBit(i), OneBit(j)), [low, high]), path)
  {
    hide OneBit, BitAt, CountBelow, Union, WellPlaced, SetBits;
    var b := Union(OneBit(i), OneBit(j));
    BitOfOne(i, j);
    CountAfterSet(OneBit(i), j, 32);
    CountOfOne(i, 32);
    PlacedByBits(b, [low, high], path);
    var bits := SetBits(b, 32);
    BitOfTwo(i, j, bits[0]);
    BitOfTwo(i, j, bits[1]);
    assert bits == [i, j];
  }

  lemma BitOfTwo(i: nat, j: nat, k: nat)
    requires i < 32 && j < 32
    ensures BitAt(Union(OneBit(i), OneBit(j)), k) <==> k == i || k == j
  {
    hide OneBit, BitAt, Union;
    BitOfUnion(OneBit(i), OneBit(j), k);
    BitOfOne(i, k);
    BitOfOne(j, k);
  }

  lemma SameUnion(a: bv32, b: bv32)
    ensures Union(a, b) == Union(b, a)
  {}

  lemma {:induction false} MergePlaced(left: Tree, right: Tree, path: seq<nat>)
    requires (left.Leaf? || left.Collision?) && (right.Leaf? || right.Collision?) && left.hash != right.hash
    requires WellPlaced(left, path) && WellPlaced(right, path) && |path| <= LEVELS
    ensures forall k: nat | k < |path| :: Chunk(left.hash, k) == Chunk(right.hash, k)
    ensures var m := Merge(left, left.hash, right, right.hash, |path|);
            && WellPlaced(m, path) && m.Bitmap?
            && (Entries(m) == Entries(left) + Entries(right) || Entries(m) == Entries(right) + Entries(left))
    decreases LEVELS - |path|
  {
    hide WellPlaced, OneBit, Union, Entries;
    HashOnPath(left, path);
    HashOnPath(right, path);
    if |path| == LEVELS {
      ChunksDecide(left.hash, right.hash);
    } else {
      var level := |path|;
      var l, r := Chunk(left.hash, level), Chunk(right.hash, level);
      OnShorter(left.hash, path, l);
      OnShorter(right.hash, path, r);
      Rehung(left, path, path + [l]);
      Rehung(right, path, path + [r]);
      if l == r {
        MergePlaced(left, right, path + [l]);
        var m := Merge(left, left.hash, right, right.hash, level + 1);
        OneChild(m, path, l);
        EntriesOfOne(m);
        BitmapEntries(OneBit(l), [m]);
      } else if l < r {
        TwoChildren(left, right, path, l, r);
        EntriesOfTwo(left, right);
        BitmapEntries(Union(OneBit(l), OneBit(r)), [left, right]);
      } else {
        TwoChildren(right, left, path, r, l);
        SameUnion(OneBit(l), OneBit(r));
        EntriesOfTwo(right, left);
        BitmapEntries(Union(OneBit(l), OneBit(r)), [right, left]);
      }
    }
  }

  lemma HashOnPath(t: Tree, path: seq<nat>)
    requires (t.Leaf? || t.Collision?) && WellPlaced(t, path)
    ensures OnPath(t.hash, path)
  {
    hide OnPath, Ok, KeyHash;
  }

  lemma BitmapEntries(bitmap: bv32, children: seq<Tree>)
    ensures Entries(Bitmap(bitmap, children)) == EntriesAll(children)
  {}

  lemma EntriesOfTwo(a: Tree, b: Tree)
    ensures EntriesAll([a, b]) == Entries(a) + Entries(b)
  {
    EntriesOfOne(b);
    assert [a, b][1..] == [b];
  }

  // ----- what set does to the entries -----

  ghost predicate StillPlaced(t: Tree, path: seq<nat>) {
    t.Empty? || WellPlaced(t, path)
  }

  /** The hash of the key leads to this subtree. */
  ghost predicate Reaches(t: Tree, key: Datum, path: seq<nat>) {
    StillPlaced(t, path) && OnPath(KeyHash(key), path) && |path| <= LEVELS && Ok(key)
  }

  function SetIn(t: Tree, key: Datum, value: Datum, ghost path: seq<nat>, level: nat): (Tree, bool)
    requires Reaches(t, key, path) && level == |path|
  {
    hide WellPlaced, Ok, KeyHash, OnPath;
    Set(t, KeyHash(key), key, value, path, level)
  }

  function DeleteIn(t: Tree, key: Datum, ghost path: seq<nat>, level: nat): Deleted
    requires Reaches(t, key, path) && level == |path|
  {
    hide WellPlaced, Ok, KeyHash, OnPath;
    Delete(t, KeyHash(key), key, path, level)
  }

  /** Where the new value is: an entry of its own when the key is new, else in place of the old value, under the old
      key or the new one. */
  ghost predicate Updated(es: seq<Pair>, us: seq<Pair>, j: nat, inserted: bool, key: Datum, value: Datum) {
    if inserted then j <= |es| && us == Insert(es, j, Pair(key, value))
    else && j < |es| && |us| == |es| && Equals(es[j].key, key) && us == es[j := us[j]]
         && us[j].value == value && (us[j].key == es[j].key || us[j].key == key)
  }

  /** The same inside a longer list. */
  lemma UpdatedWithin(a: seq<Pair>, es: seq<Pair>, us: seq<Pair>, b: seq<Pair>, j: nat, inserted: bool, key: Datum, value: Datum)
    requires Updated(es, us, j, inserted, key, value)
    ensures Updated(a + es + b, a + us + b, |a| + j, inserted, key, value)
  {
    hide Equals;
    if inserted {
      assert a + us + b == Insert(a + es + b, |a| + j, Pair(key, value));
    } else {
      assert a + us + b == (a + es + b)[|a| + j := us[j]];
    }
  }

  lemma SetLeaf(t: Tree, key: Datum, value: Datum, path: seq<nat>) returns (j: nat)
    requires t.Leaf? && Reaches(t, key, path) && Ok(value)
    ensures var (u, inserted) := SetIn(t, key, value, path, |path|);
            && WellPlaced(u, path) && Updated(Entries(t), Entries(u), j, inserted, key, value)
            && (inserted <==> Find(Entries(t), key).None?)
  {
    hide KeyHash, OnPath, Merge, Ok, Equals, Updated, Find, Entries;
    KeyLaws(t.key, key);
    LeafEntries(t, key);
    if t.hash == KeyHash(key) {
      j := if Equals(t.key, key) then 0 else 1;
      TwoEntries(t, KeyHash(key), key, value, path);
      SameLeaf(t, key, value);
    } else {
      j := SetElsewhere(t, key, value, path);
    }
  }

  lemma LeafEntries(t: Tree, key: Datum)
    requires t.Leaf?
    ensures Entries(t) == [Pair(t.key, t.value)] && (Find(Entries(t), key).None? <==> !Equals(t.key, key))
  {
    hide Equals;
    assert [Pair(t.key, t.value)][1..] == [];
    EmptyFinds(key);
  }

  lemma SameLeaf(t: Tree, key: Datum, value: Datum)
    requires t.Leaf?
    ensures Equals(t.key, key) ==> Updated(Entries(t), Entries(Leaf(t.hash, t.key, value)), 0, false, key, value)
    ensures Updated(Entries(t), Entries(Collision(t.hash, [Pair(t.key, t.value), Pair(key, value)])), 1, true, key, value)
  {
    hide Equals;
  }

  /** A key of another hash is merged in beside what is there. */
  lemma SetElsewhere(t: Tree, key: Datum, value: Datum, path: seq<nat>) returns (j: nat)
    requires (t.Leaf? || t.Collision?) && Reaches(t, key, path) && Ok(value) && t.hash != KeyHash(key)
    ensures var (u, inserted) := SetIn(t, key, value, path, |path|);
            WellPlaced(u, path) && inserted && Updated(Entries(t), Entries(u), j, true, key, value)
  {
    hide KeyHash, OnPath, Merge, Ok, Equals, Apart, FindIndex, Updated, Entries;
    var leaf := Leaf(KeyHash(key), key, value);
    MergePlaced(t, leaf, path);
    LeafEntries(leaf, key);
    var m := Merge(t, t.hash, leaf, leaf.hash, |path|);
    j := if Entries(m) == Entries(t) + Entries(leaf) then |Entries(t)| else 0;
    AddedAtEnd(Entries(t), Entries(m), key, value);
  }

  lemma AddedAtEnd(es: seq<Pair>, us: seq<Pair>, key: Datum, value: Datum)
    ensures us == es + [Pair(key, value)] ==> Updated(es, us, |es|, true, key, value)
    ensures us == [Pair(key, value)] + es ==> Updated(es, us, 0, true, key, value)
  {}

  /** Equality of two keys, both ways round, and what it says of their hashes. */
  lemma KeyLaws(a: Datum, b: Datum)
    requires Ok(a) && Ok(b)
    ensures Equals(a, b) <==> Equals(b, a)
    ensures Equals(a, b) ==> KeyHash(a) == KeyHash(b)
  {
    hide Equals, Ok, KeyHash;
    EqualityIsAnEquivalence(a, b, a);
    if Equals(a, b) { EqualValuesHashAlike(a, b); }
  }

  lemma TwoEntries(t: Tree, hash: bv32, key: Datum, value: Datum, path: seq<nat>)
    requires t.Leaf? && WellPlaced(t, path) && t.hash == hash == KeyHash(key) && Ok(key) && Ok(value) && OnPath(hash, path)
    ensures !Equals(t.key, key) ==> WellPlaced(Collision(hash, [Pair(t.key, t.value), Pair(key, value)]), path)
  {
    hide Ok, Equals, KeyHash, OnPath;
    KeyLaws(t.key, key);
  }

  lemma SetCollision(t: Tree, key: Datum, value: Datum, path: seq<nat>) returns (j: nat)
    requires t.Collision? && Reaches(t, key, path) && Ok(value)
    ensures var (u, inserted) := SetIn(t, key, value, path, |path|);
            && WellPlaced(u, path) && Updated(Entries(t), Entries(u), j, inserted, key, value)
            && (inserted <==> Find(Entries(t), key).None?)
  {
    hide KeyHash, OnPath, Merge, Ok, Equals, Find, Apart, FindIndex, WellPlaced, Updated;
    var es := t.entries;
    if t.hash != KeyHash(key) {
      j := SetElsewhere(t, key, value, path);
      HashesElsewhere(t, key, path);
    } else {
      var i := FindIndex(es, key);
      KeyOfHash(t, key, path);
      if i.Some? {
        j := i.value;
        FindFirst(es, key, j);
        ReplacedApart(t, j, key, value, path);
        ReplacedThere(es, j, key, value);
      } else {
        j := |es|;
        FindNothing(es, key);
        AppendedApart(t, key, value, path);
        AddedAtEnd(es, es + [Pair(key, value)], key, value);
      }
    }
  }

  lemma KeyOfHash(t: Tree, key: Datum, path: seq<nat>)
    requires t.Collision? && WellPlaced(t, path)
    ensures FindIndex(t.entries, key).Some? ==>
      FindIndex(t.entries, key).value < |t.entries| && Equals(t.entries[FindIndex(t.entries, key).value].key, key)
      && forall i | 0 <= i < FindIndex(t.entries, key).value :: !Equals(t.entries[i].key, key)
    ensures FindIndex(t.entries, key).None? ==> forall i | 0 <= i < |t.entries| :: !Equals(t.entries[i].key, key)
  {
    hide Equals, WellPlaced;
  }

  lemma ReplacedThere(es: seq<Pair>, j: nat, key: Datum, value: Datum)
    requires j < |es| && Equals(es[j].key, key)
    ensures Updated(es, es[j := Pair(key, value)], j, false, key, value)
  {
    hide Equals;
  }

  /** Keys of another hash are not equal to this one. */
  lemma HashesElsewhere(t: Tree, key: Datum, path: seq<nat>)
    requires t.Collision? && WellPlaced(t, path) && t.hash != KeyHash(key) && Ok(key)
    ensures Find(t.entries, key).None?
  {
    hide KeyHash, OnPath, Ok, Equals, Find, Apart;
    forall i | 0 <= i < |t.entries| ensures !Equals(t.entries[i].key, key) {
      assert PairOk(t.entries[i]) && KeyHash(t.entries[i].key) == t.hash;
      KeyLaws(t.entries[i].key, key);
    }
    FindNothing(t.entries, key);
  }

  lemma AppendedApart(t: Tree, key: Datum, value: Datum, path: seq<nat>)
    requires t.Collision? && WellPlaced(t, path) && t.hash == KeyHash(key) && Ok(key) && Ok(value)
    requires forall i | 0 <= i < |t.entries| :: !Equals(t.entries[i].key, key)
    ensures WellPlaced(Collision(t.hash, t.entries + [Pair(key, value)]), path)
  {
    hide KeyHash, OnPath, Ok, Equals;
    var es := t.entries;
    forall i | 0 <= i < |es| ensures !Equals(key, es[i].key) {
      assert PairOk(es[i]);
      KeyLaws(es[i].key, key);
    }
  }

  lemma ReplacedApart(t: Tree, j: nat, key: Datum, value: Datum, path: seq<nat>)
    requires t.Collision? && WellPlaced(t, path) && t.hash == KeyHash(key) && Ok(key) && Ok(value)
    requires j < |t.entries| && Equals(t.entries[j].key, key)
    ensures WellPlaced(Collision(t.hash, t.entries[j := Pair(key, value)]), path)
  {
    hide KeyHash, OnPath, Ok, Equals;
    var es := t.entries;
    assert PairOk(es[j]);
    forall i | 0 <= i < |es| && i != j ensures !Equals(es[i].key, key) && !Equals(key, es[i].key) {
      assert PairOk(es[i]);
      KeyLaws(es[i].key, key);
      KeyLaws(es[j].key, key);
      EqualityIsAnEquivalence(es[i].key, key, es[j].key);
    }
  }

  lemma ReachesChild(t: Tree, key: Datum, path: seq<nat>)
    requires t.Bitmap? && Reaches(t, key, path) && BitAt(t.bitmap, Chunk(KeyHash(key), |path|))
    ensures var i := Chunk(KeyHash(key), |path|); var index := CountBelow(t.bitmap, i);
            index < |t.children| && Reaches(t.children[index], key, path + [i])
  {
    hide KeyHash, OnPath, Ok, BitAt, CountBelow, Chunk;
    OnShorter(KeyHash(key), path, Chunk(KeyHash(key), |path|));
  }

  lemma {:induction false} SetUpdates(t: Tree, key: Datum, value: Datum, path: seq<nat>) returns (j: nat)
    requires Reaches(t, key, path) && Ok(value)
    ensures var (u, inserted) := SetIn(t, key, value, path, |path|);
            && WellPlaced(u, path) && Updated(Entries(t), Entries(u), j, inserted, key, value)
            && (inserted <==> Find(Entries(t), key).None?)
    decreases t
  {
    hide KeyHash, OnPath, Ok, Equals, WellPlaced, Entries, Find, Updated, BitAt, CountBelow, Reaches, SetIn, Chunk;
    match t
    case Empty => j := SetEmpty(key, value, path);
    case Leaf(_, _, _) => j := SetLeaf(t, key, value, path);
    case Collision(_, _) => j := SetCollision(t, key, value, path);
    case Bitmap(bitmap, children) =>
      var i := Chunk(KeyHash(key), |path|);
      if BitAt(bitmap, i) {
        ReachesChild(t, key, path);
        var index := CountBelow(bitmap, i);
        var k := SetUpdates(children[index], key, value, path + [i]);
        j := SetOldChild(t, key, value, path, k);
      } else {
        j := SetNewChild(t, key, value, path);
      }
  }

  lemma SetEmpty(key: Datum, value: Datum, path: seq<nat>) returns (j: nat)
    requires Reaches(Empty, key, path) && Ok(value)
    ensures var (u, inserted) := SetIn(Empty, key, value, path, |path|);
            && WellPlaced(u, path) && Updated(Entries(Empty), Entries(u), j, inserted, key, value)
            && inserted && Find(Entries(Empty), key).None?
  {
    hide KeyHash, OnPath, Ok, Equals;
    j := 0;
    EmptyFinds(key);
  }

  /** The branch of set for a bitmap, as it is written. */
  lemma SetUnfolds(t: Tree, hash: bv32, key: Datum, value: Datum, path: seq<nat>)
    requires t.Bitmap? && WellPlaced(t, path) && OnPath(hash, path)
    ensures |path| < LEVELS
    ensures var i := Chunk(hash, |path|); var index := ChildIndex(t.bitmap, i);
            if Meet(t.bitmap, OneBit(i)) == 0
            then && index <= |t.children|
                 && Set(t, hash, key, value, path, |path|)
                    == (Bitmap(Union(t.bitmap, OneBit(i)), Insert(t.children, index, Leaf(hash, key, value))), true)
            else && index < |t.children| && WellPlaced(t.children[index], path + [i]) && OnPath(hash, path + [i])
                 && var (child, inserted) := Set(t.children[index], hash, key, value, path + [i], |path| + 1);
                    Set(t, hash, key, value, path, |path|) == (Bitmap(t.bitmap, t.children[index := child]), inserted)
  {
    hide Popcount, OneBit, Meet, Mask, Chunk, ChildIndex, WellPlaced, OnPath, Union, Merge, Equals, FindIndex, Insert;
    ChildThere(t, hash, path);
  }

  lemma ChildIndexCounts(bitmap: bv32, i: nat)
    requires i < 32
    ensures ChildIndex(bitmap, i) == CountBelow(bitmap, i)
    ensures Meet(bitmap, OneBit(i)) == 0 <==> !BitAt(bitmap, i)
  {
    hide Popcount, OneBit, Meet, Mask, CountBelow, BitAt;
    BitTest(bitmap, i);
    RankCounts(bitmap, i);
  }

  /** What set does at a bitmap. */
  lemma SetAtBitmap(t: Tree, hash: bv32, key: Datum, value: Datum, path: seq<nat>)
    requires t.Bitmap? && WellPlaced(t, path) && OnPath(hash, path)
    ensures var i := Chunk(hash, |path|); var index := CountBelow(t.bitmap, i);
            if BitAt(t.bitmap, i)
            then && index < |t.children| && WellPlaced(t.children[index], path + [i]) && OnPath(hash, path + [i])
                 && var (child, inserted) := Set(t.children[index], hash, key, value, path + [i], |path| + 1);
                    Set(t, hash, key, value, path, |path|) == (Bitmap(t.bitmap, t.children[index := child]), inserted)
            else && index <= |t.children|
                 && Set(t, hash, key, value, path, |path|)
                    == (Bitmap(Union(t.bitmap, OneBit(i)), Insert(t.children, index, Leaf(hash, key, value))), true)
  {
    hide Set, OneBit, Meet, ChildIndex, CountBelow, BitAt, WellPlaced, OnPath, Union, Insert;
    SetUnfolds(t, hash, key, value, path);
    ChildIndexCounts(t.bitmap, Chunk(hash, |path|));
  }

  lemma SetOldChild(t: Tree, key: Datum, value: Datum, path: seq<nat>, k: nat) returns (j: nat)
    requires t.Bitmap? && Reaches(t, key, path) && Ok(value)
    requires BitAt(t.bitmap, Chunk(KeyHash(key), |path|))
    requires var i := Chunk(KeyHash(key), |path|); var index := CountBelow(t.bitmap, i);
             && index < |t.children| && Reaches(t.children[index], key, path + [i])
             && var (child, inserted) := SetIn(t.children[index], key, value, path + [i], |path| + 1);
                && WellPlaced(child, path + [i]) && Updated(Entries(t.children[index]), Entries(child), k, inserted, key, value)
                && (inserted <==> Find(Entries(t.children[index]), key).None?)
    ensures var (u, inserted) := SetIn(t, key, value, path, |path|);
            && WellPlaced(u, path) && Updated(Entries(t), Entries(u), j, inserted, key, value)
            && (inserted <==> Find(Entries(t), key).None?)
  {
    hide KeyHash, OnPath, Ok, Equals, WellPlaced, Entries, Find, Updated, BitAt, CountBelow, Set, EntriesAll, Chunk, SetBits;
    var i := Chunk(KeyHash(key), |path|);
    var index := CountBelow(t.bitmap, i);
    var children := t.children;
    SetAtBitmap(t, KeyHash(key), key, value, path);
    PlacedByBits(t.bitmap, children, path);
    var (child, inserted) := SetIn(children[index], key, value, path + [i], |path| + 1);
    OldChildPlaced(t, child, path, i);
    ChildEntriesChange(t.bitmap, children, index, child);
    UpdatedWithin(EntriesAll(children[..index]), Entries(children[index]), Entries(child), EntriesAll(children[index + 1..]), k, inserted, key, value);
    ChildFinds(t, key, path);
    j := |EntriesAll(children[..index])| + k;
  }

  lemma OldChildPlaced(t: Tree, child: Tree, path: seq<nat>, i: nat)
    requires t.Bitmap? && WellPlaced(t, path) && i < 32 && BitAt(t.bitmap, i) && WellPlaced(child, path + [i])
    ensures CountBelow(t.bitmap, i) < |t.children| && WellPlaced(Bitmap(t.bitmap, t.children[CountBelow(t.bitmap, i) := child]), path)
  {
    hide BitAt, CountBelow, WellPlaced, SetBits;
    PlacedByBits(t.bitmap, t.children, path);
    SetBitAt(t.bitmap, i, 32);
    PlacedByBits(t.bitmap, t.children[CountBelow(t.bitmap, i) := child], path);
  }

  lemma ChildEntriesChange(bitmap: bv32, children: seq<Tree>, index: nat, child: Tree)
    requires index < |children|
    ensures Entries(Bitmap(bitmap, children)) == EntriesAll(children[..index]) + Entries(children[index]) + EntriesAll(children[index + 1..])
    ensures Entries(Bitmap(bitmap, children[index := child])) == EntriesAll(children[..index]) + Entries(child) + EntriesAll(children[index + 1..])
  {
    hide Entries, EntriesAll;
    var after := children[index := child];
    EntriesSplit(children, index);
    EntriesSplit(after, index);
    assert after[..index] == children[..index] && after[index + 1..] == children[index + 1..];
    BitmapEntries(bitmap, children);
    BitmapEntries(bitmap, after);
  }

  /** A key is in the tree when it is in the child its hash leads to. */
  lemma ChildFinds(t: Tree, key: Datum, path: seq<nat>)
    requires t.Bitmap? && WellPlaced(t, path) && Ok(key) && BitAt(t.bitmap, Chunk(KeyHash(key), |path|))
    ensures var index := CountBelow(t.bitmap, Chunk(KeyHash(key), |path|));
            index < |t.children| && Find(Entries(t), key) == Find(Entries(t.children[index]), key)
  {
    hide KeyHash, Ok, Equals, WellPlaced, Entries, Find, BitAt, CountBelow, EntriesAll, Chunk, SetBits, Size, SizeTree;
    var n := SizeTree(t) + Size(key) + 1;
    PlacedByBits(t.bitmap, t.children, path);
    SetBitAt(t.bitmap, Chunk(KeyHash(key), |path|), 32);
    LawsHold(n);
    BitmapFinds(t, path, key, CountBelow(t.bitmap, Chunk(KeyHash(key), |path|)), n);
  }

  lemma SetNewChild(t: Tree, key: Datum, value: Datum, path: seq<nat>) returns (j: nat)
    requires t.Bitmap? && Reaches(t, key, path) && Ok(value)
    requires !BitAt(t.bitmap, Chunk(KeyHash(key), |path|))
    ensures var (u, inserted) := SetIn(t, key, value, path, |path|);
            && WellPlaced(u, path) && Updated(Entries(t), Entries(u), j, inserted, key, value)
            && (inserted <==> Find(Entries(t), key).None?)
  {
    hide KeyHash, OnPath, Ok, Equals, Find, Updated, BitAt, CountBelow, Set, EntriesAll, Chunk, Union, OneBit, WellPlaced, Entries, SetBits, Insert;
    var hash := KeyHash(key);
    var i := Chunk(hash, |path|);
    var index := CountBelow(t.bitmap, i);
    var leaf := Leaf(hash, key, value);
    SetAtBitmap(t, hash, key, value, path);
    PlacedByBits(t.bitmap, t.children, path);
    NewLeafPlaced(hash, key, value, path, i);
    NewChildPlaced(t, leaf, path, i);
    BitmapEntries(t.bitmap, t.children);
    BitmapEntries(Union(t.bitmap, OneBit(i)), Insert(t.children, index, leaf));
    j := NewChildEntries(t.children, index, leaf, key, value);
    NothingThere(t, key, path);
  }

  lemma NothingThere(t: Tree, key: Datum, path: seq<nat>)
    requires t.Bitmap? && Reaches(t, key, path) && !BitAt(t.bitmap, Chunk(KeyHash(key), |path|))
    ensures Find(Entries(t), key).None?
  {
    hide KeyHash, OnPath, Ok, Equals, WellPlaced, Entries, Find, BitAt, Size, SizeTree;
    var n := SizeTree(t) + Size(key) + 1;
    LawsHold(n);
    BitmapMisses(t, path, key, n);
  }

  lemma NewLeafPlaced(hash: bv32, key: Datum, value: Datum, path: seq<nat>, i: nat)
    requires hash == KeyHash(key) && Ok(key) && Ok(value) && OnPath(hash, path) && Chunk(hash, |path|) == i
    ensures WellPlaced(Leaf(hash, key, value), path + [i])
  {
    hide OnPath, Ok, KeyHash;
    OnShorter(hash, path, i);
  }

  lemma NewChildPlaced(t: Tree, child: Tree, path: seq<nat>, i: nat)
    requires t.Bitmap? && WellPlaced(t, path) && i < 32 && !BitAt(t.bitmap, i) && WellPlaced(child, path + [i])
    requires CountBelow(t.bitmap, i) <= |t.children|
    ensures WellPlaced(Bitmap(Union(t.bitmap, OneBit(i)), Insert(t.children, CountBelow(t.bitmap, i), child)), path)
  {
    hide BitAt, CountBelow, Union, OneBit, WellPlaced, SetBits;
    var index := CountBelow(t.bitmap, i);
    var bits, children := SetBits(t.bitmap, 32), Insert(t.children, CountBelow(t.bitmap, i), child);
    var bitmap := Union(t.bitmap, OneBit(i));
    PlacedByBits(t.bitmap, t.children, path);
    CountAfterSet(t.bitmap, i, 32);
    SetBitsInsert(t.bitmap, i, 32);
    CountGrows(t.bitmap, i, 32);
    var after := SetBits(bitmap, 32);
    assert after == Insert(bits, index, i);
    forall j | 0 <= j < |children| ensures WellPlaced(children[j], path + [after[j]]) {
      if j < index {
        assert children[j] == t.children[j] && after[j] == bits[j];
      } else if j > index {
        assert children[j] == t.children[j - 1] && after[j] == bits[j - 1];
      }
    }
    PlacedByBits(bitmap, children, path);
  }

  lemma NewChildEntries(children: seq<Tree>, index: nat, leaf: Tree, key: Datum, value: Datum) returns (j: nat)
    requires index <= |children| && leaf.Leaf? && leaf.key == key && leaf.value == value
    ensures Updated(EntriesAll(children), EntriesAll(Insert(children, index, leaf)), j, true, key, value)
  {
    hide EntriesAll, Equals;
    var a, b := children[..index], children[index..];
    assert children == a + b && Insert(children, index, leaf) == a + [leaf] + b;
    EntriesJoin(a, b);
    EntriesJoin(a + [leaf], b);
    EntriesJoin(a, [leaf]);
    EntriesOfOne(leaf);
    assert Entries(leaf) == [Pair(key, value)];
    j := |EntriesAll(a)|;
    assert EntriesAll(Insert(children, index, leaf)) == Insert(EntriesAll(children), j, Pair(key, value));
  }

  // ----- what set means for every key -----

  ghost predicate AllOk(es: seq<Pair>) {
    forall i | 0 <= i < |es| :: PairOk(es[i])
  }

  lemma Alike(a: Datum, b: Datum, c: Datum)
    requires Ok(a) && Ok(b) && Ok(c) && Equals(a, b)
    ensures Equals(b, a) && (Equals(a, c) <==> Equals(b, c)) && (Equals(c, a) <==> Equals(c, b))
  {
    hide Equals, Ok;
    EqualityIsAnEquivalence(a, b, c);
    EqualityIsAnEquivalence(b, a, c);
    EqualityIsAnEquivalence(c, a, b);
    EqualityIsAnEquivalence(c, b, a);
  }

  lemma {:induction false} FindAlike(es: seq<Pair>, a: Datum, b: Datum)
    requires AllOk(es) && Ok(a) && Ok(b) && Equals(a, b)
    ensures Find(es, a) == Find(es, b)
    decreases |es|
  {
    hide Equals, Ok;
    if |es| > 0 {
      assert PairOk(es[0]);
      Alike(a, b, es[0].key);
      assert forall i | 0 <= i < |es[1..]| :: es[1..][i] == es[i + 1];
      FindAlike(es[1..], a, b);
    }
  }

  lemma FindOne(p: Pair, key: Datum)
    ensures Find([p], key) == if Equals(p.key, key) then Some(p.value) else None
  {
    hide Equals;
    EmptyFinds(key);
    assert [p][1..] == [];
  }

  lemma InsertedFinds(es: seq<Pair>, j: nat, key: Datum, value: Datum, k: Datum)
    requires AllOk(es) && Ok(key) && Ok(k) && j <= |es| && Find(es, key).None?
    ensures Find(Insert(es, j, Pair(key, value)), k) == if Equals(key, k) then Some(value) else Find(es, k)
  {
    hide Equals, Ok, Find;
    var a, b, p := es[..j], es[j..], Pair(key, value);
    assert es == a + b && Insert(es, j, p) == a + [p] + b;
    FindJoin(a, b, k);
    FindJoin(a, b, key);
    FindJoin(a + [p], b, k);
    FindJoin(a, [p], k);
    FindOne(p, k);
    if Equals(key, k) { FindAlike(a, key, k); }
  }

  lemma ReplacedFinds(es: seq<Pair>, us: seq<Pair>, j: nat, key: Datum, value: Datum, k: Datum)
    requires AllOk(es) && Apart(es) && Ok(key) && Ok(k) && Updated(es, us, j, false, key, value)
    ensures Find(us, k) == if Equals(key, k) then Some(value) else Find(es, k)
  {
    hide Equals, Ok, Find;
    var a, b := es[..j], es[j + 1..];
    assert PairOk(es[j]);
    Alike(es[j].key, key, k);
    assert es == a + [es[j]] + b && us == a + [us[j]] + b;
    FindJoin(a + [es[j]], b, k);
    FindJoin(a, [es[j]], k);
    FindJoin(a + [us[j]], b, k);
    FindJoin(a, [us[j]], k);
    FindOne(es[j], k);
    FindOne(us[j], k);
    if Equals(key, k) {
      forall i | 0 <= i < |a| ensures !Equals(a[i].key, k) {
        assert PairOk(es[i]) && a[i] == es[i] && !Equals(es[i].key, es[j].key);
        Alike(es[j].key, k, es[i].key);
      }
      FindNothing(a, k);
    }
  }

  lemma UpdatedFinds(es: seq<Pair>, us: seq<Pair>, j: nat, inserted: bool, key: Datum, value: Datum, k: Datum)
    requires AllOk(es) && Apart(es) && Ok(key) && Ok(k) && Updated(es, us, j, inserted, key, value)
    requires inserted <==> Find(es, key).None?
    ensures Find(us, k) == if Equals(key, k) then Some(value) else Find(es, k)
    ensures |us| == |es| + if inserted then 1 else 0
  {
    hide Equals, Ok, Find;
    if inserted { InsertedFinds(es, j, key, value, k); } else { ReplacedFinds(es, us, j, key, value, k); }
  }

  // ----- what delete does -----

  /** The entry that is gone, or nothing when the key was not there. */
  ghost predicate Deletes(es: seq<Pair>, d: Deleted, j: nat, key: Datum) {
    if d.removed then j < |es| && Equals(es[j].key, key) && d.value == Some(es[j].value) && Entries(d.tree) == Remove(es, j)
    else d.value.None? && Find(es, key).None? && Entries(d.tree) == es
  }

  lemma DeleteLeaf(t: Tree, key: Datum, path: seq<nat>)
    requires t.Leaf? && Reaches(t, key, path)
    ensures var d := DeleteIn(t, key, path, |path|); StillPlaced(d.tree, path) && Deletes(Entries(t), d, 0, key)
    ensures !DeleteIn(t, key, path, |path|).removed ==> DeleteIn(t, key, path, |path|).tree == t
  {
    hide KeyHash, OnPath, Ok, Equals;
    KeyLaws(t.key, key);
    EmptyFinds(key);
    assert [Pair(t.key, t.value)][1..] == [];
    assert Remove([Pair(t.key, t.value)], 0) == [];
  }

  lemma DeleteCollision(t: Tree, key: Datum, path: seq<nat>) returns (j: nat)
    requires t.Collision? && Reaches(t, key, path)
    ensures var d := DeleteIn(t, key, path, |path|);
            StillPlaced(d.tree, path) && Deletes(Entries(t), d, j, key) && (!d.removed ==> d.tree == t)
  {
    hide KeyHash, OnPath, Ok, Equals, Find, FindIndex, WellPlaced, Remove;
    var es := t.entries;
    j := 0;
    if t.hash != KeyHash(key) {
      HashesElsewhere(t, key, path);
    } else {
      KeyOfHash(t, key, path);
      var i := FindIndex(es, key);
      if i.Some? {
        j := i.value;
        RemovedApart(t, j, path);
        OneLeft(t.hash, Remove(es, j));
      } else {
        FindNothing(es, key);
      }
    }
  }

  lemma OneLeft(hash: bv32, rest: seq<Pair>)
    ensures |rest| == 1 ==> Entries(Leaf(hash, rest[0].key, rest[0].value)) == rest
  {}

  lemma RemovedApart(t: Tree, j: nat, path: seq<nat>)
    requires t.Collision? && WellPlaced(t, path) && j < |t.entries|
    ensures var rest := Remove(t.entries, j);
            if |rest| == 1 then WellPlaced(Leaf(t.hash, rest[0].key, rest[0].value), path) else WellPlaced(Collision(t.hash, rest), path)
  {
    hide KeyHash, OnPath, Ok, Equals;
    var rest := Remove(t.entries, j);
    forall i | 0 <= i < |rest| ensures PairOk(rest[i]) && KeyHash(rest[i].key) == t.hash {
      assert rest[i] == t.entries[if i < j then i else i + 1];
    }
    forall i, k | 0 <= i < |rest| && 0 <= k < |rest| && i != k ensures !Equals(rest[i].key, rest[k].key) {
      assert rest[i] == t.entries[if i < j then i else i + 1] && rest[k] == t.entries[if k < j then k else k + 1];
    }
  }

  lemma {:induction false} DeleteRemoves(t: Tree, key: Datum, path: seq<nat>) returns (j: nat)
    requires Reaches(t, key, path)
    ensures var d := DeleteIn(t, key, path, |path|);
            StillPlaced(d.tree, path) && Deletes(Entries(t), d, j, key) && (!d.removed ==> d.tree == t)
    decreases t
  {
    hide KeyHash, OnPath, Ok, Equals, WellPlaced, Entries, Find, Deletes, BitAt, CountBelow, DeleteIn, Chunk;
    match t
    case Empty =>
      j := 0;
      DeleteEmpty(key, path);
    case Leaf(_, _, _) =>
      j := 0;
      DeleteLeaf(t, key, path);
    case Collision(_, _) => j := DeleteCollision(t, key, path);
    case Bitmap(bitmap, children) =>
      var i := Chunk(KeyHash(key), |path|);
      if BitAt(bitmap, i) {
        ReachesChild(t, key, path);
        var index := CountBelow(bitmap, i);
        var k := DeleteRemoves(children[index], key, path + [i]);
        j := DeleteInChild(t, key, path, k);
      } else {
        j := 0;
        DeleteNoChild(t, key, path);
      }
  }

  lemma DeleteEmpty(key: Datum, path: seq<nat>)
    requires Reaches(Empty, key, path)
    ensures var d := DeleteIn(Empty, key, path, |path|); d.tree == Empty && Deletes(Entries(Empty), d, 0, key)
  {
    EmptyFinds(key);
    hide KeyHash, OnPath, Equals;
  }

  /** What delete does at a bitmap. */
  lemma DeleteAtBitmap(t: Tree, hash: bv32, key: Datum, path: seq<nat>)
    requires t.Bitmap? && WellPlaced(t, path) && OnPath(hash, path)
    ensures var i := Chunk(hash, |path|); var index := CountBelow(t.bitmap, i);
            if BitAt(t.bitmap, i)
            then && index < |t.children| && WellPlaced(t.children[index], path + [i]) && OnPath(hash, path + [i])
                 && var child := Delete(t.children[index], hash, key, path + [i], |path| + 1);
                    Delete(t, hash, key, path, |path|) == AfterDelete(t, i, index, child)
            else Delete(t, hash, key, path, |path|) == Deleted(t, None, false)
  {
    hide Popcount, OneBit, Meet, Mask, Chunk, CountBelow, BitAt, KeyHash, Ok, Without, AfterDelete, Remove;
    var i := Chunk(hash, |path|);
    BitTest(t.bitmap, i);
    RankCounts(t.bitmap, i);
    CountGrows(t.bitmap, i, 32);
    OnShorter(hash, path, i);
  }

  lemma DeleteNoChild(t: Tree, key: Datum, path: seq<nat>)
    requires t.Bitmap? && Reaches(t, key, path)
    requires !BitAt(t.bitmap, Chunk(KeyHash(key), |path|))
    ensures var d := DeleteIn(t, key, path, |path|); d.tree == t && !d.removed && Deletes(Entries(t), d, 0, key)
  {
    hide KeyHash, OnPath, Ok, Equals, WellPlaced, Entries, Find, BitAt, CountBelow, Delete;
    DeleteAtBitmap(t, KeyHash(key), key, path);
    NothingThere(t, key, path);
  }

  lemma DeleteInChild(t: Tree, key: Datum, path: seq<nat>, k: nat) returns (j: nat)
    requires t.Bitmap? && Reaches(t, key, path)
    requires BitAt(t.bitmap, Chunk(KeyHash(key), |path|))
    requires var i := Chunk(KeyHash(key), |path|); var index := CountBelow(t.bitmap, i);
             && index < |t.children| && Reaches(t.children[index], key, path + [i])
             && var d := DeleteIn(t.children[index], key, path + [i], |path| + 1);
                && StillPlaced(d.tree, path + [i]) && Deletes(Entries(t.children[index]), d, k, key)
    ensures var d := DeleteIn(t, key, path, |path|);
            StillPlaced(d.tree, path) && Deletes(Entries(t), d, j, key) && (!d.removed ==> d.tree == t)
  {
    hide KeyHash, OnPath, Ok, Equals, WellPlaced, Entries, Find, BitAt, CountBelow, Delete, EntriesAll, Chunk, AfterDelete;
    var i := Chunk(KeyHash(key), |path|);
    var index := CountBelow(t.bitmap, i);
    var children := t.children;
    var d := DeleteIn(children[index], key, path + [i], |path| + 1);
    DeleteAtBitmap(t, KeyHash(key), key, path);
    ChildFinds(t, key, path);
    j := |EntriesAll(children[..index])| + k;
    if d.removed {
      if d.tree.Empty? {
        ChildGone(t, path, i, d);
        ChildrenWithout(t.bitmap, children, index);
        LastEntryGone(Entries(children[index]), d, k);
      } else {
        OldChildPlaced(t, d.tree, path, i);
        Rebuilt(t, i, index, d);
        ChildEntriesChange(t.bitmap, children, index, d.tree);
      }
      ChildEntriesChange(t.bitmap, children, index, d.tree);
      RemoveWithin(EntriesAll(children[..index]), Entries(children[index]), EntriesAll(children[index + 1..]), k);
    } else {
      Kept(t, i, index, d);
    }
  }

  lemma Kept(t: Tree, i: nat, index: nat, d: Deleted)
    requires t.Bitmap? && index < |t.children| && i < 32 && !d.removed
    ensures AfterDelete(t, i, index, d) == Deleted(t, None, false)
  {}

  lemma Rebuilt(t: Tree, i: nat, index: nat, d: Deleted)
    requires t.Bitmap? && index < |t.children| && i < 32 && d.removed && !d.tree.Empty?
    ensures AfterDelete(t, i, index, d) == Deleted(Bitmap(t.bitmap, t.children[index := d.tree]), d.value, true)
  {}

  lemma LastEntryGone(es: seq<Pair>, d: Deleted, k: nat)
    requires d.tree.Empty? && k < |es| && Entries(d.tree) == Remove(es, k)
    ensures Remove(es, k) == [] && Entries(Empty) == []
  {}

  lemma RemoveWithin(a: seq<Pair>, es: seq<Pair>, b: seq<Pair>, k: nat)
    requires k < |es|
    ensures Remove(a + es + b, |a| + k) == a + Remove(es, k) + b && (a + es + b)[|a| + k] == es[k]
  {}

  /** The entries once a child has gone. */
  lemma ChildrenWithout(bitmap: bv32, children: seq<Tree>, index: nat)
    requires index < |children|
    ensures EntriesAll(Remove(children, index)) == EntriesAll(children[..index]) + EntriesAll(children[index + 1..])
  {
    hide EntriesAll;
    EntriesJoin(children[..index], children[index + 1..]);
  }

  /** The children left over sit where the bits left over say. */
  lemma LeftOverPlaced(bitmap: bv32, children: seq<Tree>, path: seq<nat>, i: nat)
    requires WellPlaced(Bitmap(bitmap, children), path) && i < 32 && BitAt(bitmap, i) && CountBelow(bitmap, i) < |children|
    ensures var rest, after := Remove(children, CountBelow(bitmap, i)), SetBits(Without(bitmap, OneBit(i)), 32);
            && |rest| == |after| && (forall j | 0 <= j < |rest| :: WellPlaced(rest[j], path + [after[j]]))
            && (|rest| > 0 ==> WellPlaced(Bitmap(Without(bitmap, OneBit(i)), rest), path))
  {
    hide WellPlaced, BitAt, CountBelow, Without, OneBit, SetBits;
    var index := CountBelow(bitmap, i);
    var rest, bits := Remove(children, index), SetBits(bitmap, 32);
    var after := SetBits(Without(bitmap, OneBit(i)), 32);
    PlacedByBits(bitmap, children, path);
    SetBitsRemove(bitmap, i, 32);
    CountAfterClear(bitmap, i, 32);
    forall j | 0 <= j < |rest| ensures WellPlaced(rest[j], path + [after[j]]) {
      var k := if j < index then j else j + 1;
      assert rest[j] == children[k] && after[j] == bits[k];
    }
    PlacedByBits(Without(bitmap, OneBit(i)), rest, path);
  }

  /** A child has lost its last entry: its bit is cleared; a single leaf or collision left over moves up. */
  lemma ChildGone(t: Tree, path: seq<nat>, i: nat, d: Deleted)
    requires t.Bitmap? && WellPlaced(t, path) && i < 32 && BitAt(t.bitmap, i) && CountBelow(t.bitmap, i) < |t.children|
    requires d.removed && d.tree.Empty?
    ensures var index := CountBelow(t.bitmap, i); var r := AfterDelete(t, i, index, d);
            && r.removed && r.value == d.value && StillPlaced(r.tree, path)
            && Entries(r.tree) == EntriesAll(Remove(t.children, index))
  {
    hide WellPlaced, BitAt, CountBelow, Entries, EntriesAll, Without, OneBit, SetBits, Remove;
    var rest := Remove(t.children, CountBelow(t.bitmap, i));
    var bitmap := Without(t.bitmap, OneBit(i));
    assert t == Bitmap(t.bitmap, t.children);
    LeftOverPlaced(t.bitmap, t.children, path, i);
    var after := SetBits(bitmap, 32);
    if |rest| == 0 {
      NoEntries();
    } else {
      BitmapEntries(bitmap, rest);
      if |rest| == 1 {
        assert rest == [rest[0]];
        EntriesOfOne(rest[0]);
        MovesUp(rest[0], path, after[0]);
      }
    }
  }

  lemma NoEntries()
    ensures Entries(Empty) == [] && EntriesAll([]) == []
  {}

  lemma MovesUp(t: Tree, path: seq<nat>, i: nat)
    requires WellPlaced(t, path + [i])
    ensures !t.Bitmap? ==> WellPlaced(t, path)
  {
    hide OnPath, KeyHash, Ok, Equals;
    if t.Leaf? || t.Collision? {
      HashOnPath(t, path + [i]);
      OnShorter(t.hash, path, i);
      Rehung(t, path + [i], path);
    }
  }

  /** What is left after a delete, for every key. */
  lemma RemovedFinds(es: seq<Pair>, j: nat, key: Datum, k: Datum)
    requires AllOk(es) && Apart(es) && Ok(key) && Ok(k) && j < |es| && Equals(es[j].key, key)
    ensures Find(Remove(es, j), k) == if Equals(key, k) then None else Find(es, k)
  {
    hide Equals, Ok, Find;
    var a, b := es[..j], es[j + 1..];
    assert PairOk(es[j]);
    Alike(es[j].key, key, k);
    assert es == a + [es[j]] + b;
    FindJoin(a, b, k);
    FindJoin(a + [es[j]], b, k);
    FindJoin(a, [es[j]], k);
    FindOne(es[j], k);
    if Equals(key, k) {
      forall i | 0 <= i < |es| && i != j ensures !Equals(es[i].key, k) {
        assert PairOk(es[i]) && !Equals(es[i].key, es[j].key);
        Alike(es[j].key, k, es[i].key);
      }
      FindNothing(a, k);
      FindNothing(b, k);
    }
  }

  // ----- maps -----

  ghost predicate IsMap(m: Datum) {
    m.MapBox? && Ok(m)
  }

  const EMPTY_MAP := MapBox(Empty, 0)

  function MapGet(m: Datum, key: Datum): Option<Datum>
    requires m.MapBox?
  {
    Get(m.root, KeyHash(key), key, 0)
  }

  lemma RootIsPlaced(m: Datum)
    requires IsMap(m)
    ensures m.MapBox? && (m.root.Empty? || WellPlaced(m.root, []))
  {
    hide WellPlaced, Entries;
  }

  lemma StartsAnywhere(hash: bv32)
    ensures OnPath(hash, [])
  {
  }

  function MapSet(m: Datum, key: Datum, value: Datum): Datum
    requires IsMap(m)
  {
    RootIsPlaced(m);
    hide *;
    StartsAnywhere(KeyHash(key));
    var (root, inserted) := Set(m.root, KeyHash(key), key, value, [], 0);
    MapBox(root, m.size + if inserted then 1 else 0)
  }

  lemma MapFacts(m: Datum, key: Datum)
    requires IsMap(m) && Ok(key)
    ensures RootOk(m.root) && m.size == |Entries(m.root)| && AllOk(Entries(m.root)) && Apart(Entries(m.root))
    ensures MapGet(m, key) == Find(Entries(m.root), key)
    ensures OnPath(KeyHash(key), [])
  {
    hide KeyHash, Equals, Find, Size, SizeTree, WellPlaced, Get;
    var n := SizeTree(m.root) + Size(key) + 1;
    LawsHold(n);
    MapEntries(m.root, n);
    LookupFinds(m.root, key, n);
  }

  function RootDelete(m: Datum, key: Datum): Deleted
    requires IsMap(m)
  {
    RootIsPlaced(m);
    hide *;
    StartsAnywhere(KeyHash(key));
    Delete(m.root, KeyHash(key), key, [], 0)
  }

  /** Only a map that holds something has an entry to remove. */
  lemma RemovedFromSome(m: Datum, key: Datum)
    requires IsMap(m) && Ok(key)
    ensures RootDelete(m, key).removed ==> m.size > 0
  {
    hide KeyHash, Equals, Find, Delete, Ok, OnPath, WellPlaced, Entries;
    MapFacts(m, key);
    var j := DeleteRemoves(m.root, key, []);
  }

  function MapDelete(m: Datum, key: Datum): (Datum, Option<Datum>, bool)
    requires IsMap(m) && Ok(key)
  {
    RemovedFromSome(m, key);
    hide RootDelete, Ok;
    var d := RootDelete(m, key);
    (if d.removed then MapBox(d.tree, m.size - 1) else m, d.value, d.removed)
  }

  lemma MapMade(root: Tree, size: nat)
    requires RootOk(root) && size == |Entries(root)|
    ensures IsMap(MapBox(root, size))
  {
    hide WellPlaced;
  }

  /** The size of a map is the number of its keys, no two of them equal; each is found with its value and nothing else is. */
  lemma MapIsFinite(m: Datum, key: Datum)
    requires IsMap(m) && Ok(key)
    ensures m.size == |Entries(m.root)| && Apart(Entries(m.root))
    ensures MapGet(m, key).Some? <==> exists i :: 0 <= i < |Entries(m.root)| && Equals(Entries(m.root)[i].key, key)
    ensures forall i | 0 <= i < |Entries(m.root)| && Equals(Entries(m.root)[i].key, key) :: MapGet(m, key) == Some(Entries(m.root)[i].value)
  {
    hide Equals, Find, Ok, KeyHash, Entries, MapGet;
    MapFacts(m, key);
    var es := Entries(m.root);
    if Find(es, key).Some? { var i := FoundAt(es, key); }
    forall i | 0 <= i < |es| && Equals(es[i].key, key) ensures Find(es, key) == Some(es[i].value) {
      forall k | 0 <= k < i ensures !Equals(es[k].key, key) {
        assert PairOk(es[i]) && PairOk(es[k]) && !Equals(es[k].key, es[i].key);
        Alike(es[i].key, key, es[k].key);
      }
      FindFirst(es, key, i);
    }
  }

  /** Setting a key changes what is found under equal keys and nothing else; the size grows when the key is new. */
  lemma SetRefines(m: Datum, key: Datum, value: Datum, k: Datum)
    requires IsMap(m) && Ok(key) && Ok(value) && Ok(k)
    ensures var u := MapSet(m, key, value);
            && IsMap(u) && MapGet(u, k) == (if Equals(key, k) then Some(value) else MapGet(m, k))
            && u.size == m.size + if MapGet(m, key).None? then 1 else 0
  {
    hide KeyHash, Equals, Find, Set, Ok, OnPath, WellPlaced, Entries, Updated;
    MapFacts(m, key);
    MapFacts(m, k);
    var j := SetUpdates(m.root, key, value, []);
    var (root, inserted) := Set(m.root, KeyHash(key), key, value, [], 0);
    UpdatedFinds(Entries(m.root), Entries(root), j, inserted, key, value, k);
    var u := MapSet(m, key, value);
    MapMade(root, u.size);
    MapFacts(u, k);
  }

  /** Deleting a key removes what is found under equal keys and nothing else, and hands it back. */
  lemma DeleteRefines(m: Datum, key: Datum, k: Datum)
    requires IsMap(m) && Ok(key) && Ok(k)
    ensures var (u, value, removed) := MapDelete(m, key);
            && IsMap(u) && value == MapGet(m, key) && (removed <==> value.Some?)
            && MapGet(u, k) == (if Equals(key, k) then None else MapGet(m, k))
            && u.size == m.size - if removed then 1 else 0
  {
    hide KeyHash, Equals, Find, Delete, Ok, WellPlaced, Entries, MapGet;
    MapFacts(m, key);
    MapFacts(m, k);
    var j := DeleteRemoves(m.root, key, []);
    var d := RootDelete(m, key);
    var es := Entries(m.root);
    if d.removed {
      RemovedFinds(es, j, key, k);
      DeletedWas(m, j, key);
      MapMade(d.tree, m.size - 1);
      MapFacts(MapBox(d.tree, m.size - 1), k);
    } else {
      if Equals(key, k) { FindAlike(es, key, k); }
    }
  }

  lemma DeletedWas(m: Datum, j: nat, key: Datum)
    requires IsMap(m) && Ok(key) && j < |Entries(m.root)| && Equals(Entries(m.root)[j].key, key)
    ensures MapGet(m, key) == Some(Entries(m.root)[j].value)
  {
    hide Equals, Ok, KeyHash, Entries, MapGet;
    MapIsFinite(m, key);
  }
}
