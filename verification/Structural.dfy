/** Runtime values as structural equality and hashing see them, and the hash trie that maps are made of. A map's keys and
    values may themselves hold maps, so equality, hashing and the trie are defined together. */
module Structural {
  import opened Values
  import opened HashBits

  datatype Datum =
    | Void
    | IntBox(v: int)
    | UintBox(u: nat)
      /** char, bool and string boxes: the tag, and the payload as a string */
    | Payload(kind: string, text: string)
    | ListBox(items: seq<Datum>)
    | TupleBox(items: seq<Datum>)
      /** structs and enum variants: the variant's tag, if there is one, and the structural shape */
    | Nominal(tag: Option<string>, identity: string, members: seq<Member>)
    | MapBox(root: Tree, size: nat)

  datatype Member = Member(name: string, value: Datum)
  datatype Pair = Pair(key: Datum, value: Datum)

  datatype Tree =
    | Empty
    | Leaf(hash: bv32, key: Datum, value: Datum)
    | Collision(hash: bv32, entries: seq<Pair>)
    | Bitmap(bitmap: bv32, children: seq<Tree>)

  // ----- sizes -----

  function Size(d: Datum): nat
    decreases d
  {
    match d
    case Void => 1
    case IntBox(_) => 1
    case UintBox(_) => 1
    case Payload(_, _) => 1
    case ListBox(items) => 1 + SizeAll(items)
    case TupleBox(items) => 1 + SizeAll(items)
    case Nominal(_, _, members) => 1 + SizeMembers(members)
    case MapBox(root, _) => 1 + SizeTree(root)
  }

  function SizeAll(items: seq<Datum>): nat
    decreases items
  {
    if |items| == 0 then 0 else Size(items[0]) + SizeAll(items[1..])
  }

  function SizeMembers(members: seq<Member>): nat
    decreases members
  {
    if |members| == 0 then 0 else Size(members[0].value) + SizeMembers(members[1..])
  }

  function SizePairs(entries: seq<Pair>): nat
    decreases entries
  {
    if |entries| == 0 then 0 else SizePair(entries[0]) + SizePairs(entries[1..])
  }

  function SizePair(p: Pair): nat
    decreases p
  {
    1 + Size(p.key) + Size(p.value)
  }

  function SizeTrees(trees: seq<Tree>): nat
    decreases trees
  {
    if |trees| == 0 then 0 else SizeTree(trees[0]) + SizeTrees(trees[1..])
  }

  function SizeTree(t: Tree): nat
    decreases t
  {
    match t
    case Empty => 0
    case Leaf(_, key, value) => 1 + Size(key) + Size(value)
    case Collision(_, entries) => 1 + SizePairs(entries)
    case Bitmap(_, children) => 1 + SizeTrees(children)
  }

  lemma {:induction false} SizeOfTree(trees: seq<Tree>, i: nat)
    requires i < |trees|
    ensures SizeTree(trees[i]) <= SizeTrees(trees)
    decreases trees
  {
    if i > 0 { SizeOfTree(trees[1..], i - 1); }
  }

  lemma {:induction false} SizeOfPair(entries: seq<Pair>, i: nat)
    requires i < |entries|
    ensures Size(entries[i].key) + Size(entries[i].value) < SizePairs(entries)
    decreases entries
  {
    if i > 0 { SizeOfPair(entries[1..], i - 1); }
  }

  lemma SizeOfRest(entries: seq<Pair>)
    requires |entries| > 0
    ensures SizePairs(entries[1..]) < SizePairs(entries)
    ensures Size(entries[0].key) + Size(entries[0].value) + SizePairs(entries[1..]) < SizePairs(entries)
  {}

  lemma {:induction false} SizeOfItem(items: seq<Datum>, i: nat)
    requires i < |items|
    ensures Size(items[i]) <= SizeAll(items)
    decreases items
  {
    if i > 0 { SizeOfItem(items[1..], i - 1); }
  }

  lemma {:induction false} SizeOfMember(members: seq<Member>, i: nat)
    requires i < |members|
    ensures Size(members[i].value) <= SizeMembers(members)
    decreases members
  {
    if i > 0 { SizeOfMember(members[1..], i - 1); }
  }

  lemma {:induction false} SizePairsJoin(a: seq<Pair>, b: seq<Pair>)
    ensures SizePairs(a + b) == SizePairs(a) + SizePairs(b)
    decreases |a|
  {
    if |a| == 0 {
      assert a + b == b;
    } else {
      SizePairsJoin(a[1..], b);
      assert (a + b)[1..] == a[1..] + b;
    }
  }

  // ----- the entries of a tree -----

  function Entries(t: Tree): (r: seq<Pair>)
    ensures SizePairs(r) <= SizeTree(t)
    decreases t
  {
    match t
    case Empty => []
    case Leaf(_, key, value) =>
      assert [Pair(key, value)][1..] == [];
      [Pair(key, value)]
    case Collision(_, entries) => entries
    case Bitmap(_, children) => EntriesAll(children)
  }

  function EntriesAll(trees: seq<Tree>): (r: seq<Pair>)
    ensures SizePairs(r) <= SizeTrees(trees)
    decreases trees
  {
    if |trees| == 0 then [] else
    SizePairsJoin(Entries(trees[0]), EntriesAll(trees[1..]));
    Entries(trees[0]) + EntriesAll(trees[1..])
  }

  // ----- hashing -----

  datatype Hash = Hash(lo: bv32, hi: bv32)

  function Shift15(x: bv32): bv32 {
    x >> 15
  }

  function Shift16(x: bv32): bv32 {
    x >> 16
  }

  function Xor32(a: bv32, b: bv32): bv32 {
    a ^ b
  }

  function Times(x: bv32): bv32 {
    x * 0x21f0aaad
  }

  function TimesNext(x: bv32): bv32 {
    x * 0x735a2d97
  }

  function Mix32(v0: bv32): bv32 {
    var v1 := Times(Xor32(v0, Shift16(v0)));
    var v2 := TimesNext(Xor32(v1, Shift15(v1)));
    Xor32(v2, Shift15(v2))
  }

  function CharCode(c: char): bv32 {
    (c as int % 0x10000) as bv32
  }

  function HashStringFrom(text: string, h: Hash): Hash
    decreases |text|
  {
    if |text| == 0 then h else
    HashStringFrom(text[1..], AddChar(h, text[0]))
  }

  function AddChar(h: Hash, c: char): Hash {
    Hash(Mix32(Xor32(h.lo, CharCode(c))), Mix32(Add32(h.hi, CharCode(c))))
  }

  function HashString(text: string): Hash {
    HashStringFrom(text, Hash(0x243f6a88, 0x85a308d3))
  }

  function HashOrderedFrom(hashes: seq<Hash>, h: Hash): Hash
    decreases |hashes|
  {
    if |hashes| == 0 then h else
    HashOrderedFrom(hashes[1..], AddHash(h, hashes[0]))
  }

  function AddHash(h: Hash, item: Hash): Hash {
    var lo := Mix32(Xor32(h.lo, item.lo));
    Hash(lo, Mix32(Xor32(Xor32(h.hi, item.hi), lo)))
  }

  function HashOrdered(seed: string, hashes: seq<Hash>): Hash {
    HashOrderedFrom(hashes, HashString(seed))
  }

  /** Running sums and exclusive ors of the mixed items, and how many there are. */
  datatype Sums = Sums(sumLo: bv32, sumHi: bv32, xorLo: bv32, xorHi: bv32, count: bv32)

  function Mixed(item: Hash): Hash {
    var lo := Mix32(item.lo ^ 0x9e3779b9);
    Hash(lo, Mix32(item.hi ^ lo))
  }

  function AddItem(s: Sums, item: Hash): Sums {
    AddMixed(s, Mixed(item))
  }

  function AddMixed(s: Sums, m: Hash): Sums {
    Sums(Add32(s.sumLo, m.lo), Add32(s.sumHi, m.hi), Xor32(s.xorLo, m.lo), Xor32(s.xorHi, m.hi), Add32(s.count, 1))
  }

  function Add32(a: bv32, b: bv32): bv32 {
    a + b
  }

  function SumItems(hashes: seq<Hash>, s: Sums): Sums
    decreases |hashes|
  {
    if |hashes| == 0 then s else SumItems(hashes[1..], AddItem(s, hashes[0]))
  }

  function HashUnordered(seed: string, hashes: seq<Hash>): Hash {
    var s := SumItems(hashes, Sums(0, 0, 0, 0, 0));
    HashOrdered(seed, [Hash(s.sumLo, s.sumHi), Hash(s.xorLo, s.xorHi), Hash(s.count, Mix32(s.count))])
  }

  function Word(magnitude: nat): bv32 {
    (magnitude % 0x1_0000_0000) as bv32
  }

  /** The 32-bit limbs of a magnitude, lowest first; zero has one. */
  function HashLimbs(magnitude: nat, h: Hash): Hash
    decreases magnitude
  {
    var lo := Mix32(Xor32(h.lo, Word(magnitude)));
    var next := Hash(lo, Mix32(h.hi ^ lo));
    if magnitude / 0x1_0000_0000 == 0 then next else HashLimbs(magnitude / 0x1_0000_0000, next)
  }

  function HashInteger(v: int): Hash {
    var h := HashLimbs(if v < 0 then -v else v, Hash(if v < 0 then 0x4f1bbcdc else 0x6a09e667, 0xbb67ae85));
    HashOrdered("integer", [h])
  }

  function HashOf(d: Datum): Hash
    decreases Size(d), 1
  {
    match d
    case Void => HashString("undefined:undefined")
    case IntBox(v) => HashInteger(v)
    case UintBox(u) => HashInteger(u)
    case Payload(kind, text) => HashOrdered(kind, [HashString(text)])
    case ListBox(items) => HashOrdered("list", HashesOf(items))
    case TupleBox(items) => HashOrdered("tuple", HashesOf(items))
    case Nominal(_, identity, members) => HashOrdered("nominal:" + identity, MemberHashes(members))
    case MapBox(root, _) => HashUnordered("map", EntryHashes(Entries(root)))
  }

  function HashesOf(items: seq<Datum>): (r: seq<Hash>)
    ensures |r| == |items|
    decreases SizeAll(items), 2, |items|
  {
    if |items| == 0 then [] else [HashOf(items[0])] + HashesOf(items[1..])
  }

  function MemberHashes(members: seq<Member>): (r: seq<Hash>)
    ensures |r| == |members|
    decreases SizeMembers(members), 2, |members|
  {
    if |members| == 0 then [] else
    [HashOrdered("field", [HashString(members[0].name), HashOf(members[0].value)])] + MemberHashes(members[1..])
  }

  function EntryHashes(entries: seq<Pair>): (r: seq<Hash>)
    ensures |r| == |entries|
    decreases SizePairs(entries), 2, |entries|
  {
    hide HashOf, HashesOf, MemberHashes, EntryHash, HashOrdered;
    if |entries| == 0 then [] else
    SizeOfPair(entries, 0);
    [EntryHash(HashOf(entries[0].key), HashOf(entries[0].value))] + EntryHashes(entries[1..])
  }

  function EntryHash(key: Hash, value: Hash): Hash {
    HashOrdered("entry", [key, value])
  }

  /** The pair packed into 64 bits and folded back into the 32 the trie uses. */
  function PackHash(h: Hash): bv64 {
    ((h.hi as bv64) << 32) | (h.lo as bv64)
  }

  function FoldHash(bits: bv64): bv32 {
    ((bits ^ (bits >> 32)) & 0xffff_ffff) as bv32
  }

  function KeyHash(d: Datum): bv32 {
    FoldHash(PackHash(HashOf(d)))
  }

  // ----- equality and lookup -----

  /** Structural equality. Identical objects compare equal without being looked into; that equality is reflexive
      (module StructuralLaws) shows the answer to be the same either way. */
  predicate Equals(a: Datum, b: Datum)
    decreases Size(a) + Size(b), 3
  {
    match (a, b)
    case (Void, Void) => true
    case (IntBox(v), IntBox(w)) => v == w
    case (UintBox(v), UintBox(w)) => v == w
    case (IntBox(v), UintBox(w)) => v == w && v >= 0
    case (UintBox(v), IntBox(w)) => v == w && v >= 0
    case (MapBox(root, size), MapBox(otherRoot, otherSize)) => size == otherSize && EntriesIn(Entries(root), otherRoot)
    case (ListBox(xs), ListBox(ys)) => |xs| == |ys| && EqualsAll(xs, ys)
    case (TupleBox(xs), TupleBox(ys)) => |xs| == |ys| && EqualsAll(xs, ys)
    case (Payload(k, s), Payload(l, t)) => k == l && s == t
    case (Nominal(tag, i, xs), Nominal(otherTag, j, ys)) => tag == otherTag && i == j && |xs| == |ys| && EqualsMembers(xs, ys)
    case _ => false
  }

  predicate EqualsAll(xs: seq<Datum>, ys: seq<Datum>)
    requires |xs| == |ys|
    decreases SizeAll(xs) + SizeAll(ys), 4, |xs|
  {
    |xs| == 0 || (Equals(xs[0], ys[0]) && EqualsAll(xs[1..], ys[1..]))
  }

  predicate EqualsMembers(xs: seq<Member>, ys: seq<Member>)
    requires |xs| == |ys|
    decreases SizeMembers(xs) + SizeMembers(ys), 4, |xs|
  {
    |xs| == 0 || (xs[0].name == ys[0].name && Equals(xs[0].value, ys[0].value) && EqualsMembers(xs[1..], ys[1..]))
  }

  /** Every entry is found in the other tree under an equal key, with an equal value. */
  predicate EntriesIn(entries: seq<Pair>, root: Tree)
    decreases SizePairs(entries) + SizeTree(root), 4, |entries|
  {
    |entries| == 0 ||
    (SizeOfPair(entries, 0);
     SizeOfRest(entries);
     var found := Get(root, KeyHash(entries[0].key), entries[0].key, 0);
     found.Some? && Equals(entries[0].value, found.value) && EntriesIn(entries[1..], root))
  }

  /** The first entry with an equal key. */
  function Find(entries: seq<Pair>, key: Datum): (r: Option<Datum>)
    ensures r.Some? ==> Size(r.value) <= SizePairs(entries)
    decreases SizePairs(entries) + Size(key), 5, |entries|
  {
    if |entries| == 0 then None else
    SizeOfPair(entries, 0);
    SizeOfRest(entries);
    if Equals(entries[0].key, key) then Some(entries[0].value) else Find(entries[1..], key)
  }

  /** The value under a key, level by level. */
  function Get(t: Tree, hash: bv32, key: Datum, level: nat): (r: Option<Datum>)
    ensures r.Some? ==> Size(r.value) <= SizeTree(t)
    decreases SizeTree(t) + Size(key), 5
  {
    match t
    case Empty => None
    case Leaf(h, k, v) => if h == hash && Equals(k, key) then Some(v) else None
    case Collision(h, entries) => if h != hash then None else Find(entries, key)
    case Bitmap(bitmap, children) =>
      var bit := OneBit(Chunk(hash, level));
      if Meet(bitmap, bit) == 0 then None else
      var index := Popcount(Meet(bitmap, Mask(bit))) as nat;
      if index < |children| then
        SizeOfTree(children, index);
        Get(children[index], hash, key, level + 1)
      else None
  }
}
