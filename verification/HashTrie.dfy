/** Building and shrinking the hash trie, and what a well-formed one looks like. */
module HashTrie {
  import opened Values
  import opened HashBits
  import opened Structural

  ghost predicate OnPath(h: bv32, path: seq<nat>) {
    forall k: nat | k < |path| :: Chunk(h, k) == path[k]
  }

  /** A value whose maps are all well-formed. */
  ghost predicate Ok(d: Datum)
    decreases d
  {
    match d
    case ListBox(items) => forall i | 0 <= i < |items| :: Ok(items[i])
    case TupleBox(items) => forall i | 0 <= i < |items| :: Ok(items[i])
    case Nominal(_, _, members) => forall i | 0 <= i < |members| :: Ok(members[i].value)
    case MapBox(root, size) => (root.Empty? || WellPlaced(root, [])) && size == |Entries(root)|
    case _ => true
  }

  ghost predicate PairOk(p: Pair)
    decreases p
  {
    Ok(p.key) && Ok(p.value)
  }

  /** A subtree reached by a path of chunks: every hash is that of its key and starts with the path; collisions hold at
      least two entries of one hash with pairwise unequal keys; a bitmap has one child for each set bit, in order. */
  ghost predicate WellPlaced(t: Tree, path: seq<nat>)
    decreases t
  {
    match t
    case Empty => false
    case Leaf(hash, key, value) => OnPath(hash, path) && hash == KeyHash(key) && Ok(key) && Ok(value)
    case Collision(hash, entries) =>
      && |entries| >= 2 && OnPath(hash, path)
      && (forall i | 0 <= i < |entries| :: PairOk(entries[i]) && KeyHash(entries[i].key) == hash)
      && Apart(entries)
    case Bitmap(bitmap, children) =>
      && |path| < LEVELS && |children| == CountBelow(bitmap, 32) > 0
      && (forall i: nat | i < 32 && BitAt(bitmap, i) ::
            CountBelow(bitmap, i) < |children| && WellPlaced(children[CountBelow(bitmap, i)], path + [i]))
  }

  /** No two entries have equal keys, whichever way round they are compared. */
  ghost predicate Apart(entries: seq<Pair>) {
    forall i, j | 0 <= i < |entries| && 0 <= j < |entries| && i != j :: !Equals(entries[i].key, entries[j].key)
  }

  // ----- the operations -----

  /** Two subtrees of different hashes under as many bitmaps as their hashes have chunks in common. It ends because two
      different hashes that agree on the path differ at a later chunk. */
  function Merge(left: Tree, leftHash: bv32, right: Tree, rightHash: bv32, level: nat): Tree
    requires leftHash != rightHash && level <= LEVELS && forall k: nat | k < level :: Chunk(leftHash, k) == Chunk(rightHash, k)
    decreases LEVELS - level
  {
    if level == LEVELS then ChunksDecide(leftHash, rightHash); Empty else
    var l, r := Chunk(leftHash, level), Chunk(rightHash, level);
    if l == r then Bitmap(OneBit(l), [Merge(left, leftHash, right, rightHash, level + 1)])
    else Bitmap(Union(OneBit(l), OneBit(r)), if l < r then [left, right] else [right, left])
  }

  function ChildIndex(bitmap: bv32, i: nat): nat
    requires i < 32
  {
    Popcount(Meet(bitmap, Mask(OneBit(i)))) as nat
  }

  function Insert<T>(s: seq<T>, i: nat, x: T): seq<T>
    requires i <= |s|
  {
    s[..i] + [x] + s[i..]
  }

  function Remove<T>(s: seq<T>, i: nat): seq<T>
    requires i < |s|
  {
    s[..i] + s[i + 1..]
  }

  /** Position of the first entry with an equal key. */
  function FindIndex(entries: seq<Pair>, key: Datum): (r: Option<nat>)
    ensures r.Some? ==> r.value < |entries| && Equals(entries[r.value].key, key)
    ensures r.Some? ==> forall j | 0 <= j < r.value :: !Equals(entries[j].key, key)
    ensures r.None? ==> forall j | 0 <= j < |entries| :: !Equals(entries[j].key, key)
    decreases |entries|
  {
    hide Equals;
    if |entries| == 0 then None
    else if Equals(entries[0].key, key) then Some(0)
    else var rest := FindIndex(entries[1..], key); if rest.None? then None else Some(rest.value + 1)
  }

  /** The child a hash leads to, or the place for it. */
  lemma ChildThere(t: Tree, hash: bv32, path: seq<nat>)
    requires t.Bitmap? && WellPlaced(t, path) && OnPath(hash, path)
    ensures |path| < LEVELS
    ensures var i := Chunk(hash, |path|); var index := ChildIndex(t.bitmap, i);
            if Meet(t.bitmap, OneBit(i)) == 0 then index <= |t.children|
            else index < |t.children| && WellPlaced(t.children[index], path + [i]) && OnPath(hash, path + [i])
  {
    hide Popcount, OneBit, Meet, Mask, Chunk, CountBelow, BitAt, KeyHash, Ok;
    var i := Chunk(hash, |path|);
    RankCounts(t.bitmap, i);
    BitTest(t.bitmap, i);
    CountGrows(t.bitmap, i, 32);
    forall k: nat | k < |path + [i]| ensures Chunk(hash, k) == (path + [i])[k] {}
  }

  function Set(t: Tree, hash: bv32, key: Datum, value: Datum, ghost path: seq<nat>, level: nat): (Tree, bool)
    requires t.Empty? || WellPlaced(t, path)
    requires OnPath(hash, path) && |path| == level && level <= LEVELS
    decreases t
  {
    match t
    case Empty => (Leaf(hash, key, value), true)
    case Leaf(h, k, v) =>
      if h == hash && Equals(k, key) then (Leaf(h, k, value), false)
      else if h == hash then (Collision(hash, [Pair(k, v), Pair(key, value)]), true)
      else (Merge(t, h, Leaf(hash, key, value), hash, level), true)
    case Collision(h, entries) =>
      if h != hash then (Merge(t, h, Leaf(hash, key, value), hash, level), true) else
      var i := FindIndex(entries, key);
      if i.Some? then (Collision(h, entries[i.value := Pair(key, value)]), false)
      else (Collision(h, entries + [Pair(key, value)]), true)
    case Bitmap(bitmap, children) =>
      var i := Chunk(hash, level);
      var index := ChildIndex(bitmap, i);
      ChildThere(t, hash, path);
      if Meet(bitmap, OneBit(i)) == 0 then
        (Bitmap(Union(bitmap, OneBit(i)), Insert(children, index, Leaf(hash, key, value))), true)
      else
        var (child, inserted) := Set(children[index], hash, key, value, path + [i], level + 1);
        (Bitmap(bitmap, children[index := child]), inserted)
  }

  datatype Deleted = Deleted(tree: Tree, value: Option<Datum>, removed: bool)

  /** What becomes of a bitmap when a child has been searched: unchanged, with the child rebuilt, or without it. A single
      leaf or collision left over moves up; a single bitmap stays. */
  function AfterDelete(t: Tree, i: nat, index: nat, child: Deleted): Deleted
    requires t.Bitmap? && index < |t.children| && i < 32
  {
    if !child.removed then Deleted(t, None, false)
    else if child.tree.Empty? then
      var rest := Remove(t.children, index);
      if |rest| == 0 then Deleted(Empty, child.value, true)
      else if |rest| == 1 && !rest[0].Bitmap? then Deleted(rest[0], child.value, true)
      else Deleted(Bitmap(Without(t.bitmap, OneBit(i)), rest), child.value, true)
    else Deleted(Bitmap(t.bitmap, t.children[index := child.tree]), child.value, true)
  }

  function Delete(t: Tree, hash: bv32, key: Datum, ghost path: seq<nat>, level: nat): Deleted
    requires t.Empty? || WellPlaced(t, path)
    requires OnPath(hash, path) && |path| == level && level <= LEVELS
    decreases t
  {
    match t
    case Empty => Deleted(Empty, None, false)
    case Leaf(h, k, v) => if h == hash && Equals(k, key) then Deleted(Empty, Some(v), true) else Deleted(t, None, false)
    case Collision(h, entries) =>
      if h != hash then Deleted(t, None, false) else
      var i := FindIndex(entries, key);
      if i.None? then Deleted(t, None, false) else
      var value := entries[i.value].value;
      var rest := Remove(entries, i.value);
      if |rest| == 1 then Deleted(Leaf(hash, rest[0].key, rest[0].value), Some(value), true)
      else Deleted(Collision(h, rest), Some(value), true)
    case Bitmap(bitmap, children) =>
      var i := Chunk(hash, level);
      var index := ChildIndex(bitmap, i);
      ChildThere(t, hash, path);
      if Meet(bitmap, OneBit(i)) == 0 then Deleted(t, None, false) else
      AfterDelete(t, i, index, Delete(children[index], hash, key, path + [i], level + 1))
  }
}
