/** The persistent vector: a 32-way trie of full leaves with a tail. Every operation is proved to give the one canonical
    vector of the items it should hold, so however a vector was made, its shift, root and tail are the same. */
module PersistentVector {
  import opened Values

  const WIDTH := 32

  /** A leaf of items or a branch; the leaves of the trie are all full. */
  datatype Node<T> = Leaf(items: seq<T>) | Branch(children: seq<Node<T>>)

  /** `height` is the shift divided by the five bits of a level: the branches on the way from the root to a leaf. */
  datatype Vector<T> = Vector(count: nat, height: nat, root: Node<T>, tail: seq<T>)

  function TailOffset(count: nat): (r: nat)
    ensures r <= count && r % WIDTH == 0 && count - r <= WIDTH && (count > 0 ==> r < count)
  {
    if count < WIDTH then 0 else (count - 1) / WIDTH * WIDTH
  }

  /** `i >>> 5 * level`, a shift of five bits at a time. */
  function Up(i: nat, level: nat): nat
    decreases level
  {
    if level == 0 then i else Up(i / WIDTH, level - 1)
  }

  /** `(i >>> 5 * level) & 31`. */
  function Digit(i: nat, level: nat): (r: nat)
    ensures r < WIDTH
  {
    Up(i, level) % WIDTH
  }

  /** `1 << 5 * level`. */
  function Power(level: nat): (r: nat)
    ensures r > 0
    decreases level
  {
    if level == 0 then 1 else WIDTH * Power(level - 1)
  }

  // ----- the canonical vector of a sequence -----

  function Min(a: nat, b: nat): nat {
    if a < b then a else b
  }

  /** Branches over up to 32 nodes each, all full but perhaps the last. */
  function Chunks<T>(nodes: seq<Node<T>>): (r: seq<Node<T>>)
    ensures |r| == (|nodes| + 31) / WIDTH
    ensures forall j | 0 <= j < |r| :: WIDTH * j < |nodes| && r[j] == Branch(nodes[WIDTH * j..Min(WIDTH * j + WIDTH, |nodes|)])
  {
    seq((|nodes| + 31) / WIDTH, j requires 0 <= j < (|nodes| + 31) / WIDTH => Branch(nodes[WIDTH * j..Min(WIDTH * j + WIDTH, |nodes|)]))
  }

  function Level<T>(nodes: seq<Node<T>>, level: nat): seq<Node<T>>
    decreases level
  {
    if level == 0 then nodes else Chunks(Level(nodes, level - 1))
  }

  /** The first height at which one branch holds everything. */
  function Grow<T>(nodes: seq<Node<T>>, height: nat): (r: (nat, Node<T>))
    ensures r.0 >= height
    decreases |nodes|
  {
    if |nodes| <= WIDTH then (height, Branch(nodes)) else Grow(Chunks(nodes), height + 1)
  }

  function LeavesOf<T>(items: seq<T>): (r: seq<Node<T>>)
    ensures |r| == TailOffset(|items|) / WIDTH
    ensures forall j | 0 <= j < |r| :: WIDTH * j + WIDTH <= |items| && r[j] == Leaf(items[WIDTH * j..WIDTH * j + WIDTH])
  {
    seq(TailOffset(|items|) / WIDTH, j requires 0 <= j < TailOffset(|items|) / WIDTH => Leaf(items[WIDTH * j..WIDTH * j + WIDTH]))
  }

  /** Full leaves, the smallest height that holds them, and a tail of 1 to 32 items unless there are none at all. */
  function Canonical<T>(items: seq<T>): (r: Vector<T>)
    ensures r.height > 0 && |r.tail| <= r.count
  {
    var (height, root) := Grow(LeavesOf(items), 1);
    Vector(|items|, height, root, items[TailOffset(|items|)..])
  }

  // ----- the operations -----

  function NewPath<T>(level: nat, node: Node<T>): Node<T>
    decreases level
  {
    if level == 0 then node else Branch([NewPath(level - 1, node)])
  }

  /** An element past the end of an array is appended. */
  function Assign<T>(s: seq<T>, i: nat, x: T): seq<T> {
    if i < |s| then s[i := x] else s + [x]
  }

  /** Copy the path to the next free leaf place and put the tail there. */
  function PushTail<T>(level: nat, parent: Node<T>, tail: Node<T>, count: nat): Node<T>
    requires level > 0 && count > 0
    decreases level
  {
    if parent.Leaf? then parent else
    var index := Digit(count - 1, level);
    var child := if level == 1 then tail
                 else PushTail(level - 1, if index < |parent.children| then parent.children[index] else Branch([]), tail, count);
    Branch(Assign(parent.children, index, child))
  }

  function Assoc<T>(level: nat, node: Node<T>, index: nat, value: T): Node<T>
    decreases level
  {
    if level == 0 then
      (if node.Leaf? && index % WIDTH < |node.items| then Leaf(node.items[index % WIDTH := value]) else node)
    else
      var child := Digit(index, level);
      if node.Branch? && child < |node.children| then Branch(node.children[child := Assoc(level - 1, node.children[child], index, value)]) else node
  }

  /** The node reached from a branch by the digits of an index. */
  function Walk<T>(level: nat, node: Node<T>, index: nat): Option<Node<T>>
    decreases level
  {
    if level == 0 then Some(node)
    else if node.Leaf? || Digit(index, level) >= |node.children| then None
    else Walk(level - 1, node.children[Digit(index, level)], index)
  }

  function Get<T>(v: Vector<T>, index: int): Option<T> {
    if index < 0 || index >= v.count then None
    else if index >= TailOffset(v.count) then (if index % WIDTH < |v.tail| then Some(v.tail[index % WIDTH]) else None)
    else match Walk(v.height, v.root, index)
         case Some(Leaf(items)) => if index % WIDTH < |items| then Some(items[index % WIDTH]) else None
         case _ => None
  }

  function Append<T>(v: Vector<T>, value: T): Vector<T>
    requires v.height > 0 && |v.tail| <= v.count
  {
    if |v.tail| < WIDTH then v.(count := v.count + 1, tail := v.tail + [value])
    else if v.count / WIDTH > Power(v.height) then
      Vector(v.count + 1, v.height + 1, Branch([v.root, NewPath(v.height, Leaf(v.tail))]), [value])
    else Vector(v.count + 1, v.height, PushTail(v.height, v.root, Leaf(v.tail), v.count), [value])
  }

  function Replace<T>(v: Vector<T>, index: int, value: T): Option<Vector<T>> {
    if index < 0 || index >= v.count then None
    else if index >= TailOffset(v.count) then
      (if index % WIDTH < |v.tail| then Some(v.(tail := v.tail[index % WIDTH := value])) else Some(v))
    else Some(v.(root := Assoc(v.height, v.root, index, value)))
  }

  // ----- arithmetic of levels -----

  lemma {:induction false} UpStep(i: nat, level: nat)
    ensures Up(i, level + 1) == Up(i, level) / WIDTH
    decreases level
  {
    if level > 0 { UpStep(i / WIDTH, level - 1); }
  }

  /** Nothing is left of an index above the levels that hold it. */
  lemma {:induction false} UpPower(i: nat, level: nat)
    ensures Up(i, level) >= 1 <==> i >= Power(level)
    decreases level
  {
    if level > 0 { UpPower(i / WIDTH, level - 1); }
  }

  lemma {:induction false} UpGrows(i: nat, j: nat, level: nat)
    requires i <= j
    ensures Up(i, level) <= Up(j, level)
    decreases level
  {
    if level > 0 { UpGrows(i / WIDTH, j / WIDTH, level - 1); }
  }

  /** How many nodes a level has. */
  lemma {:induction false} LevelCount<T>(nodes: seq<Node<T>>, level: nat)
    ensures Up(|nodes|, level) <= |Level(nodes, level)| <= Up(|nodes|, level) + 1
    ensures |nodes| > 0 ==> |Level(nodes, level)| == Up(|nodes| - 1, level) + 1
    decreases level
  {
    if level > 0 {
      LevelCount(nodes, level - 1);
      UpStep(|nodes|, level - 1);
      if |nodes| > 0 { UpStep(|nodes| - 1, level - 1); }
    }
  }

  lemma {:induction false} LevelsCompose<T>(nodes: seq<Node<T>>, level: nat)
    ensures Level(Chunks(nodes), level) == Level(nodes, level + 1)
    decreases level
  {
    if level > 0 { LevelsCompose(nodes, level - 1); }
  }

  /** Growing stops at the first level of at most 32 nodes. */
  lemma {:induction false} GrowIs<T>(nodes: seq<Node<T>>, height: nat, extra: nat)
    requires |Level(nodes, extra)| <= WIDTH && (extra > 0 ==> |Level(nodes, extra - 1)| > WIDTH)
    ensures Grow(nodes, height) == (height + extra, Branch(Level(nodes, extra)))
    decreases extra
  {
    if extra > 0 {
      LevelShrinks(nodes, extra - 1);
      LevelsCompose(nodes, extra - 1);
      if extra > 1 { LevelsCompose(nodes, extra - 2); }
      GrowIs(Chunks(nodes), height + 1, extra - 1);
    }
  }

  lemma {:induction false} LevelShrinks<T>(nodes: seq<Node<T>>, level: nat)
    ensures |Level(nodes, level)| <= |nodes|
    decreases level
  {
    if level > 0 { LevelShrinks(nodes, level - 1); }
  }

  lemma {:induction false} GrowFinds<T>(nodes: seq<Node<T>>, height: nat) returns (extra: nat)
    ensures |Level(nodes, extra)| <= WIDTH && (extra > 0 ==> |Level(nodes, extra - 1)| > WIDTH)
    ensures Grow(nodes, height) == (height + extra, Branch(Level(nodes, extra)))
    decreases |nodes|
  {
    if |nodes| <= WIDTH {
      extra := 0;
    } else {
      var rest := GrowFinds(Chunks(nodes), height + 1);
      LevelsCompose(nodes, rest);
      if rest > 0 { LevelsCompose(nodes, rest - 1); }
      extra := rest + 1;
    }
  }

  // ----- one more leaf -----

  lemma LevelStep<T>(nodes: seq<Node<T>>, level: nat)
    requires level > 0
    ensures Level(nodes, level) == Chunks(Level(nodes, level - 1))
  {}

  lemma FullChunk<T>(nodes: seq<Node<T>>, j: nat)
    requires WIDTH * j + WIDTH <= |nodes|
    ensures j < |Chunks(nodes)| && Chunks(nodes)[j] == Branch(nodes[WIDTH * j..WIDTH * j + WIDTH])
  {}

  /** Equal full nodes below give equal nodes above. */
  lemma ChunksAgree<T>(a: seq<Node<T>>, b: seq<Node<T>>, m: nat, above: nat)
    requires m <= |a| && m <= |b| && a[..m] == b[..m] && above == m / WIDTH
    ensures above <= |Chunks(a)| && above <= |Chunks(b)| && Chunks(a)[..above] == Chunks(b)[..above]
  {
    forall j | 0 <= j < above ensures j < |Chunks(a)| && j < |Chunks(b)| && Chunks(a)[j] == Chunks(b)[j] {
      FullChunk(a, j);
      FullChunk(b, j);
      SamePrefix(a, b, m, WIDTH * j, WIDTH * j + WIDTH);
    }
  }

  /** One more leaf changes at most one node of each level, the one its position leads to. */
  lemma {:induction false} LevelAppend<T>(nodes: seq<Node<T>>, x: Node<T>, level: nat)
    ensures var fewer, more, m := Level(nodes, level), Level(nodes + [x], level), Up(|nodes|, level);
            |more| == m + 1 && m <= |fewer| && more[..m] == fewer[..m]
    decreases level
  {
    hide Level, Up, Chunks;
    LevelCount(nodes + [x], level);
    LevelCount(nodes, level);
    if level == 0 {
      LevelZero(nodes);
      LevelZero(nodes + [x]);
    } else {
      LevelAppend(nodes, x, level - 1);
      UpStep(|nodes|, level - 1);
      LevelStep(nodes, level);
      LevelStep(nodes + [x], level);
      ChunksAgree(Level(nodes + [x], level - 1), Level(nodes, level - 1), Up(|nodes|, level - 1), Up(|nodes|, level));
    }
  }

  lemma LevelZero<T>(nodes: seq<Node<T>>)
    ensures Level(nodes, 0) == nodes && Up(|nodes|, 0) == |nodes|
  {}

  lemma SamePrefix<T>(a: seq<T>, b: seq<T>, m: nat, i: nat, j: nat)
    requires m <= |a| && m <= |b| && a[..m] == b[..m] && i <= j <= m
    ensures a[i..j] == b[i..j]
  {
    forall k | i <= k < j ensures a[k] == b[k] {
      assert a[k] == a[..m][k] == b[..m][k];
    }
  }

  /** The part of a level that one branch above covers. */
  function Under<T>(nodes: seq<Node<T>>, j: nat): seq<Node<T>> {
    if WIDTH * j <= |nodes| then nodes[WIDTH * j..Min(WIDTH * j + WIDTH, |nodes|)] else []
  }

  lemma UnderTo<T>(nodes: seq<Node<T>>, m: nat, j: nat)
    requires WIDTH * j <= m < WIDTH * j + WIDTH && m <= |nodes| <= m + 1
    ensures Under(nodes, j) == nodes[WIDTH * j..m] + if m < |nodes| then [nodes[m]] else []
  {}

  /** The next free place among the children a branch covers. */
  lemma NextPlace<T>(fewer: seq<Node<T>>, more: seq<Node<T>>, m: nat, j: nat, index: nat)
    requires m == WIDTH * j + index && index < WIDTH && m <= |fewer| <= m + 1 && |more| == m + 1 && more[..m] == fewer[..m]
    ensures |Under(fewer, j)| >= index && (index < |Under(fewer, j)| <==> m < |fewer|)
    ensures index < |Under(fewer, j)| ==> Under(fewer, j)[index] == fewer[m]
    ensures Under(more, j) == Assign(Under(fewer, j), index, more[m])
  {
    hide Under;
    SamePrefix(more, fewer, m, WIDTH * j, m);
    UnderTo(more, m, j);
    UnderTo(fewer, m, j);
    PlaceAfter(fewer[WIDTH * j..m], if m < |fewer| then [fewer[m]] else [], more[m]);
  }

  lemma PlaceAfter<T>(front: seq<T>, last: seq<T>, x: T)
    requires |last| <= 1
    ensures Assign(front + last, |front|, x) == front + [x]
  {}

  lemma PushStep<T>(level: nat, children: seq<Node<T>>, tail: Node<T>, count: nat)
    requires level > 0 && count > 0
    ensures var index := Digit(count - 1, level);
            PushTail(level, Branch(children), tail, count) ==
            Branch(Assign(children, index, if level == 1 then tail
                   else PushTail(level - 1, if index < |children| then children[index] else Branch([]), tail, count)))
  {}

  /** The items below the last digit do not matter. */
  lemma LeafDigit(count: nat, leaves: nat, level: nat)
    requires level > 0 && count == WIDTH * leaves + WIDTH
    ensures Digit(count - 1, level) == Up(leaves, level - 1) % WIDTH
  {
    assert (count - 1) / WIDTH == leaves;
  }

  lemma AtMostOneMore<T>(leaves: seq<Node<T>>, level: nat)
    ensures Up(|leaves|, level) <= |Level(leaves, level)| <= Up(|leaves|, level) + 1
  {
    LevelCount(leaves, level);
  }

  /** Pushing into the branch that covers the next free leaf place gives that branch of the longer list. */
  lemma {:induction false} PushesUnder<T>(leaves: seq<Node<T>>, x: Node<T>, level: nat, count: nat)
    requires level > 0 && count == WIDTH * |leaves| + WIDTH
    ensures var j := Up(|leaves|, level);
            PushTail(level, Branch(Under(Level(leaves, level - 1), j)), x, count) == Branch(Under(Level(leaves + [x], level - 1), j))
    decreases level
  {
    hide Level, Up, PushTail, Under, Assign, Digit;
    var fewer, more, m, j := Level(leaves, level - 1), Level(leaves + [x], level - 1), Up(|leaves|, level - 1), Up(|leaves|, level);
    UpStep(|leaves|, level - 1);
    LeafDigit(count, |leaves|, level);
    LevelAppend(leaves, x, level - 1);
    AtMostOneMore(leaves, level - 1);
    var index := m % WIDTH;
    NextPlace(fewer, more, m, j, index);
    PushStep(level, Under(fewer, j), x, count);
    if level == 1 {
      LevelZero(leaves + [x]);
      LevelZero(leaves);
    } else {
      PushesUnder(leaves, x, level - 1, count);
      LowerBranch(leaves, level, m);
      NewBranch(leaves, x, level, m);
    }
  }

  /** The branch at position `m` of a level, if it exists yet, covers the level below. */
  lemma LowerBranch<T>(leaves: seq<Node<T>>, level: nat, m: nat)
    requires level > 1 && m == Up(|leaves|, level - 1)
    ensures m < |Level(leaves, level - 1)| ==> Level(leaves, level - 1)[m] == Branch(Under(Level(leaves, level - 2), m))
    ensures m >= |Level(leaves, level - 1)| ==> Under(Level(leaves, level - 2), m) == []
  {
    LevelCount(leaves, level - 2);
    UpStep(|leaves|, level - 2);
  }

  lemma NewBranch<T>(leaves: seq<Node<T>>, x: Node<T>, level: nat, m: nat)
    requires level > 1 && m == Up(|leaves|, level - 1)
    ensures m < |Level(leaves + [x], level - 1)| && Level(leaves + [x], level - 1)[m] == Branch(Under(Level(leaves + [x], level - 2), m))
  {
    hide Level, Up, Chunks, Under;
    LevelAppend(leaves, x, level - 1);
    LevelStep(leaves + [x], level - 1);
    ChunkIs(Level(leaves + [x], level - 2), m);
  }

  lemma ChunkIs<T>(nodes: seq<Node<T>>, m: nat)
    requires m < |Chunks(nodes)|
    ensures Chunks(nodes)[m] == Branch(Under(nodes, m))
  {}

  /** Every branch above is full: the leaves fill whole levels. */
  ghost predicate FilledUp(leaves: nat, level: nat) {
    forall k: nat | 0 < k <= level :: Up(leaves, k - 1) == WIDTH * Up(leaves, k)
  }

  lemma {:induction false} FilledCount<T>(leaves: seq<Node<T>>, level: nat)
    requires FilledUp(|leaves|, level)
    ensures |Level(leaves, level)| == Up(|leaves|, level)
    decreases level
  {
    hide Level, Up;
    LevelZero(leaves);
    if level > 0 {
      FilledCount(leaves, level - 1);
      LevelStep(leaves, level);
      assert Up(|leaves|, level - 1) == WIDTH * Up(|leaves|, level);
      hide Chunks;
      ChunkCount(Level(leaves, level - 1), Up(|leaves|, level));
    }
  }

  lemma ChunkCount<T>(nodes: seq<Node<T>>, n: nat)
    requires |nodes| == WIDTH * n
    ensures |Chunks(nodes)| == n
  {}

  /** The last node of a level that has just been opened is a bare path to the new leaf. */
  lemma {:induction false} OpensPath<T>(leaves: seq<Node<T>>, x: Node<T>, level: nat)
    requires FilledUp(|leaves|, level)
    ensures Level(leaves + [x], level) == Level(leaves, level) + [NewPath(level, x)]
    decreases level
  {
    hide Level, Up, Chunks;
    LevelZero(leaves);
    LevelZero(leaves + [x]);
    if level > 0 {
      OpensPath(leaves, x, level - 1);
      FilledCount(leaves, level - 1);
      LevelStep(leaves, level);
      LevelStep(leaves + [x], level);
      LastChunkOpens(Level(leaves, level - 1), NewPath(level - 1, x), Up(|leaves|, level));
    }
  }

  lemma LastChunkOpens<T>(nodes: seq<Node<T>>, x: Node<T>, m: nat)
    requires |nodes| == WIDTH * m
    ensures Chunks(nodes + [x]) == Chunks(nodes) + [Branch([x])]
  {
    var above := nodes + [x];
    ChunksAgree(above, nodes, |nodes|, m);
    assert above[WIDTH * m..WIDTH * m + 1] == [x];
    assert Chunks(above)[m] == Branch([x]);
  }

  // ----- append -----

  lemma TailGrows(n: nat)
    ensures n - TailOffset(n) < WIDTH ==> TailOffset(n + 1) == TailOffset(n)
    ensures n - TailOffset(n) == WIDTH ==> TailOffset(n + 1) == n && n == TailOffset(n) + WIDTH
  {}

  lemma SameLeaves<T>(items: seq<T>, x: T)
    requires TailOffset(|items| + 1) == TailOffset(|items|)
    ensures LeavesOf(items + [x]) == LeavesOf(items)
  {
    var a, b := LeavesOf(items + [x]), LeavesOf(items);
    forall j | 0 <= j < |b| ensures a[j] == b[j] {
      assert (items + [x])[WIDTH * j..WIDTH * j + WIDTH] == items[WIDTH * j..WIDTH * j + WIDTH];
    }
  }

  lemma OneMoreLeaf<T>(items: seq<T>, x: T)
    requires |items| - TailOffset(|items|) == WIDTH
    ensures LeavesOf(items + [x]) == LeavesOf(items) + [Leaf(items[TailOffset(|items|)..])]
    ensures |items| == WIDTH * |LeavesOf(items)| + WIDTH
  {
    TailGrows(|items|);
    var a, b := LeavesOf(items + [x]), LeavesOf(items) + [Leaf(items[TailOffset(|items|)..])];
    assert |a| == |b|;
    forall j | 0 <= j < |a| ensures a[j] == b[j] {
      assert (items + [x])[WIDTH * j..WIDTH * j + WIDTH] == items[WIDTH * j..WIDTH * j + WIDTH];
    }
  }

  lemma WholeUnder<T>(nodes: seq<Node<T>>)
    requires |nodes| <= WIDTH
    ensures Under(nodes, 0) == nodes
  {}

  /** There is room: no level gains a node beyond the root's. */
  lemma RoomLeft<T>(leaves: seq<Node<T>>, x: Node<T>, extra: nat, count: nat)
    requires count == WIDTH * |leaves| + WIDTH && Up(|leaves|, extra + 1) == 0
    requires |Level(leaves, extra)| <= WIDTH && (extra > 0 ==> |Level(leaves, extra - 1)| > WIDTH)
    ensures Grow(leaves + [x], 1) == (extra + 1, PushTail(extra + 1, Branch(Level(leaves, extra)), x, count))
  {
    hide Level, Up, PushTail, Grow, Under;
    LevelAppend(leaves, x, extra);
    UpStep(|leaves|, extra);
    if extra > 0 {
      LevelAppend(leaves, x, extra - 1);
      AtMostOneMore(leaves, extra - 1);
    }
    GrowIs(leaves + [x], 1, extra);
    PushesUnder(leaves, x, extra + 1, count);
    WholeUnder(Level(leaves, extra));
    WholeUnder(Level(leaves + [x], extra));
  }

  lemma {:induction false} FullLevels(leaves: nat, level: nat)
    requires leaves > 0 && Up(leaves - 1, level) < Up(leaves, level)
    ensures FilledUp(leaves, level)
    decreases level
  {
    if level > 0 {
      UpStep(leaves, level - 1);
      UpStep(leaves - 1, level - 1);
      Neighbours(leaves - 1, level - 1);
      FullLevels(leaves, level - 1);
    }
  }

  lemma {:induction false} Neighbours(i: nat, level: nat)
    ensures Up(i, level) <= Up(i + 1, level) <= Up(i, level) + 1
    decreases level
  {
    if level > 0 {
      UpStep(i, level - 1);
      UpStep(i + 1, level - 1);
      Neighbours(i, level - 1);
    }
  }

  /** The trie is full: it becomes the first child of a new root beside a path to the new leaf. */
  lemma RootOverflows<T>(leaves: seq<Node<T>>, x: Node<T>, extra: nat)
    requires Up(|leaves|, extra + 1) >= 1
    requires |Level(leaves, extra)| <= WIDTH && (extra > 0 ==> |Level(leaves, extra - 1)| > WIDTH)
    ensures Grow(leaves + [x], 1) == (extra + 2, Branch([Branch(Level(leaves, extra)), NewPath(extra + 1, x)]))
  {
    hide Level, Up, Grow, FilledUp;
    UpStep(|leaves|, extra);
    LevelCount(leaves, extra);
    if |leaves| == 0 { UpOfZero(extra + 1); }
    FullLevels(|leaves|, extra);
    OpensPath(leaves, x, extra);
    var full, grown := Level(leaves, extra), Level(leaves + [x], extra);
    LastChunkOpens(full, NewPath(extra, x), 1);
    OneFullChunk(full);
    LevelStep(leaves + [x], extra + 1);
    assert Level(leaves + [x], extra + 1) == [Branch(full), NewPath(extra + 1, x)];
    GrowIs(leaves + [x], 1, extra + 1);
  }

  lemma {:induction false} UpOfZero(level: nat)
    ensures Up(0, level) == 0
    decreases level
  {
    if level > 0 { UpOfZero(level - 1); }
  }

  lemma OneFullChunk<T>(nodes: seq<Node<T>>)
    requires |nodes| == WIDTH
    ensures Chunks(nodes) == [Branch(nodes)]
  {
    FullChunk(nodes, 0);
    assert nodes[0..WIDTH] == nodes;
  }

  /** Appending to the vector of a sequence gives the vector of the longer sequence. */
  lemma AppendIsCanonical<T>(items: seq<T>, x: T)
    ensures Append(Canonical(items), x) == Canonical(items + [x])
  {
    hide Grow, PushTail, LeavesOf, NewPath, Power;
    var v, leaves := Canonical(items), LeavesOf(items);
    var extra := GrowFinds(leaves, 1);
    TailGrows(|items|);
    if |v.tail| < WIDTH {
      SameLeaves(items, x);
      assert (items + [x])[TailOffset(|items|)..] == items[TailOffset(|items|)..] + [x];
    } else {
      OneMoreLeaf(items, x);
      assert (items + [x])[|items|..] == [x];
      UpPower(|leaves|, extra + 1);
      if Up(|leaves|, extra + 1) >= 1 {
        RootOverflows(leaves, Leaf(v.tail), extra);
      } else {
        RoomLeft(leaves, Leaf(v.tail), extra, v.count);
      }
    }
  }

  // ----- the height of a vector -----

  lemma LevelSize<T>(nodes: seq<Node<T>>, level: nat)
    requires level > 0
    ensures |Level(nodes, level)| == (|Level(nodes, level - 1)| + 31) / WIDTH
  {}

  lemma RoundedUp(n: nat, k: nat)
    ensures (n + 31) / WIDTH <= k <==> n <= WIDTH * k
  {}

  /** Leaves under `k` nodes of a level. */
  function Room(k: nat, level: nat): nat {
    k * Power(level)
  }

  lemma RoomOfLevel(k: nat, level: nat)
    ensures Room(k, 0) == k && Room(WIDTH, level) == Power(level + 1)
    ensures level > 0 ==> Room(WIDTH * k, level - 1) == Room(k, level)
  {
    if level > 0 {
      var p := Power(level - 1);
      assert WIDTH * k * p == k * (WIDTH * p);
    }
  }

  lemma {:induction false} LevelFits<T>(nodes: seq<Node<T>>, level: nat, k: nat)
    ensures |Level(nodes, level)| <= k <==> |nodes| <= Room(k, level)
    decreases level
  {
    hide Room, Level;
    RoomOfLevel(k, level);
    if level == 0 {
      LevelZero(nodes);
    } else {
      LevelSize(nodes, level);
      RoundedUp(|Level(nodes, level - 1)|, k);
      LevelFits(nodes, level - 1, WIDTH * k);
    }
  }

  /** The height is the smallest whose trie has room for the leaves, and never zero. */
  lemma HeightIsSmallest<T>(items: seq<T>)
    ensures var h, leaves := Canonical(items).height, |LeavesOf(items)|;
            leaves <= Power(h) && (h > 1 ==> Power(h - 1) < leaves)
  {
    hide Grow, Level, LeavesOf, Room, Power;
    var leaves := LeavesOf(items);
    var extra := GrowFinds(leaves, 1);
    LevelFits(leaves, extra, WIDTH);
    RoomOfLevel(WIDTH, extra);
    if extra > 0 {
      LevelFits(leaves, extra - 1, WIDTH);
      RoomOfLevel(WIDTH, extra - 1);
    }
  }

  /** Appending makes a vector higher exactly when its tail is full and its trie has no room for one more leaf; the
      test on the count and the shift finds out. */
  lemma HeightRisesWhenFull<T>(items: seq<T>, x: T)
    ensures var v, leaves := Canonical(items), |LeavesOf(items)|;
            var full := |v.tail| == WIDTH && leaves == Power(v.height);
            && Canonical(items + [x]).height == v.height + (if full then 1 else 0)
            && (|v.tail| == WIDTH ==> (v.count / WIDTH > Power(v.height) <==> full))
  {
    hide Grow, PushTail, LeavesOf, Canonical, Power;
    AppendIsCanonical(items, x);
    HeightIsSmallest(items);
    CountOfLeaves(items);
  }

  lemma CountOfLeaves<T>(items: seq<T>)
    ensures var v := Canonical(items);
            v.count == |items| && |v.tail| <= WIDTH && |items| == WIDTH * |LeavesOf(items)| + |v.tail|
  {
    hide Grow;
  }

  /** Appending the items one by one, from empty, gives their canonical vector. */
  function AppendAll<T>(items: seq<T>): (r: Vector<T>)
    ensures r == Canonical(items)
    decreases |items|
  {
    if |items| == 0 then Canonical([]) else
    AppendIsCanonical(items[..|items| - 1], items[|items| - 1]);
    assert items == items[..|items| - 1] + [items[|items| - 1]];
    Append(AppendAll(items[..|items| - 1]), items[|items| - 1])
  }

  // ----- reading -----

  /** The digits of an index lead from a branch to the leaf that holds it. */
  lemma {:induction false} WalksUnder<T>(leaves: seq<Node<T>>, level: nat, index: nat)
    requires level > 0 && index / WIDTH < |leaves|
    ensures Walk(level, Branch(Under(Level(leaves, level - 1), Up(index / WIDTH, level))), index) == Some(leaves[index / WIDTH])
    decreases level
  {
    hide Level, Up, Under;
    var nodes, m, j := Level(leaves, level - 1), Up(index / WIDTH, level - 1), Up(index / WIDTH, level);
    UpStep(index / WIDTH, level - 1);
    ReachesDown(leaves, level - 1, index / WIDTH);
    ChildUnder(nodes, m, j);
    IndexDigit(index, level);
    if level == 1 {
      LevelZero(leaves);
      ZeroUp(index / WIDTH);
      WalkOne(Under(nodes, j), index, nodes[m]);
    } else {
      WalksUnder(leaves, level - 1, index);
      CoversBelow(leaves, level - 1, m);
      WalkStep(level, Under(nodes, j), index, nodes[m]);
    }
  }

  lemma ZeroUp(i: nat)
    ensures Up(i, 0) == i
  {}

  lemma IndexDigit(index: nat, level: nat)
    requires level > 0
    ensures Digit(index, level) == Up(index / WIDTH, level - 1) % WIDTH
  {}

  lemma WalkStep<T>(level: nat, children: seq<Node<T>>, index: nat, child: Node<T>)
    requires level > 0 && Digit(index, level) < |children| && children[Digit(index, level)] == child
    ensures Walk(level, Branch(children), index) == Walk(level - 1, child, index)
  {}

  lemma WalkOne<T>(children: seq<Node<T>>, index: nat, child: Node<T>)
    requires Digit(index, 1) < |children| && children[Digit(index, 1)] == child
    ensures Walk(1, Branch(children), index) == Some(child)
  {
    WalkStep(1, children, index, child);
  }

  /** The ancestor of an existing leaf exists at every level. */
  lemma ReachesDown<T>(leaves: seq<Node<T>>, level: nat, i: nat)
    requires i < |leaves|
    ensures Up(i, level) < |Level(leaves, level)|
  {
    LevelCount(leaves, level);
    UpGrows(i, |leaves| - 1, level);
  }

  lemma ChildUnder<T>(nodes: seq<Node<T>>, m: nat, j: nat)
    requires m < |nodes| && j == m / WIDTH
    ensures m % WIDTH < |Under(nodes, j)| && Under(nodes, j)[m % WIDTH] == nodes[m]
  {}

  lemma CoversBelow<T>(leaves: seq<Node<T>>, level: nat, m: nat)
    requires level > 0 && m < |Level(leaves, level)|
    ensures Level(leaves, level)[m] == Branch(Under(Level(leaves, level - 1), m))
  {}

  lemma ItemOfLeaf<T>(items: seq<T>, index: nat)
    requires index < TailOffset(|items|)
    ensures var leaf := LeavesOf(items)[index / WIDTH]; leaf.Leaf? && |leaf.items| == WIDTH && leaf.items[index % WIDTH] == items[index]
  {}

  /** The root of a canonical vector covers every leaf. */
  lemma RootWalks<T>(items: seq<T>, index: nat)
    requires index < TailOffset(|items|)
    ensures Walk(Canonical(items).height, Canonical(items).root, index) == Some(LeavesOf(items)[index / WIDTH])
  {
    hide Grow, Walk, LeavesOf, Level, Up, Under;
    var leaves := LeavesOf(items);
    var extra := GrowFinds(leaves, 1);
    assert index / WIDTH < |leaves|;
    ReachesDown(leaves, extra, index / WIDTH);
    UpStep(index / WIDTH, extra);
    WholeUnder(Level(leaves, extra));
    WalksUnder(leaves, extra + 1, index);
  }

  /** Reading a vector reads the sequence. */
  lemma GetReads<T>(items: seq<T>, index: int)
    ensures Get(Canonical(items), index) == if 0 <= index < |items| then Some(items[index]) else None
  {
    hide Grow, Walk, LeavesOf;
    if 0 <= index < |items| {
      if index < TailOffset(|items|) {
        RootWalks(items, index);
        ItemOfLeaf(items, index);
      } else {
        assert index % WIDTH == index - TailOffset(|items|) by { InTail(|items|, index); }
      }
    }
  }

  lemma InTail(n: nat, index: nat)
    requires TailOffset(n) <= index < n
    ensures index % WIDTH == index - TailOffset(n)
  {}

  // ----- replacing -----

  /** Changing one leaf changes one node of each level. */
  lemma {:induction false} LevelUpdate<T>(leaves: seq<Node<T>>, i: nat, x: Node<T>, level: nat)
    requires i < |leaves|
    ensures var fewer, more, m := Level(leaves, level), Level(leaves[i := x], level), Up(i, level);
            m < |fewer| == |more| && more == fewer[m := more[m]]
    decreases level
  {
    hide Level, Up, Chunks;
    ReachesDown(leaves, level, i);
    if level == 0 {
      LevelZero(leaves);
      LevelZero(leaves[i := x]);
      ZeroUp(i);
    } else {
      LevelUpdate(leaves, i, x, level - 1);
      UpStep(i, level - 1);
      LevelStep(leaves, level);
      LevelStep(leaves[i := x], level);
      ChunksUpdate(Level(leaves, level - 1), Level(leaves[i := x], level - 1), Up(i, level - 1));
    }
  }

  lemma ChunksUpdate<T>(a: seq<Node<T>>, b: seq<Node<T>>, m: nat)
    requires m < |a| == |b| && b == a[m := b[m]]
    ensures var j := m / WIDTH; j < |Chunks(a)| == |Chunks(b)| && Chunks(b) == Chunks(a)[j := Chunks(b)[j]]
  {
    forall k | 0 <= k < |Chunks(a)| && k != m / WIDTH ensures Chunks(b)[k] == Chunks(a)[k] {
      var lo, hi := WIDTH * k, Min(WIDTH * k + WIDTH, |a|);
      assert b[lo..hi] == a[lo..hi];
    }
  }

  lemma UnderUpdate<T>(a: seq<Node<T>>, b: seq<Node<T>>, m: nat)
    requires m < |a| == |b| && b == a[m := b[m]]
    ensures m % WIDTH < |Under(a, m / WIDTH)| && Under(b, m / WIDTH) == Under(a, m / WIDTH)[m % WIDTH := b[m]]
  {}

  lemma AssocStep<T>(level: nat, children: seq<Node<T>>, index: nat, value: T)
    requires level > 0 && Digit(index, level) < |children|
    ensures Assoc(level, Branch(children), index, value)
            == Branch(children[Digit(index, level) := Assoc(level - 1, children[Digit(index, level)], index, value)])
  {}

  lemma AssocLeaf<T>(leaf: Node<T>, index: nat, value: T)
    requires leaf.Leaf? && |leaf.items| == WIDTH
    ensures Assoc(0, leaf, index, value) == Leaf(leaf.items[index % WIDTH := value])
  {}

  lemma {:induction false} AssocUnder<T>(leaves: seq<Node<T>>, level: nat, index: nat, value: T, x: Node<T>)
    requires level > 0 && index / WIDTH < |leaves| && leaves[index / WIDTH].Leaf? && |leaves[index / WIDTH].items| == WIDTH
    requires x == Leaf(leaves[index / WIDTH].items[index % WIDTH := value])
    ensures var i := index / WIDTH; var j := Up(i, level);
            Assoc(level, Branch(Under(Level(leaves, level - 1), j)), index, value) == Branch(Under(Level(leaves[i := x], level - 1), j))
    decreases level
  {
    hide Level, Up, Under, Assoc;
    var i := index / WIDTH;
    var fewer, more, m := Level(leaves, level - 1), Level(leaves[i := x], level - 1), Up(i, level - 1);
    UpStep(i, level - 1);
    LevelUpdate(leaves, i, x, level - 1);
    UnderUpdate(fewer, more, m);
    ChildUnder(fewer, m, m / WIDTH);
    IndexDigit(index, level);
    AssocStep(level, Under(fewer, m / WIDTH), index, value);
    if level == 1 {
      LevelZero(leaves);
      LevelZero(leaves[i := x]);
      ZeroUp(i);
      AssocLeaf(leaves[i], index, value);
    } else {
      AssocUnder(leaves, level - 1, index, value, x);
      CoversBelow(leaves, level - 1, m);
      CoversBelow(leaves[i := x], level - 1, m);
    }
  }

  lemma LeavesReplaced<T>(items: seq<T>, index: nat, value: T)
    requires index < TailOffset(|items|)
    ensures var i := index / WIDTH;
            && i < |LeavesOf(items)|
            && LeavesOf(items[index := value]) == LeavesOf(items)[i := Leaf(LeavesOf(items)[i].items[index % WIDTH := value])]
  {
    ItemOfLeaf(items, index);
    var a, b, i := LeavesOf(items), LeavesOf(items[index := value]), index / WIDTH;
    forall j | 0 <= j < |a| ensures b[j] == if j == i then Leaf(a[i].items[index % WIDTH := value]) else a[j] {
      var lo := WIDTH * j;
      if j == i {
        assert items[index := value][lo..lo + WIDTH] == items[lo..lo + WIDTH][index % WIDTH := value];
      } else {
        assert items[index := value][lo..lo + WIDTH] == items[lo..lo + WIDTH];
      }
    }
  }

  lemma LeavesUntouched<T>(items: seq<T>, index: nat, value: T)
    requires TailOffset(|items|) <= index < |items|
    ensures LeavesOf(items[index := value]) == LeavesOf(items)
  {
    var a, b := LeavesOf(items), LeavesOf(items[index := value]);
    forall j | 0 <= j < |a| ensures b[j] == a[j] {
      assert items[index := value][WIDTH * j..WIDTH * j + WIDTH] == items[WIDTH * j..WIDTH * j + WIDTH];
    }
  }

  /** Replacing an item of a vector replaces it in the sequence; an index outside is refused. */
  lemma ReplaceIsCanonical<T>(items: seq<T>, index: int, value: T)
    ensures Replace(Canonical(items), index, value) == if 0 <= index < |items| then Some(Canonical(items[index := value])) else None
  {
    hide Grow, Assoc, LeavesOf, Level, Up, Under;
    if 0 <= index < |items| {
      var n := TailOffset(|items|);
      if index >= n {
        LeavesUntouched(items, index, value);
        InTail(|items|, index);
        assert items[index := value][n..] == items[n..][index - n := value];
      } else {
        LeavesReplaced(items, index, value);
        ItemOfLeaf(items, index);
        assert items[index := value][n..] == items[n..];
        RootReplaced(items, index, value);
      }
    }
  }

  lemma RootReplaced<T>(items: seq<T>, index: nat, value: T)
    requires index < TailOffset(|items|)
    ensures Grow(LeavesOf(items[index := value]), 1)
            == (Canonical(items).height, Assoc(Canonical(items).height, Canonical(items).root, index, value))
  {
    hide Grow, Assoc, LeavesOf, Level, Up, Under;
    var leaves, i := LeavesOf(items), index / WIDTH;
    LeavesReplaced(items, index, value);
    ItemOfLeaf(items, index);
    var x := Leaf(leaves[i].items[index % WIDTH := value]);
    var extra := GrowFinds(leaves, 1);
    LevelUpdate(leaves, i, x, extra);
    if extra > 0 { LevelUpdate(leaves, i, x, extra - 1); }
    GrowIs(leaves[i := x], 1, extra);
    UpStep(i, extra);
    AssocUnder(leaves, extra + 1, index, value, x);
    WholeUnder(Level(leaves, extra));
    WholeUnder(Level(leaves[i := x], extra));
  }
}
