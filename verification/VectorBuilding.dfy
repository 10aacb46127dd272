/** Bulk construction and slicing of vectors: the loops, each proved to end in the canonical vector. */
module VectorBuilding {
  import opened Values
  import opened PersistentVector

  /** Group nodes level by level until one branch holds them all. */
  method FromLeaves<T>(leaves: seq<Node<T>>, count: nat, tail: seq<T>) returns (v: Vector<T>)
    ensures v == Vector(count, Grow(leaves, 1).0, Grow(leaves, 1).1, tail)
  {
    if |leaves| == 0 {
      return Vector(count, 1, Branch([]), tail);
    }
    var level := 1;
    var nodes := leaves;
    while |nodes| > WIDTH
      invariant Grow(nodes, level) == Grow(leaves, 1)
      decreases |nodes|
    {
      var parents: seq<Node<T>> := [];
      var index := 0;
      while index < |nodes|
        invariant index % WIDTH == 0 && index <= |nodes| + 31 && |parents| == index / WIDTH
        invariant parents == Chunks(nodes)[..index / WIDTH]
      {
        parents := parents + [Branch(nodes[index..Min(index + WIDTH, |nodes|)])];
        index := index + WIDTH;
      }
      assert parents == Chunks(nodes);
      nodes := parents;
      level := level + 1;
    }
    v := Vector(count, level, Branch(nodes), tail);
  }

  /** Items are collected, then frozen into a vector once. */
  class ListTransient<T> {
    var items: seq<T>
    var frozen: bool

    constructor ()
      ensures items == [] && !frozen
    {
      items := [];
      frozen := false;
    }

    /** Refused once frozen. */
    method Append(item: T) returns (ok: bool)
      modifies `items
      ensures ok == !frozen && items == if ok then old(items) + [item] else old(items)
    {
      ok := !frozen;
      if ok { items := items + [item]; }
    }

    method Freeze() returns (v: Option<Vector<T>>)
      modifies `frozen
      ensures frozen && (v.Some? <==> !old(frozen))
      ensures v.Some? ==> v.value == Canonical(items) == AppendAll(items)
    {
      hide Grow;
      if frozen { return None; }
      frozen := true;
      var count := |items|;
      var tailStart := TailOffset(count);
      var leaves: seq<Node<T>> := [];
      var index := 0;
      while index < tailStart
        invariant index % WIDTH == 0 && index <= tailStart && leaves == LeavesOf(items)[..index / WIDTH]
      {
        leaves := leaves + [Leaf(items[index..index + WIDTH])];
        index := index + WIDTH;
      }
      assert leaves == LeavesOf(items);
      var vector := FromLeaves(leaves, count, items[tailStart..]);
      v := Some(vector);
    }
  }

  /** Bulk construction: structurally the vector that appending one item at a time from empty gives. */
  method FromItems<T>(items: seq<T>) returns (v: Vector<T>)
    ensures v == Canonical(items) == AppendAll(items)
  {
    var transient := new ListTransient<T>();
    var i := 0;
    while i < |items|
      invariant i <= |items| && transient.items == items[..i] && !transient.frozen
      invariant fresh(transient)
    {
      var ok := transient.Append(items[i]);
      i := i + 1;
    }
    assert items[..i] == items;
    var frozen := transient.Freeze();
    v := frozen.value;
  }

  // ----- slicing -----

  /** The leaf that holds an index: the tail, or the one the digits lead to. */
  method LeafFor<T>(v: Vector<T>, index: nat) returns (leaf: Option<Node<T>>)
    ensures leaf == if index >= v.count then None
                    else if index >= TailOffset(v.count) then Some(Leaf(v.tail)) else Walk(v.height, v.root, index)
  {
    if index >= v.count { return None; }
    if index >= TailOffset(v.count) { return Some(Leaf(v.tail)); }
    var node := v.root;
    var level := v.height;
    while level > 0
      invariant Walk(level, node, index) == Walk(v.height, v.root, index)
    {
      if node.Leaf? || Digit(index, level) >= |node.children| { return None; }
      node := node.children[Digit(index, level)];
      level := level - 1;
    }
    leaf := Some(node);
  }

  function Clamp(value: int, low: nat, high: nat): (r: nat)
    requires low <= high
    ensures low <= r <= high
    ensures low <= value <= high ==> r == value
  {
    if value < low then low else if value > high then high else value
  }

  /** The items at the positions from `low` on and before `high`, whatever the two bounds are: a bound outside the list
      selects up to its end, and bounds in the wrong order select nothing. */
  ghost predicate Selects<T>(slice: seq<T>, items: seq<T>, low: int, high: int) {
    exists from, to :: 0 <= from <= to <= |items| && slice == items[from..to] && NamesRange(from, to, |items|, low, high)
  }

  ghost predicate NamesRange(from: nat, to: nat, n: nat, low: int, high: int) {
    forall i: nat | i < n :: Between(from, i, to) <==> Between(low, i, high)
  }

  predicate Between(low: int, i: nat, high: int) {
    low <= i < high
  }

  lemma ClampSelects<T>(items: seq<T>, low: int, high: int)
    ensures var from := Clamp(low, 0, |items|); Selects(items[from..Clamp(high, from, |items|)], items, low, high)
  {
    var from := Clamp(low, 0, |items|);
    assert NamesRange(from, Clamp(high, from, |items|), |items|, low, high);
  }

  /** The selection is a function of the bounds, and what it is in the cases a caller tells apart. */
  lemma SelectionIs<T>(slice: seq<T>, items: seq<T>, low: int, high: int)
    requires Selects(slice, items, low, high)
    ensures high <= low || low >= |items| || high <= 0 ==> slice == []
    ensures 0 <= low <= high <= |items| ==> slice == items[low..high]
    ensures 0 <= low <= |items| <= high ==> slice == items[low..]
    ensures low <= 0 <= high <= |items| ==> slice == items[..high]
    ensures low <= 0 && high >= |items| ==> slice == items
  {
    var from, to :| 0 <= from <= to <= |items| && slice == items[from..to] && NamesRange(from, to, |items|, low, high);
    var a, b := if low < 0 then 0 else low, if high > |items| then |items| else high;
    assert from < |items| ==> (Between(from, from, to) <==> Between(low, from, high));
    if a < b {
      assert Between(low, a, high) && Between(low, b - 1, high);
      assert b < |items| ==> (Between(from, b, to) <==> Between(low, b, high));
      assert slice == items[a..b];
    }
  }

  /** A leaf of the slice is 32 items of the source, and the slice goes on after it. */
  lemma SliceLeaf<T>(items: seq<T>, from: nat, count: nat, offset: nat)
    requires from + count <= |items| && offset % WIDTH == 0 && offset < TailOffset(count)
    ensures offset / WIDTH < |LeavesOf(items[from..from + count])|
    ensures offset + WIDTH <= TailOffset(count) < count
    ensures LeavesOf(items[from..from + count])[offset / WIDTH] == Leaf(items[from + offset..from + offset + WIDTH])
  {
    var slice := items[from..from + count];
    assert offset + WIDTH <= TailOffset(count);
    SliceOfSlice(items, from, from + count, offset, offset + WIDTH);
  }

  lemma SliceOfSlice<T>(s: seq<T>, a: nat, b: nat, i: nat, j: nat)
    requires a <= b <= |s| && i <= j <= b - a
    ensures s[a..b][i..j] == s[a + i..a + j]
  {
    var l, r := s[a..b][i..j], s[a + i..a + j];
    forall k | 0 <= k < |l| ensures l[k] == r[k] {
      assert l[k] == s[a..b][i + k] == s[a + (i + k)];
    }
  }

  /** An aligned leaf that is not the last thing in the vector lies in the trie, never in the tail. */
  lemma AlignedLeaf<T>(items: seq<T>, source: nat)
    requires source % WIDTH == 0 && source + WIDTH < |items|
    ensures source < TailOffset(|items|)
    ensures Walk(Canonical(items).height, Canonical(items).root, source) == Some(Leaf(items[source..source + WIDTH]))
  {
    hide Grow, Walk;
    RootWalks(items, source);
  }

  /** Bounds are clamped; aligned leaves are shared, others are copied; the rest becomes the tail. */
  method Slice<T>(v: Vector<T>, ghost items: seq<T>, start: int, end: int) returns (r: Vector<T>)
    requires v == Canonical(items)
    ensures var from := Clamp(start, 0, |items|); var to := Clamp(end, from, |items|); r == Canonical(items[from..to])
    ensures exists slice :: Selects(slice, items, start, end) && r == Canonical(slice)
  {
    ClampSelects(items, start, end);
    hide Walk, Canonical, LeavesOf, TailOffset, Selects, Clamp;
    CountIs(items);
    var from := Clamp(start, 0, v.count);
    var to := Clamp(end, from, v.count);
    var count := to - from;
    ghost var slice := items[from..to];
    if count == 0 {
      r := FromItems([]);
      assert slice == [];
      return;
    }
    var leaves := SliceLeaves(v, items, from, count);
    var tailStart := TailOffset(count);
    var tail := CopyItems(v, items, from + tailStart, count - tailStart);
    assert tail == slice[tailStart..];
    r := FromLeaves(leaves, count, tail);
    CanonicalIs(slice);
  }

  lemma CanonicalIs<T>(items: seq<T>)
    ensures var n := TailOffset(|items|);
            Canonical(items) == Vector(|items|, Grow(LeavesOf(items), 1).0, Grow(LeavesOf(items), 1).1, items[n..])
  {}

  /** The leaves of a slice: shared where they are aligned with those of the source, copied where they are not. */
  method SliceLeaves<T>(v: Vector<T>, ghost items: seq<T>, from: nat, count: nat) returns (leaves: seq<Node<T>>)
    requires v == Canonical(items) && from + count <= |items|
    ensures leaves == LeavesOf(items[from..from + count])
  {
    hide Walk, Canonical, LeavesOf;
    CountIs(items);
    ghost var whole := LeavesOf(items[from..from + count]);
    var tailStart := TailOffset(count);
    leaves := [];
    var offset := 0;
    while offset < tailStart
      invariant offset % WIDTH == 0 && offset <= tailStart && |whole| == tailStart / WIDTH && leaves == whole[..offset / WIDTH]
    {
      SliceLeaf(items, from, count, offset);
      var leaf := SliceLeafAt(v, items, from + offset);
      leaves := leaves + [leaf];
      offset := offset + WIDTH;
    }
    assert whole[..offset / WIDTH] == whole;
  }

  method SliceLeafAt<T>(v: Vector<T>, ghost items: seq<T>, source: nat) returns (leaf: Node<T>)
    requires v == Canonical(items) && source + WIDTH < |items|
    ensures leaf == Leaf(items[source..source + WIDTH])
  {
    hide Walk, Canonical;
    CountIs(items);
    if source % WIDTH == 0 {
      AlignedLeaf(items, source);
      var shared := LeafFor(v, source);
      leaf := shared.value;
    } else {
      var copied := CopyItems(v, items, source, WIDTH);
      leaf := Leaf(copied);
    }
  }

  /** Items read one by one. */
  method CopyItems<T>(v: Vector<T>, ghost items: seq<T>, source: nat, count: nat) returns (copied: seq<T>)
    requires v == Canonical(items) && source + count <= |items|
    ensures copied == items[source..source + count]
  {
    hide Canonical, Get;
    copied := [];
    var index := 0;
    while index < count
      invariant index <= count && copied == items[source..source + index]
    {
      GetReads(items, source + index);
      var item := Get(v, source + index);
      copied := copied + [item.value];
      index := index + 1;
    }
  }

  // ----- slices by source bounds -----

  datatype Bound = NoBound | At(index: int) | OutOfBounds

  /** A bound counted from the end when negative; an inclusive one is moved past its item. */
  function SliceBound(value: Option<int>, length: nat, inclusive: bool, checked: bool): Bound {
    if value.None? then NoBound else
    var normalized := if value.value < 0 then length + value.value else value.value;
    var maximum := if inclusive then length - 1 else length;
    if checked && (normalized < 0 || normalized > maximum) then OutOfBounds
    else At(if inclusive then normalized + 1 else normalized)
  }

  /** The position a bound names, counted from the start. */
  function Position(value: int, length: nat): int {
    if value < 0 then length + value else value
  }

  /** The first item a slice names, and the position past the last, both held inside the list. */
  function First(start: Option<int>, n: nat): (r: nat)
    ensures r <= n
    ensures start.None? ==> r == 0
    ensures start.Some? && 0 <= Position(start.value, n) <= n ==> r == Position(start.value, n)
  {
    Clamp(if start.Some? then Position(start.value, n) else 0, 0, n)
  }

  function Past(start: Option<int>, end: Option<int>, inclusive: bool, n: nat): (r: nat)
    ensures First(start, n) <= r <= n
    ensures end.None? ==> r == n
    ensures end.Some? && First(start, n) <= Position(end.value, n) + (if inclusive then 1 else 0) <= n
            ==> r == Position(end.value, n) + if inclusive then 1 else 0
  {
    Clamp(if end.Some? then Position(end.value, n) + (if inclusive then 1 else 0) else n, First(start, n), n)
  }

  /** A list slice: refused when a checked bound is outside; otherwise exactly the items named. */
  method ListSlice<T>(v: Vector<T>, ghost items: seq<T>, start: Option<int>, end: Option<int>, inclusive: bool, checked: bool)
    returns (r: Option<Vector<T>>)
    requires v == Canonical(items)
    ensures var n := |items|;
            && (r.None? <==> checked && ((start.Some? && !(0 <= Position(start.value, n) <= n))
                                         || (end.Some? && !(0 <= Position(end.value, n) <= if inclusive then n - 1 else n))))
            && (r.Some? ==> r.value == Canonical(items[First(start, n)..Past(start, end, inclusive, n)]))
    ensures r.Some? ==>
              var low := if start.Some? then Position(start.value, |items|) else 0;
              var high := if end.Some? then Position(end.value, |items|) + (if inclusive then 1 else 0) else |items|;
              exists slice :: Selects(slice, items, low, high) && r.value == Canonical(slice)
  {
    hide Canonical, Selects;
    CountIs(items);
    var length := v.count;
    var first := SliceBound(start, length, false, checked);
    if first.OutOfBounds? { return None; }
    var last := SliceBound(end, length, inclusive, checked);
    if last.OutOfBounds? { return None; }
    var low := if first.At? then first.index else 0;
    var high := if last.At? then last.index else length;
    var slice := Slice(v, items, low, high);
    r := Some(slice);
  }

  lemma CountIs<T>(items: seq<T>)
    ensures Canonical(items).count == |items|
  {}
}
