/** The transaction journal: every journaled write leaves an undo entry; rollback runs the entries of the innermost
    transaction backwards, commit hands them to the transaction around it. */
module Journal {
  import opened Values

  type Id = nat

  /** `Length` is the length property of an array. */
  datatype Key = Name(name: string) | Index(index: nat) | Length

  /** A JavaScript object as far as journaled writes can change it: own properties by name and by index, an array's
      length, the prototype, and the entries of a Map. A frozen object refuses every change but those of a Map's
      entries. */
  datatype Object = Object(names: map<string, Value>, elements: map<nat, Value>, length: Option<nat>, prototype: Id,
                           entries: map<Value, Value>, frozen: bool)

  type Heap = map<Id, Object>

  // ----- plain operations of the language -----

  /** An array's elements lie below its length. */
  ghost predicate ObjectOk(o: Object) {
    o.length.Some? ==> forall i | i in o.elements :: i < o.length.value
  }

  ghost predicate HeapOk(h: Heap) {
    forall o | o in h :: ObjectOk(h[o])
  }

  function Own(o: Object, key: Key): Option<Value>
    requires key != Length
  {
    match key
    case Name(name) => if name in o.names then Some(o.names[name]) else None
    case Index(index) => if index in o.elements then Some(o.elements[index]) else None
  }

  /** Define a property, or delete it. */
  function Define(o: Object, key: Key, value: Option<Value>): Object
    requires key != Length
  {
    match key
    case Name(name) => o.(names := if value.Some? then o.names[name := value.value] else map k | k in o.names && k != name :: o.names[k])
    case Index(index) =>
      o.(elements := if value.Some? then o.elements[index := value.value] else map k | k in o.elements && k != index :: o.elements[k])
  }

  /** Assigning a shorter length drops the elements beyond it. */
  function WithLength(o: Object, n: nat): Object {
    o.(length := Some(n), elements := map i | i in o.elements && i < n :: o.elements[i])
  }

  /** Assigning past the end of an array makes it longer. */
  function WithProperty(o: Object, key: Key, value: Value): Object
    requires key != Length
  {
    var defined := Define(o, key, Some(value));
    if key.Index? && o.length.Some? && key.index >= o.length.value then defined.(length := Some(key.index + 1)) else defined
  }

  /** The element at a position after `splice`: what is in front stays, the items come in, the rest moves. */
  function SplicedAt(elements: map<nat, Value>, start: nat, count: nat, items: seq<Value>, i: nat): Option<Value> {
    if i < start then (if i in elements then Some(elements[i]) else None)
    else if i < start + |items| then Some(items[i - start])
    else if i - |items| + count in elements then Some(elements[i - |items| + count]) else None
  }

  function Spliced(o: Object, start: nat, count: nat, items: seq<Value>): Object
    requires o.length.Some? && start + count <= o.length.value
  {
    var n := o.length.value - count + |items|;
    o.(length := Some(n),
       elements := map i: nat | i < n && SplicedAt(o.elements, start, count, items, i).Some? :: SplicedAt(o.elements, start, count, items, i).value)
  }

  // ----- journaled writes -----

  datatype Write =
    | SetProperty(o: Id, key: Key, value: Value)
    | SetLength(o: Id, n: nat)
    | DeleteProperty(o: Id, key: Key)
    | SetPrototype(o: Id, prototype: Id)
    | Splice(o: Id, start: nat, count: nat, items: seq<Value>)
    | MapSet(o: Id, mapKey: Value, value: Value)

  /** What a write remembers: the own property as it was, and an array's length. */
  datatype Undo =
    | RestoreProperty(o: Id, key: Key, was: Option<Value>, oldLength: Option<nat>)
    | RestoreDeleted(o: Id, key: Key, was: Option<Value>)
    | RestorePrototype(o: Id, prototype: Id)
    | RestoreElements(o: Id, before: map<nat, Value>, n: nat)
    | RestoreEntry(o: Id, mapKey: Value, entry: Option<Value>)

  /** The write applies: the object exists and is of the kind, and the positions lie inside the array. */
  predicate Applies(h: Heap, w: Write) {
    && w.o in h
    && (w.SetLength? || w.Splice? ==> h[w.o].length.Some?)
    && (w.Splice? ==> w.start + w.count <= h[w.o].length.value)
    && (w.SetProperty? || w.DeleteProperty? ==> w.key != Length)
  }

  function UndoOf(h: Heap, w: Write): Undo
    requires Applies(h, w)
  {
    var o := h[w.o];
    match w
    case SetProperty(id, key, _) => RestoreProperty(id, key, Own(o, key), o.length)
    case SetLength(id, _) => RestoreProperty(id, Length, None, o.length)
    case DeleteProperty(id, key) => RestoreDeleted(id, key, Own(o, key))
    case SetPrototype(id, _) => RestorePrototype(id, o.prototype)
    case Splice(id, _, _, _) => RestoreElements(id, o.elements, o.length.value)
    case MapSet(id, mapKey, _) => RestoreEntry(id, mapKey, if mapKey in o.entries then Some(o.entries[mapKey]) else None)
  }

  /** The heap after a write and whether it was refused; a refused write changes nothing but is journaled all the same. */
  function DoWrite(h: Heap, w: Write): (Heap, bool)
    requires Applies(h, w)
  {
    var o := h[w.o];
    if o.frozen && !w.MapSet? && !(w.SetPrototype? && w.prototype == o.prototype) then (h, true) else
    match w
    case SetProperty(id, key, value) => (h[id := WithProperty(o, key, value)], false)
    case SetLength(id, n) => (h[id := WithLength(o, n)], false)
    case DeleteProperty(id, key) => (h[id := Define(o, key, None)], false)
    case SetPrototype(id, prototype) => (h[id := o.(prototype := prototype)], false)
    case Splice(id, start, count, items) => (h[id := Spliced(o, start, count, items)], false)
    case MapSet(id, mapKey, value) => (h[id := o.(entries := o.entries[mapKey := value])], false)
  }

  /** Running an undo entry; `None` when it throws. Redefining a property of a frozen object as it is is allowed, but
      splicing a frozen array throws even when nothing would change. */
  function RunUndo(h: Heap, u: Undo): Option<Heap> {
    if u.o !in h then None else
    var o := h[u.o];
    match u
    case RestoreProperty(id, key, was, oldLength) =>
      if o.frozen then (if key == Length || Own(o, key) == was then Some(h) else None) else
      var o1 := if key == Length then o else Define(o, key, was);
      Some(h[id := if oldLength.Some? && o1.length != oldLength then WithLength(o1, oldLength.value) else o1])
    case RestoreDeleted(id, key, was) =>
      if was.None? || key == Length then Some(h)
      else if o.frozen then (if Own(o, key) == was then Some(h) else None)
      else Some(h[id := Define(o, key, was)])
    case RestorePrototype(id, prototype) => Some(if o.frozen then h else h[id := o.(prototype := prototype)])
    case RestoreElements(id, before, n) => if o.frozen || o.length.None? then None else Some(h[id := o.(elements := before, length := Some(n))])
    case RestoreEntry(id, mapKey, entry) =>
      Some(h[id := o.(entries := if entry.Some? then o.entries[mapKey := entry.value]
                                 else map k | k in o.entries && k != mapKey :: o.entries[k])])
  }

  // ----- which writes can be undone -----

  /** A caller can tell beforehand: the length property must not be assigned below an element, and a frozen array must
      not be spliced. */
  predicate Reversible(h: Heap, w: Write)
    requires Applies(h, w)
  {
    && (w.SetLength? ==> h[w.o].frozen || forall i | i in h[w.o].elements :: i < w.n)
    && (w.Splice? ==> !h[w.o].frozen)
  }

  lemma Redefined(o: Object, key: Key, value: Option<Value>)
    requires key != Length
    ensures Define(Define(o, key, value), key, Own(o, key)) == o
  {
    var back := Define(Define(o, key, value), key, Own(o, key));
    assert back.names == o.names && back.elements == o.elements;
  }

  lemma PropertyUndone(h: Heap, id: Id, key: Key, value: Value)
    requires HeapOk(h) && id in h && key != Length
    ensures RunUndo(DoWrite(h, SetProperty(id, key, value)).0, UndoOf(h, SetProperty(id, key, value))) == Some(h)
  {
    var o := h[id];
    var (g, refused) := DoWrite(h, SetProperty(id, key, value));
    if !refused {
      var o1 := Define(g[id], key, Own(o, key));
      Redefined(o, key, Some(value));
      assert o1.elements == o.elements && o1.names == o.names;
      if o.length.Some? && o1.length != o.length {
        assert ObjectOk(o);
        assert WithLength(o1, o.length.value).elements == o.elements;
        assert WithLength(o1, o.length.value) == o;
      }
      assert g[id := o] == h;
    }
  }

  lemma LengthUndone(h: Heap, id: Id, n: nat)
    requires HeapOk(h) && id in h && h[id].length.Some?
    ensures RunUndo(DoWrite(h, SetLength(id, n)).0, UndoOf(h, SetLength(id, n))) == Some(h) <==> Reversible(h, SetLength(id, n))
  {
    var o := h[id];
    var (g, refused) := DoWrite(h, SetLength(id, n));
    if !refused {
      var o1 := g[id];
      var back := if o1.length != o.length then WithLength(o1, o.length.value) else o1;
      var undone := g[id := back];
      assert RunUndo(g, UndoOf(h, SetLength(id, n))) == Some(undone);
      if Reversible(h, SetLength(id, n)) {
        assert ObjectOk(o);
        assert o1.elements == o.elements;
        assert back.elements == o.elements;
        assert undone == h;
      } else {
        var i :| i in o.elements && i >= n;
        assert i !in o1.elements && i !in back.elements;
        assert undone[id] != h[id];
      }
    }
  }

  lemma SpliceUndone(h: Heap, id: Id, start: nat, count: nat, items: seq<Value>)
    requires Applies(h, Splice(id, start, count, items))
    ensures var w := Splice(id, start, count, items); RunUndo(DoWrite(h, w).0, UndoOf(h, w)) == Some(h) <==> Reversible(h, w)
  {
    var o := h[id];
    if !o.frozen {
      var g := h[id := Spliced(o, start, count, items)];
      assert g[id].(elements := o.elements, length := Some(o.length.value)) == o;
      assert g[id := o] == h;
    }
  }

  /** Exactly the reversible writes are undone by their entry: the heap after write and undo is the heap before. */
  lemma UndoneExactly(h: Heap, w: Write)
    requires HeapOk(h) && Applies(h, w)
    ensures RunUndo(DoWrite(h, w).0, UndoOf(h, w)) == Some(h) <==> Reversible(h, w)
  {
    var o := h[w.o];
    match w
    case SetProperty(id, key, value) => PropertyUndone(h, id, key, value);
    case SetLength(id, n) => LengthUndone(h, id, n);
    case Splice(id, start, count, items) => SpliceUndone(h, id, start, count, items);
    case DeleteProperty(id, key) =>
      if !o.frozen {
        var g := h[id := Define(o, key, None)];
        Redefined(o, key, None);
        assert g[id := o] == h;
        if Own(o, key).None? {
          NothingDeleted(o, key);
          assert h[id := o] == h;
        }
      }
    case SetPrototype(id, prototype) =>
      if !o.frozen {
        var g := h[id := o.(prototype := prototype)];
        assert g[id := o] == h;
      } else {
        assert h[id := o] == h;
      }
    case MapSet(id, mapKey, value) =>
      var after := o.entries[mapKey := value];
      var g := h[id := o.(entries := after)];
      if mapKey in o.entries {
        assert after[mapKey := o.entries[mapKey]] == o.entries;
      } else {
        assert (map k | k in after && k != mapKey :: after[k]) == o.entries;
      }
      assert g[id := o] == h;
  }

  lemma NothingDeleted(o: Object, key: Key)
    requires key != Length && Own(o, key).None?
    ensures Define(o, key, None) == o
  {
    assert Define(o, key, None).names == o.names && Define(o, key, None).elements == o.elements;
  }

  lemma WriteKeepsOk(h: Heap, w: Write)
    requires HeapOk(h) && Applies(h, w)
    ensures HeapOk(DoWrite(h, w).0)
  {
    var o := h[w.o];
    var (g, refused) := DoWrite(h, w);
    if !refused {
      assert ObjectOk(o);
      assert ObjectOk(g[w.o]);
    }
  }

  // ----- what a write leaves behind -----

  /** A property reads `value` and every other one what it did. */
  ghost predicate ReadsNow(before: Object, after: Object, key: Key, value: Option<Value>) {
    forall k: Key | k != Length :: Own(after, k) == if k == key then value else Own(before, k)
  }

  /** Only properties and the length may differ. */
  predicate SameBesides(before: Object, after: Object) {
    after.prototype == before.prototype && after.entries == before.entries && after.frozen == before.frozen
  }

  /** The elements of the one are those of the other with `count` of them from `start` on replaced by `items`. */
  ghost predicate SpliceOf(before: Object, after: Object, start: nat, count: nat, items: seq<Value>) {
    && (forall i: nat | i < start :: Own(after, Index(i)) == Own(before, Index(i)))
    && (forall j: nat | j < |items| :: Own(after, Index(start + j)) == Some(items[j]))
    && (forall i: nat | i >= start + count :: Own(after, Index(i - count + |items|)) == Own(before, Index(i)))
  }

  /** A refused write changes nothing; any other changes one object, and of that only what the write is about. */
  lemma WriteLeaves(h: Heap, w: Write)
    requires HeapOk(h) && Applies(h, w)
    ensures var (g, refused) := DoWrite(h, w);
            && g.Keys == h.Keys && (forall o | o in h && o != w.o :: g[o] == h[o])
            && (refused ==> g == h)
            && (refused <==> h[w.o].frozen && !w.MapSet? && !(w.SetPrototype? && w.prototype == h[w.o].prototype))
            && var before, after := h[w.o], g[w.o];
               !refused ==>
                 match w
                 case SetProperty(_, key, value) =>
                   && ReadsNow(before, after, key, Some(value)) && SameBesides(before, after)
                   && after.length == if key.Index? && before.length.Some? && before.length.value <= key.index
                                      then Some(key.index + 1) else before.length
                 case DeleteProperty(_, key) =>
                   ReadsNow(before, after, key, None) && SameBesides(before, after) && after.length == before.length
                 case SetLength(_, n) =>
                   && after.length == Some(n) && after.names == before.names && SameBesides(before, after)
                   && forall i: nat :: Own(after, Index(i)) == if i < n then Own(before, Index(i)) else None
                 case SetPrototype(_, prototype) => after == before.(prototype := prototype)
                 case Splice(_, start, count, items) =>
                   && SpliceOf(before, after, start, count, items) && after.names == before.names && SameBesides(before, after)
                   && after.length == Some(before.length.value - count + |items|)
                 case MapSet(_, mapKey, value) =>
                   && after == before.(entries := after.entries)
                   && mapKey in after.entries && after.entries[mapKey] == value
                   && forall k | k != mapKey :: (k in after.entries <==> k in before.entries)
                                                && (k in before.entries ==> after.entries[k] == before.entries[k])
  {
    var (g, refused) := DoWrite(h, w);
    assert g.Keys == h.Keys;
    if !refused {
      match w
      case SetProperty(id, key, value) => DefineLeaves(h[id], key, Some(value));
      case DeleteProperty(id, key) => DefineLeaves(h[id], key, None);
      case Splice(id, start, count, items) => SpliceLeaves(h[id], start, count, items);
      case _ =>
    }
    hide ReadsNow, SpliceOf, Define;
  }

  lemma DefineLeaves(o: Object, key: Key, value: Option<Value>)
    requires key != Length
    ensures ReadsNow(o, Define(o, key, value), key, value)
    ensures value.Some? ==> ReadsNow(o, WithProperty(o, key, value.value), key, value)
  {}

  lemma SpliceLeaves(o: Object, start: nat, count: nat, items: seq<Value>)
    requires ObjectOk(o) && o.length.Some? && start + count <= o.length.value
    ensures SpliceOf(o, Spliced(o, start, count, items), start, count, items)
  {
    var after := Spliced(o, start, count, items);
    forall i: nat | i >= start + count ensures Own(after, Index(i - count + |items|)) == Own(o, Index(i)) {
      assert SplicedAt(o.elements, start, count, items, i - count + |items|) == Own(o, Index(i));
    }
    forall j: nat | j < |items| ensures Own(after, Index(start + j)) == Some(items[j]) {
      assert SplicedAt(o.elements, start, count, items, start + j) == Some(items[j]);
    }
    forall i: nat | i < start ensures Own(after, Index(i)) == Own(o, Index(i)) {
      assert SplicedAt(o.elements, start, count, items, i) == Own(o, Index(i));
    }
  }

  // ----- the journal -----

  /** The heap, the stack of open transactions with their entries, and, for the statements below, the heap each of them
      began with. */
  datatype State = State(heap: Heap, stack: seq<seq<Undo>>, saved: seq<Heap>)

  /** Run entries from the last to the first; a throwing entry stops the run where it is. */
  function UndoAll(h: Heap, entries: seq<Undo>): (Heap, bool)
    decreases |entries|
  {
    if |entries| == 0 then (h, true) else
    var r := RunUndo(h, entries[|entries| - 1]);
    if r.None? then (h, false) else UndoAll(r.value, entries[..|entries| - 1])
  }

  datatype Step = Begin | Commit | Rollback | Perform(write: Write)

  /** Commit and rollback without a transaction are refused; writes outside one are not journaled. */
  function Do(s: State, step: Step): State {
    match step
    case Begin => s.(stack := s.stack + [[]], saved := s.saved + [s.heap])
    case Commit =>
      if |s.stack| == 0 || |s.saved| == 0 then s else
      var top := |s.stack| - 1;
      var rest := s.stack[..top];
      s.(stack := if top > 0 then rest[top - 1 := rest[top - 1] + s.stack[top]] else rest, saved := s.saved[..|s.saved| - 1])
    case Rollback =>
      if |s.stack| == 0 || |s.saved| == 0 then s else
      State(UndoAll(s.heap, s.stack[|s.stack| - 1]).0, s.stack[..|s.stack| - 1], s.saved[..|s.saved| - 1])
    case Perform(w) =>
      if !Applies(s.heap, w) then s else
      var top := |s.stack| - 1;
      s.(heap := DoWrite(s.heap, w).0, stack := if top >= 0 then s.stack[top := s.stack[top] + [UndoOf(s.heap, w)]] else s.stack)
  }

  function Run(s: State, steps: seq<Step>): State
    decreases |steps|
  {
    if |steps| == 0 then s else Run(Do(s, steps[0]), steps[1..])
  }

  /** Undoing the entries of the `n` innermost transactions, innermost first. */
  function UndoTop(h: Heap, stack: seq<seq<Undo>>, n: nat): (Heap, bool)
    requires n <= |stack|
    decreases n
  {
    if n == 0 then (h, true) else
    var (g, ok) := UndoAll(h, stack[|stack| - 1]);
    if !ok then (g, false) else UndoTop(g, stack[..|stack| - 1], n - 1)
  }

  /** Undoing down to any open transaction gives the heap it began with. */
  ghost predicate Inv(s: State) {
    && HeapOk(s.heap) && |s.saved| == |s.stack|
    && (forall k | 0 <= k < |s.saved| :: HeapOk(s.saved[k]))
    && forall n | 0 < n <= |s.stack| :: UndoTop(s.heap, s.stack, n) == (s.saved[|s.saved| - n], true)
  }

  ghost predicate Careful(s: State, step: Step) {
    step.Perform? && Applies(s.heap, step.write) ==> Reversible(s.heap, step.write)
  }

  ghost predicate AllCareful(s: State, steps: seq<Step>)
    decreases |steps|
  {
    |steps| == 0 || (Careful(s, steps[0]) && AllCareful(Do(s, steps[0]), steps[1..]))
  }

  lemma {:induction false} UndoAllJoins(h: Heap, a: seq<Undo>, b: seq<Undo>)
    ensures UndoAll(h, a + b) == (var (g, ok) := UndoAll(h, b); if ok then UndoAll(g, a) else (g, false))
    decreases |b|
  {
    hide RunUndo;
    if |b| == 0 {
      assert a + b == a;
    } else {
      var last := b[|b| - 1];
      assert (a + b)[|a + b| - 1] == last && (a + b)[..|a + b| - 1] == a + b[..|b| - 1];
      if RunUndo(h, last).Some? { UndoAllJoins(RunUndo(h, last).value, a, b[..|b| - 1]); }
    }
  }

  lemma BeginKeeps(s: State)
    requires Inv(s)
    ensures Inv(Do(s, Begin))
  {
    hide RunUndo, HeapOk;
    var t := Do(s, Begin);
    assert t.stack[..|t.stack| - 1] == s.stack;
    forall n | 0 < n <= |t.stack| ensures UndoTop(t.heap, t.stack, n) == (t.saved[|t.saved| - n], true) {
      assert UndoAll(t.heap, []) == (t.heap, true);
      assert UndoTop(t.heap, t.stack, n) == UndoTop(s.heap, s.stack, n - 1);
    }
  }

  lemma RollbackKeeps(s: State)
    requires Inv(s) && |s.stack| > 0
    ensures Inv(Do(s, Rollback)) && Do(s, Rollback).heap == s.saved[|s.saved| - 1]
  {
    hide RunUndo, HeapOk;
    var t := Do(s, Rollback);
    var top := |s.stack| - 1;
    assert UndoTop(s.heap, s.stack, 1) == (s.saved[|s.saved| - 1], true);
    var (g, ok) := UndoAll(s.heap, s.stack[top]);
    assert UndoTop(g, s.stack[..top], 0) == (g, true);
    assert ok && g == s.saved[|s.saved| - 1];
    forall n | 0 < n <= |t.stack| ensures UndoTop(t.heap, t.stack, n) == (t.saved[|t.saved| - n], true) {
      assert UndoTop(s.heap, s.stack, n + 1) == UndoTop(g, s.stack[..top], n);
    }
  }

  lemma CommitKeeps(s: State)
    requires Inv(s) && |s.stack| > 0
    ensures Inv(Do(s, Commit))
  {
    hide RunUndo, HeapOk;
    var t := Do(s, Commit);
    var top := |s.stack| - 1;
    if top > 0 {
      var rest := s.stack[..top];
      UndoAllJoins(s.heap, rest[top - 1], s.stack[top]);
      assert t.stack[..top - 1] == rest[..top - 1];
      forall n | 0 < n <= |t.stack| ensures UndoTop(t.heap, t.stack, n) == (t.saved[|t.saved| - n], true) {
        assert UndoTop(s.heap, s.stack, 1) == (s.saved[|s.saved| - 1], true);
        assert UndoTop(s.heap, s.stack, n + 1) == (s.saved[|s.saved| - (n + 1)], true);
        MergedTop(s.heap, s.stack, n);
      }
    }
  }

  /** Two transactions one after the other, or their entries in one. */
  lemma MergedTop(h: Heap, stack: seq<seq<Undo>>, n: nat)
    requires |stack| > 1 && 0 < n < |stack|
    ensures var top := |stack| - 1;
            UndoTop(h, stack[..top][top - 1 := stack[top - 1] + stack[top]], n) == UndoTop(h, stack, n + 1)
  {
    hide RunUndo;
    var top := |stack| - 1;
    var merged := stack[..top][top - 1 := stack[top - 1] + stack[top]];
    UndoAllJoins(h, stack[top - 1], stack[top]);
    assert merged[..top - 1] == stack[..top][..top - 1];
    var (g, ok) := UndoAll(h, stack[top]);
    if ok {
      assert UndoTop(h, stack, n + 1) == UndoTop(g, stack[..top], n);
      var (f, fine) := UndoAll(g, stack[top - 1]);
      assert stack[..top][|stack[..top]| - 1] == stack[top - 1];
    }
  }

  lemma PerformKeeps(s: State, w: Write)
    requires Inv(s) && Applies(s.heap, w) && Reversible(s.heap, w)
    ensures Inv(Do(s, Perform(w)))
  {
    UndoneExactly(s.heap, w);
    WriteKeepsOk(s.heap, w);
    hide RunUndo, HeapOk, DoWrite, UndoOf, Reversible, Applies;
    var t := Do(s, Perform(w));
    var top := |s.stack| - 1;
    if top >= 0 {
      var entries, u := s.stack[top], UndoOf(s.heap, w);
      assert t.stack[top] == entries + [u] && t.stack[..top] == s.stack[..top];
      assert (entries + [u])[..|entries|] == entries && (entries + [u])[|entries + [u]| - 1] == u;
      assert UndoAll(t.heap, entries + [u]) == UndoAll(s.heap, entries);
      forall n | 0 < n <= |t.stack| ensures UndoTop(t.heap, t.stack, n) == (t.saved[|t.saved| - n], true) {
        assert UndoTop(t.heap, t.stack, n) == UndoTop(s.heap, s.stack, n);
      }
    }
  }

  lemma StepKeeps(s: State, step: Step)
    requires Inv(s) && Careful(s, step)
    ensures Inv(Do(s, step))
  {
    hide Inv, UndoAll;
    SameDepth(s);
    match step
    case Begin => BeginKeeps(s);
    case Commit => if |s.stack| > 0 { CommitKeeps(s); }
    case Rollback => if |s.stack| > 0 { RollbackKeeps(s); }
    case Perform(w) => if Applies(s.heap, w) { PerformKeeps(s, w); }
  }

  lemma SameDepth(s: State)
    requires Inv(s)
    ensures |s.saved| == |s.stack|
  {}

  lemma {:induction false} RunKeeps(s: State, steps: seq<Step>)
    requires Inv(s) && AllCareful(s, steps)
    ensures Inv(Run(s, steps))
    decreases |steps|
  {
    hide Inv, Do, Careful;
    if |steps| > 0 {
      StepKeeps(s, steps[0]);
      RunKeeps(Do(s, steps[0]), steps[1..]);
    }
  }

  // ----- the theorem -----

  /** The transaction that was open at depth `d` stays open throughout. */
  ghost predicate StaysOpen(s: State, steps: seq<Step>, d: nat)
    decreases |steps|
  {
    |s.stack| > d && (|steps| == 0 || StaysOpen(Do(s, steps[0]), steps[1..], d))
  }

  lemma {:induction false} SavedStays(s: State, steps: seq<Step>, d: nat)
    requires Inv(s) && AllCareful(s, steps) && StaysOpen(s, steps, d)
    ensures Inv(Run(s, steps)) && |Run(s, steps).stack| > d && Run(s, steps).saved[d] == s.saved[d]
    decreases |steps|
  {
    hide Inv, Careful, UndoAll, DoWrite, UndoOf, Applies;
    SameDepth(s);
    if |steps| > 0 {
      StepKeeps(s, steps[0]);
      SameDepth(Do(s, steps[0]));
      SavedStays(Do(s, steps[0]), steps[1..], d);
    }
  }

  /** Begin a transaction, then do anything at all inside it: further transactions nested to any depth, committed or
      rolled back, and careful writes between them. When the transaction is innermost again, its rollback gives back
      the heap it began with, inner committed writes undone as well. */
  lemma RollbackRestores(s: State, steps: seq<Step>)
    requires Inv(s)
    requires AllCareful(Do(s, Begin), steps) && StaysOpen(Do(s, Begin), steps, |s.stack|)
    requires |Run(Do(s, Begin), steps).stack| == |s.stack| + 1
    ensures Do(Run(Do(s, Begin), steps), Rollback).heap == s.heap && Inv(Do(Run(Do(s, Begin), steps), Rollback))
  {
    hide Inv, UndoAll, AllCareful, StaysOpen, Run;
    var t := Do(s, Begin);
    SameDepth(s);
    BeginKeeps(s);
    SavedStays(t, steps, |s.stack|);
    var u := Run(t, steps);
    SameDepth(u);
    RollbackKeeps(u);
  }

  // ----- the array helpers -----

  /** How the runtime changes a length: a shorter one by splicing, any other by assignment. */
  function LengthWrite(h: Heap, id: Id, n: nat): Write
    requires id in h && h[id].length.Some?
  {
    if n < h[id].length.value then Splice(id, n, h[id].length.value - n, []) else SetLength(id, n)
  }

  function PushWrite(h: Heap, id: Id, items: seq<Value>): Write
    requires id in h && h[id].length.Some?
  {
    Splice(id, h[id].length.value, 0, items)
  }

  /** Done that way a change of length drops exactly what the bare assignment drops, but can be undone. */
  lemma LengthWriteIsReversible(h: Heap, id: Id, n: nat)
    requires HeapOk(h) && id in h && h[id].length.Some? && !h[id].frozen
    ensures var w := LengthWrite(h, id, n);
            Applies(h, w) && Reversible(h, w) && DoWrite(h, w).0 == DoWrite(h, SetLength(id, n)).0
  {
    var o := h[id];
    assert ObjectOk(o);
    if n < o.length.value {
      var a, b := Spliced(o, n, o.length.value - n, []), WithLength(o, n);
      assert a.elements == b.elements;
    }
  }

  lemma PushWriteIsReversible(h: Heap, id: Id, items: seq<Value>)
    requires HeapOk(h) && id in h && h[id].length.Some? && !h[id].frozen
    ensures var w, o := PushWrite(h, id, items), h[id];
            && Applies(h, w) && Reversible(h, w)
            && var p := DoWrite(h, w).0[id];
               && p.length == Some(o.length.value + |items|)
               && (forall i: nat | i < o.length.value :: (i in p.elements <==> i in o.elements) && (i in o.elements ==> p.elements[i] == o.elements[i]))
               && (forall i | 0 <= i < |items| :: o.length.value + i in p.elements && p.elements[o.length.value + i] == items[i])
  {
    var o := h[id];
    var p := Spliced(o, o.length.value, 0, items);
    forall i: nat | i < o.length.value ensures (i in p.elements <==> i in o.elements) && (i in o.elements ==> p.elements[i] == o.elements[i]) {
      assert SplicedAt(o.elements, o.length.value, 0, items, i) == if i in o.elements then Some(o.elements[i]) else None;
    }
    forall i | 0 <= i < |items| ensures o.length.value + i in p.elements && p.elements[o.length.value + i] == items[i] {
      assert SplicedAt(o.elements, o.length.value, 0, items, o.length.value + i) == Some(items[i]);
    }
  }

  // ----- where it fails -----

  const PAIR := Object(map[], map[0 := TRUE, 1 := TRUE], Some(2), 0, map[], false)
  const SHRUNK := Object(map[], map[0 := TRUE], Some(1), 0, map[], false)
  const HOLED := Object(map[], map[0 := TRUE], Some(2), 0, map[], false)

  lemma Shrinks()
    ensures Applies(map[1 := PAIR], SetLength(1, 1)) && !Reversible(map[1 := PAIR], SetLength(1, 1))
    ensures DoWrite(map[1 := PAIR], SetLength(1, 1)) == (map[1 := SHRUNK], false)
    ensures UndoOf(map[1 := PAIR], SetLength(1, 1)) == RestoreProperty(1, Length, None, Some(2))
  {
    assert 1 in PAIR.elements;
    assert WithLength(PAIR, 1) == SHRUNK;
    assert map[1 := PAIR][1 := SHRUNK] == map[1 := SHRUNK];
  }

  lemma Lengthens()
    ensures RunUndo(map[1 := SHRUNK], RestoreProperty(1, Length, None, Some(2))) == Some(map[1 := HOLED])
  {
    assert WithLength(SHRUNK, 2) == HOLED;
    assert map[1 := SHRUNK][1 := HOLED] == map[1 := HOLED];
  }

  lemma PairIsWhole()
    ensures Inv(State(map[1 := PAIR], [], []))
  {}

  /** Assigning a shorter length through the property write loses elements for good: the entry puts the length back, not
      what was beyond it. */
  lemma ShorterLengthIsNotUndone()
    ensures var s := State(map[1 := PAIR], [], []);
            && Inv(s) && !Reversible(s.heap, SetLength(1, 1))
            && Do(Do(Do(s, Begin), Perform(SetLength(1, 1))), Rollback) == State(map[1 := HOLED], [], [])
            && HOLED.elements != PAIR.elements
  {
    hide DoWrite, UndoOf, RunUndo, Applies, Reversible, Inv;
    PairIsWhole();
    Shrinks();
    Lengthens();
    var s1 := Do(State(map[1 := PAIR], [], []), Begin);
    assert s1 == State(map[1 := PAIR], [[]], [map[1 := PAIR]]);
    var u := RestoreProperty(1, Length, None, Some(2));
    assert [] + [u] == [u];
    var s2 := Do(s1, Perform(SetLength(1, 1)));
    assert s2 == State(map[1 := SHRUNK], [[u]], [map[1 := PAIR]]);
    UndoOne(s2.heap, u, map[1 := HOLED]);
    assert 1 in PAIR.elements && 1 !in HOLED.elements;
  }

  lemma UndoOne(h: Heap, u: Undo, after: Heap)
    requires RunUndo(h, u) == Some(after)
    ensures UndoAll(h, [u]) == (after, true)
  {
    hide RunUndo;
    assert [u][..0] == [];
  }
}
