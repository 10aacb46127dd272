/** The journal as the runtime keeps it: a stack of entry lists over the live heap. */
module TransactionJournal {
  import opened Values
  import opened Journal

  class TransactionJournal {
    var heap: Heap
    var stack: seq<seq<Undo>>
    var rollingBack: bool
    ghost var saved: seq<Heap>

    ghost function Snapshot(): State
      reads this
    {
      State(heap, stack, saved)
    }

    constructor (heap: Heap)
      requires HeapOk(heap)
      ensures Snapshot() == State(heap, [], []) && Journal.Inv(Snapshot()) && !rollingBack
    {
      this.heap := heap;
      stack := [];
      rollingBack := false;
      saved := [];
    }

    method Begin()
      requires Journal.Inv(Snapshot())
      modifies this
      ensures Snapshot() == Do(old(Snapshot()), Step.Begin) && Journal.Inv(Snapshot()) && rollingBack == old(rollingBack)
    {
      StepKeeps(Snapshot(), Step.Begin);
      stack := stack + [[]];
      saved := saved + [heap];
    }

    /** The entries go to the transaction around; without one they are dropped for good. */
    method Commit() returns (ok: bool)
      requires Journal.Inv(Snapshot())
      modifies this
      ensures ok == (|old(stack)| > 0)
      ensures Snapshot() == Do(old(Snapshot()), Step.Commit) && Journal.Inv(Snapshot()) && rollingBack == old(rollingBack)
    {
      StepKeeps(Snapshot(), Step.Commit);
      if |stack| == 0 { return false; }
      var entries := stack[|stack| - 1];
      stack := stack[..|stack| - 1];
      saved := saved[..|saved| - 1];
      if |stack| > 0 {
        stack := stack[|stack| - 1 := stack[|stack| - 1] + entries];
      }
      ok := true;
    }

    /** Run the entries backwards. None of them throws when every write was reversible, and the heap is what it was at
        the matching begin. */
    method Rollback() returns (ok: bool)
      requires Journal.Inv(Snapshot())
      modifies this
      ensures ok == (|old(stack)| > 0) && (ok ==> !rollingBack)
      ensures Snapshot() == Do(old(Snapshot()), Step.Rollback) && Journal.Inv(Snapshot())
      ensures ok ==> heap == old(saved)[|old(saved)| - 1]
    {
      hide RunUndo;
      ghost var before := Snapshot();
      StepKeeps(before, Step.Rollback);
      if |stack| == 0 { return false; }
      RollbackKeeps(before);
      NothingThrows(before);
      var entries := stack[|stack| - 1];
      stack := stack[..|stack| - 1];
      saved := saved[..|saved| - 1];
      rollingBack := true;
      var i := |entries|;
      assert entries[..i] == entries;
      while i > 0
        invariant 0 <= i <= |entries|
        invariant UndoAll(heap, entries[..i]) == UndoAll(before.heap, entries)
        invariant stack == before.stack[..|before.stack| - 1] && saved == before.saved[..|before.saved| - 1]
      {
        i := i - 1;
        assert entries[..i + 1][..i] == entries[..i];
        heap := RunUndo(heap, entries[i]).value;
      }
      rollingBack := false;
      ok := true;
    }

    /** Journal the entry, then write; a refused write has journaled its entry already. */
    method Perform(w: Write) returns (ok: bool)
      requires Journal.Inv(Snapshot()) && Applies(heap, w) && !rollingBack
      modifies this
      ensures Snapshot() == Do(old(Snapshot()), Step.Perform(w)) && ok == !DoWrite(old(heap), w).1 && !rollingBack
      ensures Reversible(old(heap), w) ==> Journal.Inv(Snapshot())
    {
      ghost var before := Snapshot();
      if Reversible(heap, w) { StepKeeps(before, Step.Perform(w)); }
      if !rollingBack && |stack| > 0 {
        var top := |stack| - 1;
        stack := stack[top := stack[top] + [UndoOf(heap, w)]];
      }
      var (after, refused) := DoWrite(heap, w);
      heap := after;
      ok := !refused;
    }
  }

  lemma NothingThrows(s: State)
    requires Journal.Inv(s) && |s.stack| > 0
    ensures UndoAll(s.heap, s.stack[|s.stack| - 1]).1
  {
    hide RunUndo, HeapOk;
    assert UndoTop(s.heap, s.stack, 1) == (s.saved[|s.saved| - 1], true);
  }
}
