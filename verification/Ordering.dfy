/** Strings in byte order, which is the order of their characters, and insertion into a sorted sequence. */
module Ordering {
  predicate Less(a: string, b: string) {
    b != [] && (a == [] || a[0] < b[0] || (a[0] == b[0] && Less(a[1..], b[1..])))
  }

  lemma {:induction false} Total(a: string, b: string)
    ensures (Less(a, b) && a != b && !Less(b, a)) || (a == b && !Less(a, b)) || (Less(b, a) && a != b && !Less(a, b))
  {
    if a != [] && b != [] && a[0] == b[0] {
      Total(a[1..], b[1..]);
      assert a == [a[0]] + a[1..] && b == [b[0]] + b[1..];
    }
  }

  lemma {:induction false} Transitive(a: string, b: string, c: string)
    requires Less(a, b) && Less(b, c)
    ensures Less(a, c)
  {
    if a != [] && a[0] == b[0] == c[0] {
      Transitive(a[1..], b[1..], c[1..]);
    }
  }

  /** The first position at which two texts differ. */
  predicate Differ(a: string, b: string, i: int) {
    0 <= i < |a| && i < |b| && a[..i] == b[..i] && a[i] != b[i]
  }

  /** One text comes before another that goes on from it, or that has the greater character where they first differ. */
  lemma {:induction false} LessIs(a: string, b: string)
    ensures Less(a, b) <==> a < b || exists i :: Differ(a, b, i) && a[i] < b[i]
    decreases |a|
  {
    if |a| > 0 && |b| > 0 && a[0] == b[0] {
      LessIs(a[1..], b[1..]);
      assert a == [a[0]] + a[1..] && b == [b[0]] + b[1..];
      forall i | i >= 0 ensures Differ(a, b, i + 1) <==> Differ(a[1..], b[1..], i) { DifferLater(a, b, i); }
      if exists i :: Differ(a[1..], b[1..], i) && a[1..][i] < b[1..][i] {
        var i :| Differ(a[1..], b[1..], i) && a[1..][i] < b[1..][i];
        assert Differ(a, b, i + 1) && a[i + 1] < b[i + 1];
      }
      if exists i :: Differ(a, b, i) && a[i] < b[i] {
        var i :| Differ(a, b, i) && a[i] < b[i];
        assert Differ(a, b, (i - 1) + 1);
        assert Differ(a[1..], b[1..], i - 1) && a[1..][i - 1] < b[1..][i - 1];
      }
    } else if |a| > 0 && |b| > 0 {
      assert Differ(a, b, 0);
      forall i ensures Differ(a, b, i) ==> i == 0 { DifferAtOnce(a, b, i); }
    }
  }

  lemma DifferLater(a: string, b: string, i: int)
    requires |a| > 0 && |b| > 0 && a[0] == b[0]
    ensures i >= 0 ==> (Differ(a, b, i + 1) <==> Differ(a[1..], b[1..], i))
  {
    if 0 <= i < |a| && i < |b| {
      assert a[..i + 1] == [a[0]] + a[1..][..i] && b[..i + 1] == [b[0]] + b[1..][..i];
    }
  }

  lemma DifferAtOnce(a: string, b: string, i: int)
    requires |a| > 0 && |b| > 0 && a[0] != b[0]
    ensures Differ(a, b, i) ==> i == 0
  {
    if 0 < i <= |a| && i <= |b| { assert a[..i][0] == a[0] && b[..i][0] == b[0]; }
  }

  function PutAt<T>(s: seq<T>, at: nat, x: T): (r: seq<T>)
    requires at <= |s|
    ensures |r| == |s| + 1 && multiset(r) == multiset(s) + multiset{x}
    ensures forall k :: 0 <= k < |r| ==> r[k] == if k < at then s[k] else if k == at then x else s[k - 1]
  {
    assert s == s[..at] + s[at..];
    s[..at] + [x] + s[at..]
  }
}
