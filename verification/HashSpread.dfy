/** How far the hashes tell values apart: the mixing step loses nothing, so a change in one place always shows. */
module HashSpread {
  import opened Values
  import opened HashBits
  import opened Structural
  import opened EqualityLaws

  // ----- the mixing step can be undone -----

  function Shift30(x: bv32): bv32 {
    x >> 30
  }

  /** The inverses of the two factors. */
  function Back(x: bv32): bv32 {
    x * 0x333c4925
  }

  function BackNext(x: bv32): bv32 {
    x * 0x97132227
  }

  lemma ProductBack(x: bv32)
    ensures Back(x * 0x21f0aaad) == x && BackNext(x * 0x735a2d97) == x
  {}

  lemma TimesBack(x: bv32)
    ensures Back(Times(x)) == x && BackNext(TimesNext(x)) == x
  {
    hide Back, BackNext;
    ProductBack(x);
  }

  lemma MixIs(x: bv32)
    ensures var a := Times(Xor32(x, Shift16(x))); var b := TimesNext(Xor32(a, Shift15(a)));
            Mix32(x) == Xor32(b, Shift15(b))
  {
    hide Times, TimesNext, Xor32, Shift15, Shift16;
  }

  lemma TimesTells(x: bv32, y: bv32)
    ensures Times(x) == Times(y) ==> x == y
    ensures TimesNext(x) == TimesNext(y) ==> x == y
  {
    hide *;
    TimesBack(x);
    TimesBack(y);
  }

  lemma Shifted16(x: bv32)
    ensures Shift16(Xor32(x, Shift16(x))) == Shift16(x)
  {
    assert (x ^ (x >> 16)) >> 16 == x >> 16;
  }

  lemma Shifted15(x: bv32)
    ensures Shift15(Xor32(x, Shift15(x))) == Xor32(Shift15(x), Shift30(x))
    ensures Shift30(Xor32(x, Shift15(x))) == Shift30(x)
  {
    assert (x ^ (x >> 15)) >> 15 == (x >> 15) ^ (x >> 30);
    assert (x ^ (x >> 15)) >> 30 == x >> 30;
  }

  lemma Fold16Tells(x: bv32, y: bv32)
    requires Xor32(x, Shift16(x)) == Xor32(y, Shift16(y))
    ensures x == y
  {
    hide *;
    Shifted16(x);
    Shifted16(y);
    XorTells(x, y, Shift16(x));
  }

  lemma Fold15Tells(x: bv32, y: bv32)
    requires Xor32(x, Shift15(x)) == Xor32(y, Shift15(y))
    ensures x == y
  {
    hide *;
    Shifted15(x);
    Shifted15(y);
    XorTells(Shift15(x), Shift15(y), Shift30(x));
    XorTells(x, y, Shift15(x));
  }

  /** Different words are mixed into different words. */
  lemma MixTells(x: bv32, y: bv32)
    requires Mix32(x) == Mix32(y)
    ensures x == y
  {
    hide *;
    MixIs(x);
    MixIs(y);
    var a, b := Times(Xor32(x, Shift16(x))), Times(Xor32(y, Shift16(y)));
    Fold15Tells(TimesNext(Xor32(a, Shift15(a))), TimesNext(Xor32(b, Shift15(b))));
    TimesTells(Xor32(a, Shift15(a)), Xor32(b, Shift15(b)));
    Fold15Tells(a, b);
    TimesTells(Xor32(x, Shift16(x)), Xor32(y, Shift16(y)));
    Fold16Tells(x, y);
  }

  lemma XorTells(a: bv32, b: bv32, c: bv32)
    ensures Xor32(a, c) == Xor32(b, c) ==> a == b
    ensures Xor32(c, a) == Xor32(c, b) ==> a == b
  {}

  function Minus(a: bv32, b: bv32): bv32 {
    a - b
  }

  lemma SumBack(a: bv32, c: bv32)
    ensures Minus(a + c, c) == a
  {}

  lemma AddBack(a: bv32, c: bv32)
    ensures Minus(Add32(a, c), c) == a
  {
    hide *;
    AddIs(a, c);
    SumBack(a, c);
  }

  lemma AddTells(a: bv32, b: bv32, c: bv32)
    ensures Add32(a, c) == Add32(b, c) ==> a == b
    ensures Add32(c, a) == Add32(c, b) ==> a == b
  {
    hide *;
    AddSwaps(c, a);
    AddSwaps(c, b);
    AddBack(a, c);
    AddBack(b, c);
  }

  // ----- texts -----

  lemma AddedChar(h: Hash, c: char)
    ensures AddChar(h, c) == Hash(Mix32(Xor32(h.lo, CharCode(c))), Mix32(Add32(h.hi, CharCode(c))))
  {
    hide Mix32, CharCode, Xor32, Add32;
  }

  lemma CharTells(h: Hash, g: Hash, c: char)
    ensures h.lo != g.lo ==> AddChar(h, c).lo != AddChar(g, c).lo
    ensures h.hi != g.hi ==> AddChar(h, c).hi != AddChar(g, c).hi
  {
    hide *;
    AddedChar(h, c);
    AddedChar(g, c);
    XorTells(h.lo, g.lo, CharCode(c));
    AddTells(h.hi, g.hi, CharCode(c));
    if AddChar(h, c).lo == AddChar(g, c).lo { MixTells(Xor32(h.lo, CharCode(c)), Xor32(g.lo, CharCode(c))); }
    if AddChar(h, c).hi == AddChar(g, c).hi { MixTells(Add32(h.hi, CharCode(c)), Add32(g.hi, CharCode(c))); }
  }

  lemma FirstCharTells(h: Hash, c: char, d: char)
    requires CharCode(c) != CharCode(d)
    ensures AddChar(h, c).lo != AddChar(h, d).lo && AddChar(h, c).hi != AddChar(h, d).hi
  {
    hide *;
    AddedChar(h, c);
    AddedChar(h, d);
    XorTells(CharCode(c), CharCode(d), h.lo);
    AddTells(CharCode(c), CharCode(d), h.hi);
    if AddChar(h, c).lo == AddChar(h, d).lo { MixTells(Xor32(h.lo, CharCode(c)), Xor32(h.lo, CharCode(d))); }
    if AddChar(h, c).hi == AddChar(h, d).hi { MixTells(Add32(h.hi, CharCode(c)), Add32(h.hi, CharCode(d))); }
  }

  lemma {:induction false} RestKeeps(text: string, h: Hash, g: Hash)
    requires h.lo != g.lo && h.hi != g.hi
    ensures var x, y := HashStringFrom(text, h), HashStringFrom(text, g); x.lo != y.lo && x.hi != y.hi
    decreases |text|
  {
    hide AddChar;
    if |text| > 0 {
      CharTells(h, g, text[0]);
      RestKeeps(text[1..], AddChar(h, text[0]), AddChar(g, text[0]));
    }
  }

  lemma {:induction false} OneCharFrom(a: string, b: string, i: nat, h: Hash)
    requires |a| == |b| && i < |a| && a[..i] == b[..i] && a[i + 1..] == b[i + 1..] && CharCode(a[i]) != CharCode(b[i])
    ensures var x, y := HashStringFrom(a, h), HashStringFrom(b, h); x.lo != y.lo && x.hi != y.hi
    decreases i
  {
    hide Mix32, CharCode, AddChar;
    if i == 0 {
      FirstCharTells(h, a[0], b[0]);
      RestKeeps(a[1..], AddChar(h, a[0]), AddChar(h, b[0]));
    } else {
      assert a[..i][0] == b[..i][0];
      assert a[1..][..i - 1] == a[..i][1..] && b[1..][..i - 1] == b[..i][1..];
      assert a[1..][i..] == a[i + 1..] && b[1..][i..] == b[i + 1..];
      OneCharFrom(a[1..], b[1..], i - 1, AddChar(h, a[0]));
    }
  }

  /** Two texts that differ in one character have hashes that differ in both halves. */
  lemma OneCharacterTells(a: string, b: string, i: nat)
    requires |a| == |b| && i < |a| && a[..i] == b[..i] && a[i + 1..] == b[i + 1..] && CharCode(a[i]) != CharCode(b[i])
    ensures HashString(a).lo != HashString(b).lo && HashString(a).hi != HashString(b).hi
  {
    hide HashStringFrom, CharCode;
    OneCharFrom(a, b, i, Hash(0x243f6a88, 0x85a308d3));
  }

  // ----- items in order -----

  lemma AddedHash(h: Hash, item: Hash)
    ensures var lo := Mix32(Xor32(h.lo, item.lo)); AddHash(h, item) == Hash(lo, Mix32(Xor32(Xor32(h.hi, item.hi), lo)))
  {
    hide Mix32, Xor32;
  }

  lemma HashTells(h: Hash, g: Hash, item: Hash)
    requires h != g
    ensures AddHash(h, item) != AddHash(g, item)
  {
    hide *;
    AddedHash(h, item);
    AddedHash(g, item);
    if AddHash(h, item) == AddHash(g, item) {
      var lo := AddHash(h, item).lo;
      MixTells(Xor32(h.lo, item.lo), Xor32(g.lo, item.lo));
      XorTells(h.lo, g.lo, item.lo);
      MixTells(Xor32(Xor32(h.hi, item.hi), lo), Xor32(Xor32(g.hi, item.hi), lo));
      XorTells(Xor32(h.hi, item.hi), Xor32(g.hi, item.hi), lo);
      XorTells(h.hi, g.hi, item.hi);
    }
  }

  lemma FirstItemTells(h: Hash, x: Hash, y: Hash)
    requires x != y
    ensures AddHash(h, x) != AddHash(h, y)
  {
    hide *;
    AddedHash(h, x);
    AddedHash(h, y);
    if AddHash(h, x) == AddHash(h, y) {
      var lo := AddHash(h, x).lo;
      MixTells(Xor32(h.lo, x.lo), Xor32(h.lo, y.lo));
      XorTells(x.lo, y.lo, h.lo);
      MixTells(Xor32(Xor32(h.hi, x.hi), lo), Xor32(Xor32(h.hi, y.hi), lo));
      XorTells(Xor32(h.hi, x.hi), Xor32(h.hi, y.hi), lo);
      XorTells(x.hi, y.hi, h.hi);
    }
  }

  lemma {:induction false} ItemsKeep(hashes: seq<Hash>, h: Hash, g: Hash)
    requires h != g
    ensures HashOrderedFrom(hashes, h) != HashOrderedFrom(hashes, g)
    decreases |hashes|
  {
    hide AddHash;
    if |hashes| > 0 {
      HashTells(h, g, hashes[0]);
      ItemsKeep(hashes[1..], AddHash(h, hashes[0]), AddHash(g, hashes[0]));
    }
  }

  lemma {:induction false} OneItemFrom(a: seq<Hash>, b: seq<Hash>, i: nat, h: Hash)
    requires |a| == |b| && i < |a| && a[..i] == b[..i] && a[i + 1..] == b[i + 1..] && a[i] != b[i]
    ensures HashOrderedFrom(a, h) != HashOrderedFrom(b, h)
    decreases i
  {
    hide AddHash;
    if i == 0 {
      FirstItemTells(h, a[0], b[0]);
      ItemsKeep(a[1..], AddHash(h, a[0]), AddHash(h, b[0]));
    } else {
      assert a[..i][0] == b[..i][0];
      assert a[1..][..i - 1] == a[..i][1..] && b[1..][..i - 1] == b[..i][1..];
      assert a[1..][i..] == a[i + 1..] && b[1..][i..] == b[i + 1..];
      OneItemFrom(a[1..], b[1..], i - 1, AddHash(h, a[0]));
    }
  }

  /** Two sequences of hashes that differ in one place are combined to different hashes. */
  lemma OneItemTells(seed: string, a: seq<Hash>, b: seq<Hash>, i: nat)
    requires |a| == |b| && i < |a| && a[..i] == b[..i] && a[i + 1..] == b[i + 1..] && a[i] != b[i]
    ensures HashOrdered(seed, a) != HashOrdered(seed, b)
  {
    hide HashOrderedFrom, HashString;
    OneItemFrom(a, b, i, HashString(seed));
  }

  /** So are the same hashes under different seeds. */
  lemma SeedTells(seed: string, other: string, hashes: seq<Hash>)
    requires HashString(seed) != HashString(other)
    ensures HashOrdered(seed, hashes) != HashOrdered(other, hashes)
  {
    hide HashOrderedFrom, HashString;
    ItemsKeep(hashes, HashString(seed), HashString(other));
  }

  // ----- integers -----

  lemma WordIsSmall(w: bv32)
    ensures (w as nat) < 0x1_0000_0000
  {}

  lemma ThereAndBack(w: bv32, v: nat)
    requires v == w as nat
    ensures v < 0x1_0000_0000 && v as bv32 == w
  {}

  lemma WordIs(v: nat)
    requires v < 0x1_0000_0000
    ensures Word(v) == v as bv32
  {
    assert v % 0x1_0000_0000 == v;
  }

  lemma WordOf(w: bv32)
    ensures Word(w as nat) == w
  {
    hide Word;
    ThereAndBack(w, w as nat);
    WordIs(w as nat);
  }

  lemma OneLimb(v: nat, h: Hash)
    requires v < 0x1_0000_0000
    ensures HashLimbs(v, h).lo == Mix32(Xor32(h.lo, Word(v)))
  {
    hide Mix32, Word, Xor32;
  }

  const POSITIVE := Hash(0x6a09e667, 0xbb67ae85)

  lemma LimbTells(v: nat, w: nat, h: Hash)
    requires v < 0x1_0000_0000 && w < 0x1_0000_0000 && Word(v) != Word(w)
    ensures HashLimbs(v, h).lo != HashLimbs(w, h).lo
  {
    hide *;
    OneLimb(v, h);
    OneLimb(w, h);
    XorTells(Word(v), Word(w), h.lo);
    if HashLimbs(v, h).lo == HashLimbs(w, h).lo { MixTells(Xor32(h.lo, Word(v)), Xor32(h.lo, Word(w))); }
  }

  lemma IntegerIs(v: nat)
    ensures HashInteger(v) == HashOrdered("integer", [HashLimbs(v, POSITIVE)])
  {
    hide HashOrdered, HashLimbs;
  }

  lemma IntegersTell(v: nat, w: nat)
    requires v < 0x1_0000_0000 && w < 0x1_0000_0000 && Word(v) != Word(w)
    ensures HashInteger(v) != HashInteger(w)
  {
    hide *;
    LimbTells(v, w, POSITIVE);
    IntegerIs(v);
    IntegerIs(w);
    var a, b := [HashLimbs(v, POSITIVE)], [HashLimbs(w, POSITIVE)];
    assert a[..0] == b[..0] && a[1..] == b[1..];
    OneItemTells("integer", a, b, 0);
  }

  const NEGATIVE := Hash(0x4f1bbcdc, 0xbb67ae85)

  lemma SignsApart()
    ensures POSITIVE.lo != NEGATIVE.lo
  {}

  lemma NegativeIs(v: int)
    requires v > 0
    ensures HashInteger(-v) == HashOrdered("integer", [HashLimbs(v, NEGATIVE)])
  {
    hide HashOrdered, HashLimbs;
  }

  /** A number and its negative have different hashes. */
  lemma SignTells(v: int)
    requires 0 < v < 0x1_0000_0000
    ensures HashOf(IntBox(v)) != HashOf(IntBox(-v))
  {
    hide *;
    IntegerIs(v);
    NegativeIs(v);
    NegativeHash(v);
    BoxedHash(v);
    OneLimb(v, POSITIVE);
    OneLimb(v, NEGATIVE);
    SignsApart();
    XorTells(POSITIVE.lo, NEGATIVE.lo, Word(v));
    if HashLimbs(v, POSITIVE).lo == HashLimbs(v, NEGATIVE).lo {
      MixTells(Xor32(POSITIVE.lo, Word(v)), Xor32(NEGATIVE.lo, Word(v)));
    }
    var a, b := [HashLimbs(v, POSITIVE)], [HashLimbs(v, NEGATIVE)];
    assert a[..0] == b[..0] && a[1..] == b[1..];
    OneItemTells("integer", a, b, 0);
  }

  lemma NegativeHash(v: int)
    ensures HashOf(IntBox(-v)) == HashInteger(-v)
  {
    hide HashInteger;
  }

  lemma BoxedHash(v: nat)
    ensures HashOf(IntBox(v)) == HashOf(UintBox(v)) == HashInteger(v)
  {
    hide HashInteger;
  }

  /** Integers below two to the 32nd have different hashes, whatever box they are in. */
  lemma SmallIntegersDiffer(v: bv32, w: bv32)
    requires v != w
    ensures HashOf(IntBox(v as int)) != HashOf(IntBox(w as int)) && HashOf(UintBox(v as nat)) != HashOf(UintBox(w as nat))
    ensures HashOf(IntBox(v as int)) != HashOf(UintBox(w as nat))
  {
    hide *;
    WordIsSmall(v);
    WordIsSmall(w);
    WordOf(v);
    WordOf(w);
    IntegersTell(v as nat, w as nat);
    BoxedHash(v as nat);
    BoxedHash(w as nat);
  }

  // ----- composite values -----

  lemma PayloadHash(kind: string, text: string)
    ensures HashOf(Payload(kind, text)) == HashOrdered(kind, [HashString(text)])
  {
    hide HashOrdered, HashString;
  }

  /** Payloads of one kind that differ in one character have different hashes. */
  lemma PayloadsDiffer(kind: string, a: string, b: string, i: nat)
    requires |a| == |b| && i < |a| && a[..i] == b[..i] && a[i + 1..] == b[i + 1..] && CharCode(a[i]) != CharCode(b[i])
    ensures HashOf(Payload(kind, a)) != HashOf(Payload(kind, b))
  {
    hide *;
    OneCharacterTells(a, b, i);
    PayloadHash(kind, a);
    PayloadHash(kind, b);
    var x, y := [HashString(a)], [HashString(b)];
    assert x[..0] == y[..0] && x[1..] == y[1..];
    OneItemTells(kind, x, y, 0);
  }

  lemma SequenceHash(items: seq<Datum>)
    ensures HashOf(ListBox(items)) == HashOrdered("list", HashesOf(items))
    ensures HashOf(TupleBox(items)) == HashOrdered("tuple", HashesOf(items))
  {
    hide HashOrdered, HashesOf;
  }

  /** So have lists and tuples that differ in one place, where the hashes of their items differ. */
  lemma SequencesDiffer(xs: seq<Datum>, ys: seq<Datum>, i: nat)
    requires |xs| == |ys| && i < |xs| && xs[..i] == ys[..i] && xs[i + 1..] == ys[i + 1..] && HashOf(xs[i]) != HashOf(ys[i])
    ensures HashOf(ListBox(xs)) != HashOf(ListBox(ys)) && HashOf(TupleBox(xs)) != HashOf(TupleBox(ys))
  {
    hide *;
    SequenceHash(xs);
    SequenceHash(ys);
    HashesEach(xs);
    HashesEach(ys);
    var a, b := HashesOf(xs), HashesOf(ys);
    forall k | 0 <= k < i ensures a[k] == b[k] { assert xs[..i][k] == ys[..i][k]; }
    forall k | i < k < |xs| ensures a[k] == b[k] { assert xs[i + 1..][k - i - 1] == ys[i + 1..][k - i - 1]; }
    assert a[..i] == b[..i] && a[i + 1..] == b[i + 1..];
    OneItemTells("list", a, b, i);
    OneItemTells("tuple", a, b, i);
  }

  lemma NominalHash(tag: Option<string>, identity: string, members: seq<Member>)
    ensures HashOf(Nominal(tag, identity, members)) == HashOrdered("nominal:" + identity, MemberHashes(members))
  {
    hide HashOrdered, MemberHashes;
  }

  lemma MemberTells(x: Member, y: Member)
    requires x.name == y.name && HashOf(x.value) != HashOf(y.value)
    ensures MemberHash(x) != MemberHash(y)
  {
    hide HashOf, HashOrdered, HashString;
    var a, b := [HashString(x.name), HashOf(x.value)], [HashString(y.name), HashOf(y.value)];
    assert a[..1] == b[..1] && a[2..] == b[2..];
    OneItemTells("field", a, b, 1);
  }

  /** So have structs and variants that differ in one member. */
  lemma NominalsDiffer(tag: Option<string>, identity: string, xs: seq<Member>, ys: seq<Member>, i: nat)
    requires |xs| == |ys| && i < |xs| && xs[..i] == ys[..i] && xs[i + 1..] == ys[i + 1..]
    requires xs[i].name == ys[i].name && HashOf(xs[i].value) != HashOf(ys[i].value)
    ensures HashOf(Nominal(tag, identity, xs)) != HashOf(Nominal(tag, identity, ys))
  {
    hide *;
    NominalHash(tag, identity, xs);
    NominalHash(tag, identity, ys);
    MemberHashesEach(xs);
    MemberHashesEach(ys);
    MemberTells(xs[i], ys[i]);
    var a, b := MemberHashes(xs), MemberHashes(ys);
    forall k | 0 <= k < i ensures a[k] == b[k] { assert xs[..i][k] == ys[..i][k]; }
    forall k | i < k < |xs| ensures a[k] == b[k] { assert xs[i + 1..][k - i - 1] == ys[i + 1..][k - i - 1]; }
    assert a[..i] == b[..i] && a[i + 1..] == b[i + 1..];
    OneItemTells("nominal:" + identity, a, b, i);
  }

  /** So have those of two types whose identities differ in one character. */
  lemma IdentitiesDiffer(tag: Option<string>, a: string, b: string, i: nat, members: seq<Member>)
    requires |a| == |b| && i < |a| && a[..i] == b[..i] && a[i + 1..] == b[i + 1..] && CharCode(a[i]) != CharCode(b[i])
    ensures HashOf(Nominal(tag, a, members)) != HashOf(Nominal(tag, b, members))
  {
    hide *;
    NominalHash(tag, a, members);
    NominalHash(tag, b, members);
    var prefix := "nominal:";
    var x, y, n := prefix + a, prefix + b, |prefix| + i;
    assert x[..n] == prefix + a[..i] && y[..n] == prefix + b[..i];
    assert x[n + 1..] == a[i + 1..] && y[n + 1..] == b[i + 1..];
    assert x[n] == a[i] && y[n] == b[i];
    OneCharacterTells(x, y, n);
    SeedTells(x, y, MemberHashes(members));
  }

  // ----- the hash of a key -----

  /** A key's hash brings both halves together. */
  lemma KeyHashIs(d: Datum)
    ensures KeyHash(d) == Xor32(HashOf(d).lo, HashOf(d).hi)
  {
    hide HashOf;
    HalvesMeet(HashOf(d).lo, HashOf(d).hi);
  }

  lemma HalvesMeet(lo: bv32, hi: bv32)
    ensures FoldHash(PackHash(Hash(lo, hi))) == Xor32(lo, hi)
  {}
}
