/** Bit positions, bit counts and hash chunks of 32-bit words, as the hash trie uses them. */
module HashBits {
  // ----- word operations, by name -----

  function Half(w: bv32): bv32 {
    w >> 1
  }

  function Double(w: bv32): bv32 {
    w << 1
  }

  function Sixteenth(w: bv32): bv32 {
    w >> 4
  }

  function NextChunk(h: bv32): bv32 {
    h >> 5
  }

  predicate Odd(w: bv32) {
    w & 1 == 1
  }

  function Union(a: bv32, b: bv32): bv32 {
    a | b
  }

  function Meet(a: bv32, b: bv32): bv32 {
    a & b
  }

  /** `a & ~b` */
  function Without(a: bv32, b: bv32): bv32 {
    a & !b
  }

  /** `bit - 1` */
  function Mask(bit: bv32): bv32 {
    bit - 1
  }

  /** Bit `i` of a word. */
  predicate BitAt(w: bv32, i: nat)
    decreases i
  {
    if i == 0 then Odd(w) else BitAt(Half(w), i - 1)
  }

  /** The word with only bit `i` set. */
  function OneBit(i: nat): bv32
    requires i < 32
    decreases i
  {
    if i == 0 then 1 else Double(OneBit(i - 1))
  }

  /** How many of the lowest `i` bits are set. */
  function CountBelow(w: bv32, i: nat): (r: nat)
    ensures r <= i
    decreases i
  {
    if i == 0 then 0 else CountBelow(w, i - 1) + if BitAt(w, i - 1) then 1 else 0
  }

  /** The emitted population count: pairs, nibbles, then one multiplication that adds up the bytes. */
  function Popcount(w: bv32): bv32 {
    AddBytes(AddPairs(SubtractOdd(w)))
  }

  function SubtractOdd(w: bv32): bv32 {
    w - ((w >> 1) & 0x55555555)
  }

  function AddPairs(w: bv32): bv32 {
    (w & 0x33333333) + ((w >> 2) & 0x33333333)
  }

  function AddBytes(w: bv32): bv32 {
    (((w + (w >> 4)) & 0x0f0f0f0f) * 0x01010101) >> 24
  }

  // ----- the count is right -----

  function Nibble(x: bv32): bv32 {
    (x & 1) + ((x >> 1) & 1) + ((x >> 2) & 1) + ((x >> 3) & 1)
  }

  lemma PairsAdd(w: bv32)
    ensures SubtractOdd(w) == (w & 0x55555555) + ((w >> 1) & 0x55555555)
  {}

  lemma NibblesLow(w: bv32, v: bv32)
    requires v == (w & 0x55555555) + ((w >> 1) & 0x55555555)
    ensures AddPairs(v) & 15 == Nibble(w) && (AddPairs(v) >> 4) & 15 == Nibble(w >> 4)
    ensures (AddPairs(v) >> 8) & 15 == Nibble(w >> 8) && (AddPairs(v) >> 12) & 15 == Nibble(w >> 12)
  {}

  lemma NibblesHigh(w: bv32, v: bv32)
    requires v == (w & 0x55555555) + ((w >> 1) & 0x55555555)
    ensures (AddPairs(v) >> 16) & 15 == Nibble(w >> 16) && (AddPairs(v) >> 20) & 15 == Nibble(w >> 20)
    ensures (AddPairs(v) >> 24) & 15 == Nibble(w >> 24) && (AddPairs(v) >> 28) & 15 == Nibble(w >> 28)
    ensures AddPairs(v) & 0x88888888 == 0
  {}

  function Plus(a: bv32, b: bv32): bv32 {
    a + b
  }

  function Number(a: bv32): nat {
    a as nat
  }

  /** The bytes of a word added up. */
  function Bytes(c: bv32): bv32 {
    Plus(Plus(Plus(c & 255, (c >> 8) & 255), (c >> 16) & 255), c >> 24)
  }

  function Folded(b: bv32): bv32 {
    (b & 0x0f0f0f0f) + ((b >> 4) & 0x0f0f0f0f)
  }

  lemma BytesMasked(b: bv32)
    requires b & 0x88888888 == 0
    ensures (b + (b >> 4)) & 0x0f0f0f0f == Folded(b) && Folded(b) & 0xf0f0f0f0 == 0
  {}

  lemma MultiplySpreads(c: bv32)
    ensures c * 0x01010101 == c + (c << 8) + (c << 16) + (c << 24)
  {}

  lemma TopByte(c: bv32)
    requires c & 0xf0f0f0f0 == 0
    ensures (c + (c << 8) + (c << 16) + (c << 24)) >> 24 == Bytes(c)
  {}

  lemma MultiplyAdds(c: bv32)
    requires c & 0xf0f0f0f0 == 0
    ensures (c * 0x01010101) >> 24 == Bytes(c)
  {
    hide Bytes;
    MultiplySpreads(c);
    TopByte(c);
  }

  lemma BytesAdd(b: bv32)
    requires b & 0x88888888 == 0
    ensures AddBytes(b) == Bytes(Folded(b))
  {
    hide Bytes, Folded;
    BytesMasked(b);
    MultiplyAdds(Folded(b));
  }

  lemma BytesOfNibbles(b: bv32, c: bv32)
    requires b & 0x88888888 == 0 && c == Folded(b)
    ensures c & 255 == Plus(b & 15, (b >> 4) & 15)
    ensures (c >> 8) & 255 == Plus((b >> 8) & 15, (b >> 12) & 15)
    ensures (c >> 16) & 255 == Plus((b >> 16) & 15, (b >> 20) & 15)
    ensures c >> 24 == Plus((b >> 24) & 15, (b >> 28) & 15)
  {}

  function EightSum(a: bv32, b: bv32, c: bv32, d: bv32, e: bv32, f: bv32, g: bv32, h: bv32): bv32 {
    Plus(Plus(Plus(Plus(a, b), Plus(c, d)), Plus(e, f)), Plus(g, h))
  }

  lemma PopcountOfNibbles(w: bv32)
    ensures Popcount(w) == EightSum(Nibble(w), Nibble(w >> 4), Nibble(w >> 8), Nibble(w >> 12),
                                    Nibble(w >> 16), Nibble(w >> 20), Nibble(w >> 24), Nibble(w >> 28))
  {
    hide SubtractOdd, AddPairs, AddBytes, Nibble, Plus, Folded;
    var v := SubtractOdd(w);
    PairsAdd(w);
    NibblesLow(w, v);
    NibblesHigh(w, v);
    BytesAdd(AddPairs(v));
    BytesOfNibbles(AddPairs(v), Folded(AddPairs(v)));
  }

  // ----- from words to numbers -----

  lemma PlusSmall(a: bv32, b: bv32)
    requires Number(a) <= 24 && Number(b) <= 8
    ensures Number(Plus(a, b)) == Number(a) + Number(b)
  {
    SmallWords(a, b);
    SmallSum(a, b);
  }

  lemma SmallWords(a: bv32, b: bv32)
    requires Number(a) <= 24 && Number(b) <= 8
    ensures a <= 24 && b <= 8
  {}

  lemma SmallSum(a: bv32, b: bv32)
    requires a <= 24 && b <= 8
    ensures (a + b) as nat == a as nat + b as nat
  {}

  function BitCount(w: bv32, i: nat): nat {
    if BitAt(w, i) then 1 else 0
  }

  lemma FourBits(x: bv32)
    ensures Number(Nibble(x)) == BitCount(x, 0) + BitCount(x, 1) + BitCount(x, 2) + BitCount(x, 3)
  {
    var a, b, c, d := x & 1, (x >> 1) & 1, (x >> 2) & 1, (x >> 3) & 1;
    OneBitSums(a, b, c, d, x);
    LowBits(x);
  }

  lemma OneBitSums(a: bv32, b: bv32, c: bv32, d: bv32, x: bv32)
    requires a == x & 1 && b == (x >> 1) & 1 && c == (x >> 2) & 1 && d == (x >> 3) & 1
    ensures (a + b + c + d) as nat == (if a == 1 then 1 else 0) + (if b == 1 then 1 else 0) + (if c == 1 then 1 else 0) + (if d == 1 then 1 else 0)
  {}

  lemma Halves(w: bv32)
    ensures Half(w) == w >> 1 && Half(Half(w)) == w >> 2 && Half(Half(Half(w))) == w >> 3
    ensures Half(Half(Half(Half(w)))) == Sixteenth(w)
  {}

  lemma LowBits(x: bv32)
    ensures BitAt(x, 0) == (x & 1 == 1) && BitAt(x, 1) == ((x >> 1) & 1 == 1)
    ensures BitAt(x, 2) == ((x >> 2) & 1 == 1) && BitAt(x, 3) == ((x >> 3) & 1 == 1)
  {
    Halves(x);
    assert BitAt(x, 2) == BitAt(Half(x), 1) == BitAt(Half(Half(x)), 0);
    assert BitAt(x, 3) == BitAt(Half(x), 2) == BitAt(Half(Half(x)), 1) == BitAt(Half(Half(Half(x))), 0);
  }

  /** `v` is `w` shifted down by `i`. */
  ghost predicate TailOf(w: bv32, v: bv32, i: nat) {
    forall m: nat | m >= i :: BitAt(w, m) == BitAt(v, m - i)
  }

  lemma BitsShifted(v: bv32)
    ensures forall k: nat | k >= 4 :: BitAt(v, k) == BitAt(Sixteenth(v), k - 4)
  {
    Halves(v);
    hide Half, Odd, Sixteenth;
    forall k: nat | k >= 4 ensures BitAt(v, k) == BitAt(Sixteenth(v), k - 4) {
      assert BitAt(v, k) == BitAt(Half(v), k - 1) == BitAt(Half(Half(v)), k - 2) == BitAt(Half(Half(Half(v))), k - 3)
             == BitAt(Half(Half(Half(Half(v)))), k - 4);
    }
  }

  lemma TailNext(w: bv32, v: bv32, i: nat)
    requires TailOf(w, v, i)
    ensures TailOf(w, Sixteenth(v), i + 4)
    ensures CountBelow(w, i + 4) == CountBelow(w, i) + Number(Nibble(v))
  {
    hide Nibble, Number, Half, Odd, Sixteenth;
    BitsShifted(v);
    forall m: nat | m >= i + 4 ensures BitAt(w, m) == BitAt(Sixteenth(v), m - (i + 4)) {
      assert BitAt(w, m) == BitAt(v, m - i);
    }
    FourBits(v);
    assert BitAt(w, i) == BitAt(v, 0) && BitAt(w, i + 1) == BitAt(v, 1) && BitAt(w, i + 2) == BitAt(v, 2) && BitAt(w, i + 3) == BitAt(v, 3);
    assert CountBelow(w, i + 1) == CountBelow(w, i) + BitCount(v, 0);
    assert CountBelow(w, i + 2) == CountBelow(w, i + 1) + BitCount(v, 1);
    assert CountBelow(w, i + 3) == CountBelow(w, i + 2) + BitCount(v, 2);
    assert CountBelow(w, i + 4) == CountBelow(w, i + 3) + BitCount(v, 3);
  }

  lemma ShiftFours(w: bv32)
    ensures Sixteenth(w) == w >> 4 && Sixteenth(w >> 4) == w >> 8 && Sixteenth(w >> 8) == w >> 12 && Sixteenth(w >> 12) == w >> 16
    ensures Sixteenth(w >> 16) == w >> 20 && Sixteenth(w >> 20) == w >> 24 && Sixteenth(w >> 24) == w >> 28
  {}

  lemma NibbleCounts(w: bv32)
    ensures var b := Sixteenth(w); var c := Sixteenth(b); var d := Sixteenth(c); var e := Sixteenth(d);
            var f := Sixteenth(e); var g := Sixteenth(f);
            CountBelow(w, 32) == Number(Nibble(w)) + Number(Nibble(b)) + Number(Nibble(c)) + Number(Nibble(d))
                                 + Number(Nibble(e)) + Number(Nibble(f)) + Number(Nibble(g)) + Number(Nibble(Sixteenth(g)))
  {
    hide Nibble, Number, BitAt, TailOf, Sixteenth, CountBelow;
    var b := Sixteenth(w); var c := Sixteenth(b); var d := Sixteenth(c); var e := Sixteenth(d);
    var f := Sixteenth(e); var g := Sixteenth(f);
    TailSelf(w);
    TailNext(w, w, 0);
    TailNext(w, b, 4);
    TailNext(w, c, 8);
    TailNext(w, d, 12);
    TailNext(w, e, 16);
    TailNext(w, f, 20);
    TailNext(w, g, 24);
    TailNext(w, Sixteenth(g), 28);
  }

  lemma TailSelf(w: bv32)
    ensures TailOf(w, w, 0) && CountBelow(w, 0) == 0
  {}

  lemma EightSums(a: bv32, b: bv32, c: bv32, d: bv32, e: bv32, f: bv32, g: bv32, h: bv32)
    requires Number(a) <= 4 && Number(b) <= 4 && Number(c) <= 4 && Number(d) <= 4
    requires Number(e) <= 4 && Number(f) <= 4 && Number(g) <= 4 && Number(h) <= 4
    ensures Number(EightSum(a, b, c, d, e, f, g, h))
            == Number(a) + Number(b) + Number(c) + Number(d) + Number(e) + Number(f) + Number(g) + Number(h)
  {
    hide Plus, Number;
    PlusSmall(a, b);
    PlusSmall(c, d);
    PlusSmall(e, f);
    PlusSmall(g, h);
    PlusSmall(Plus(a, b), Plus(c, d));
    PlusSmall(Plus(Plus(a, b), Plus(c, d)), Plus(e, f));
    PlusSmall(Plus(Plus(Plus(a, b), Plus(c, d)), Plus(e, f)), Plus(g, h));
  }

  lemma AtMostFour(x: bv32)
    ensures Number(Nibble(x)) <= 4
  {
    hide Nibble, Number, BitAt;
    FourBits(x);
  }

  lemma NumberIs(a: bv32)
    ensures Number(a) == a as nat
  {}

  /** The emitted count is the number of set bits. */
  lemma PopcountCounts(w: bv32)
    ensures Popcount(w) as nat == CountBelow(w, 32)
  {
    hide Popcount, Nibble, EightSum, CountBelow, Sixteenth, Number;
    var b := Sixteenth(w); var c := Sixteenth(b); var d := Sixteenth(c); var e := Sixteenth(d);
    var f := Sixteenth(e); var g := Sixteenth(f); var h := Sixteenth(g);
    PopcountOfNibbles(w);
    ShiftFours(w);
    NibbleCounts(w);
    AtMostFour(w);
    AtMostFour(b);
    AtMostFour(c);
    AtMostFour(d);
    AtMostFour(e);
    AtMostFour(f);
    AtMostFour(g);
    AtMostFour(h);
    EightSums(Nibble(w), Nibble(b), Nibble(c), Nibble(d), Nibble(e), Nibble(f), Nibble(g), Nibble(h));
    NumberIs(Popcount(w));
  }

  // ----- single bits and masks -----

  lemma UnionHalf(a: bv32, b: bv32)
    ensures Half(Union(a, b)) == Union(Half(a), Half(b)) && (Odd(Union(a, b)) <==> Odd(a) || Odd(b))
  {}

  lemma {:induction false} BitOfUnion(a: bv32, b: bv32, i: nat)
    ensures BitAt(Union(a, b), i) == (BitAt(a, i) || BitAt(b, i))
    decreases i
  {
    hide Union, Half, Odd;
    UnionHalf(a, b);
    if i > 0 { BitOfUnion(Half(a), Half(b), i - 1); }
  }

  lemma MeetHalf(a: bv32, b: bv32)
    ensures Half(Meet(a, b)) == Meet(Half(a), Half(b)) && (Odd(Meet(a, b)) <==> Odd(a) && Odd(b))
  {}

  lemma {:induction false} BitOfMeet(a: bv32, b: bv32, i: nat)
    ensures BitAt(Meet(a, b), i) == (BitAt(a, i) && BitAt(b, i))
    decreases i
  {
    hide Meet, Half, Odd;
    MeetHalf(a, b);
    if i > 0 { BitOfMeet(Half(a), Half(b), i - 1); }
  }

  lemma ZeroHalf()
    ensures Half(0) == 0 && !Odd(0) && Half(1) == 0 && Odd(1) && Mask(1) == 0
  {}

  lemma {:induction false} NoBits(i: nat)
    ensures !BitAt(0, i)
    decreases i
  {
    hide Half, Odd;
    ZeroHalf();
    if i > 0 { NoBits(i - 1); }
  }

  predicate Small(w: bv32) {
    0 < w < 0x80000000
  }

  /** Eight doublings in a row. */
  lemma NextEight(i: nat, x: bv32)
    requires i + 8 < 32 && OneBit(i) == x
    ensures OneBit(i + 1) == Double(x) && OneBit(i + 2) == Double(Double(x)) && OneBit(i + 3) == Double(Double(Double(x)))
    ensures OneBit(i + 4) == Double(Double(Double(Double(x)))) && OneBit(i + 5) == Double(Double(Double(Double(Double(x)))))
    ensures OneBit(i + 6) == Double(Double(Double(Double(Double(Double(x))))))
    ensures OneBit(i + 7) == Double(Double(Double(Double(Double(Double(Double(x)))))))
    ensures OneBit(i + 8) == Double(Double(Double(Double(Double(Double(Double(Double(x))))))))
  {
    hide Double;
    assert OneBit(i + 2) == Double(OneBit(i + 1)) && OneBit(i + 3) == Double(OneBit(i + 2)) && OneBit(i + 4) == Double(OneBit(i + 3));
    assert OneBit(i + 5) == Double(OneBit(i + 4)) && OneBit(i + 6) == Double(OneBit(i + 5));
    assert OneBit(i + 7) == Double(OneBit(i + 6)) && OneBit(i + 8) == Double(OneBit(i + 7));
  }

  /** Doubling a word that has eight bits to spare never reaches the sign bit. */
  lemma EightSmall(x: bv32)
    requires x == 1 || x == 0x100 || x == 0x10000
    ensures Small(x) && Small(Double(x)) && Small(Double(Double(x))) && Small(Double(Double(Double(x))))
    ensures Small(Double(Double(Double(Double(x))))) && Small(Double(Double(Double(Double(Double(x))))))
    ensures Small(Double(Double(Double(Double(Double(Double(x)))))))
    ensures Small(Double(Double(Double(Double(Double(Double(Double(x))))))))
    ensures Double(Double(Double(Double(Double(Double(Double(Double(x)))))))) == x << 8
  {}

  lemma LastEight(x: bv32)
    requires x == 0x1000000
    ensures Small(x) && Small(Double(x)) && Small(Double(Double(x))) && Small(Double(Double(Double(x))))
    ensures Small(Double(Double(Double(Double(x))))) && Small(Double(Double(Double(Double(Double(x))))))
    ensures Small(Double(Double(Double(Double(Double(Double(x)))))))
  {}

  lemma ByteShifts()
    ensures 1 as bv32 << 8 == 0x100 && 0x100 as bv32 << 8 == 0x10000 && 0x10000 as bv32 << 8 == 0x1000000
  {}

  lemma BitOfByte(i: nat, x: bv32, k: nat)
    requires i + 7 < 32 && OneBit(i) == x && k < 8 && (x == 1 || x == 0x100 || x == 0x10000 || (x == 0x1000000 && k < 7))
    requires x == 0x1000000 <==> i == 24
    ensures Small(OneBit(i + k))
  {
    hide Double, Small;
    if i + 8 < 32 {
      NextEight(i, x);
      EightSmall(x);
    } else {
      LastEight(x);
      assert OneBit(i + 1) == Double(OneBit(i)) && OneBit(i + 2) == Double(OneBit(i + 1)) && OneBit(i + 3) == Double(OneBit(i + 2));
      assert OneBit(i + 4) == Double(OneBit(i + 3)) && OneBit(i + 5) == Double(OneBit(i + 4)) && OneBit(i + 6) == Double(OneBit(i + 5));
    }
    assert k == 0 || k == 1 || k == 2 || k == 3 || k == 4 || k == 5 || k == 6 || k == 7;
  }

  /** The first 31 single bits leave the sign bit clear. */
  lemma OneBitSmall(i: nat)
    requires i < 31
    ensures Small(OneBit(i))
  {
    hide Double, Small;
    ByteShifts();
    NextEight(0, 1);
    EightSmall(1);
    NextEight(8, 0x100);
    EightSmall(0x100);
    NextEight(16, 0x10000);
    EightSmall(0x10000);
    if i < 8 { BitOfByte(0, 1, i); }
    else if i < 16 { BitOfByte(8, 0x100, i - 8); }
    else if i < 24 { BitOfByte(16, 0x10000, i - 16); }
    else { BitOfByte(24, 0x1000000, i - 24); }
  }

  lemma DoubleHalf(x: bv32)
    requires Small(x)
    ensures Half(Double(x)) == x && !Odd(Double(x))
  {}

  lemma MaskHalf(x: bv32)
    requires Small(x)
    ensures Half(Mask(Double(x))) == Mask(x) && Odd(Mask(Double(x)))
  {}

  lemma RemoveHalf(w: bv32, x: bv32)
    requires Small(x)
    ensures Half(Without(w, Double(x))) == Without(Half(w), x) && (Odd(Without(w, Double(x))) <==> Odd(w))
  {}

  lemma RemoveLowest(w: bv32)
    ensures Half(Without(w, 1)) == Half(w) && !Odd(Without(w, 1))
  {}

  lemma TestHalf(w: bv32, x: bv32)
    requires Small(x)
    ensures Meet(w, Double(x)) == 0 <==> Meet(Half(w), x) == 0
  {}

  lemma TestLowest(w: bv32)
    ensures Meet(w, 1) == 0 <==> !Odd(w)
  {}

  lemma {:induction false} BitOfOne(i: nat, j: nat)
    requires i < 32
    ensures BitAt(OneBit(i), j) <==> i == j
    decreases i
  {
    hide Half, Odd, Double, Small;
    ZeroHalf();
    if i == 0 {
      if j > 0 { NoBits(j - 1); }
    } else {
      OneBitSmall(i - 1);
      DoubleHalf(OneBit(i - 1));
      if j > 0 { BitOfOne(i - 1, j - 1); }
    }
  }

  /** The mask `bit - 1` has exactly the bits below. */
  lemma {:induction false} BitOfMask(i: nat, j: nat)
    requires i < 32
    ensures BitAt(Mask(OneBit(i)), j) <==> j < i
    decreases i
  {
    hide Half, Odd, Double, Small, Mask;
    ZeroHalf();
    if i == 0 {
      NoBits(j);
    } else {
      OneBitSmall(i - 1);
      MaskHalf(OneBit(i - 1));
      if j > 0 { BitOfMask(i - 1, j - 1); }
    }
  }

  /** `w & ~bit` clears exactly that bit. */
  lemma {:induction false} BitOfRemoved(w: bv32, i: nat, j: nat)
    requires i < 32
    ensures BitAt(Without(w, OneBit(i)), j) <==> BitAt(w, j) && j != i
    decreases i
  {
    hide Half, Odd, Double, Small, Without;
    if i == 0 {
      RemoveLowest(w);
    } else {
      OneBitSmall(i - 1);
      RemoveHalf(w, OneBit(i - 1));
      if j > 0 { BitOfRemoved(Half(w), i - 1, j - 1); }
    }
  }

  /** `w & bit` is zero exactly when the bit is clear. */
  lemma {:induction false} BitTest(w: bv32, i: nat)
    requires i < 32
    ensures Meet(w, OneBit(i)) == 0 <==> !BitAt(w, i)
    decreases i
  {
    hide Half, Odd, Double, Small, Meet;
    TestLowest(w);
    if i > 0 {
      OneBitSmall(i - 1);
      TestHalf(w, OneBit(i - 1));
      BitTest(Half(w), i - 1);
    }
  }

  lemma {:induction false} CountMasked(w: bv32, i: nat, n: nat)
    requires i < 32
    ensures CountBelow(Meet(w, Mask(OneBit(i))), n) == CountBelow(w, if n < i then n else i)
    decreases n
  {
    hide Meet, Mask, OneBit, BitAt;
    if n > 0 {
      CountMasked(w, i, n - 1);
      BitOfMeet(w, Mask(OneBit(i)), n - 1);
      BitOfMask(i, n - 1);
    }
  }

  /** The emitted child index: the number of set bits below the child's own. */
  lemma RankCounts(w: bv32, i: nat)
    requires i < 32
    ensures Popcount(Meet(w, Mask(OneBit(i)))) as nat == CountBelow(w, i)
  {
    hide Popcount, CountBelow, Meet, Mask, OneBit;
    PopcountCounts(Meet(w, Mask(OneBit(i))));
    CountMasked(w, i, 32);
  }

  /** Setting a clear bit adds one above it and nothing below. */
  lemma {:induction false} CountAfterSet(w: bv32, i: nat, n: nat)
    requires i < 32 && !BitAt(w, i)
    ensures CountBelow(Union(w, OneBit(i)), n) == CountBelow(w, n) + if i < n then 1 else 0
    decreases n
  {
    hide Union, OneBit, BitAt;
    if n > 0 {
      CountAfterSet(w, i, n - 1);
      BitOfUnion(w, OneBit(i), n - 1);
      BitOfOne(i, n - 1);
    }
  }

  lemma {:induction false} CountAfterClear(w: bv32, i: nat, n: nat)
    requires i < 32 && BitAt(w, i)
    ensures CountBelow(Without(w, OneBit(i)), n) == CountBelow(w, n) - if i < n then 1 else 0
    decreases n
  {
    hide Without, OneBit, BitAt;
    if n > 0 {
      CountAfterClear(w, i, n - 1);
      BitOfRemoved(w, i, n - 1);
    }
  }

  lemma {:induction false} CountGrows(w: bv32, i: nat, n: nat)
    requires i <= n
    ensures CountBelow(w, i) <= CountBelow(w, n)
    ensures i < n && BitAt(w, i) ==> CountBelow(w, i) < CountBelow(w, n)
    decreases n
  {
    hide BitAt;
    if i < n { CountGrows(w, i, n - 1); }
  }

  /** Every child has a bit. */
  lemma {:induction false} BitOfChild(w: bv32, j: nat, n: nat) returns (i: nat)
    requires j < CountBelow(w, n)
    ensures i < n && BitAt(w, i) && CountBelow(w, i) == j
    decreases n
  {
    hide BitAt;
    if j < CountBelow(w, n - 1) {
      i := BitOfChild(w, j, n - 1);
    } else {
      i := n - 1;
    }
  }

  // ----- hash chunks -----

  const LEVELS := 7

  function LowFive(h: bv32): bv32 {
    h & 31
  }

  /** The five bits of a hash that choose the child at a level; the last level has two bits left. */
  function Chunk(h: bv32, level: nat): (r: nat)
    ensures r < 32
    decreases level
  {
    if level == 0 then LowFive(h) as nat else Chunk(NextChunk(h), level - 1)
  }

  lemma SameLowFive(a: bv32, b: bv32)
    requires LowFive(a) as nat == LowFive(b) as nat
    ensures LowFive(a) == LowFive(b)
  {}

  lemma SameWord(a: bv32, b: bv32)
    requires LowFive(a) == LowFive(b) && NextChunk(a) == NextChunk(b)
    ensures a == b
  {}

  function Drop(h: bv32, levels: nat): bv32
    decreases levels
  {
    if levels == 0 then h else Drop(NextChunk(h), levels - 1)
  }

  lemma {:induction false} ChunksFrom(a: bv32, b: bv32, n: nat)
    requires forall k: nat | k < n :: Chunk(a, k) == Chunk(b, k)
    ensures Drop(a, n) == Drop(b, n) ==> a == b
    decreases n
  {
    hide LowFive, NextChunk;
    if n > 0 {
      assert Chunk(a, 0) == Chunk(b, 0);
      SameLowFive(a, b);
      forall k: nat | k < n - 1 ensures Chunk(NextChunk(a), k) == Chunk(NextChunk(b), k) {
        assert Chunk(a, k + 1) == Chunk(b, k + 1);
      }
      ChunksFrom(NextChunk(a), NextChunk(b), n - 1);
      if NextChunk(a) == NextChunk(b) { SameWord(a, b); }
    }
  }

  lemma ShiftedAway(a: bv32)
    ensures NextChunk(NextChunk(NextChunk(NextChunk(NextChunk(NextChunk(NextChunk(a))))))) == 0
  {}

  lemma DropSeven(a: bv32)
    ensures Drop(a, 7) == NextChunk(NextChunk(NextChunk(NextChunk(NextChunk(NextChunk(NextChunk(a)))))))
  {
    hide NextChunk;
    var b := NextChunk(a); var c := NextChunk(b); var d := NextChunk(c); var e := NextChunk(d); var f := NextChunk(e); var g := NextChunk(f);
    assert Drop(a, 7) == Drop(b, 6) == Drop(c, 5) == Drop(d, 4) == Drop(e, 3) == Drop(f, 2) == Drop(g, 1) == Drop(NextChunk(g), 0);
  }

  /** Distinct hashes differ at one of the seven levels. */
  lemma ChunksDecide(a: bv32, b: bv32)
    requires forall k: nat | k < LEVELS :: Chunk(a, k) == Chunk(b, k)
    ensures a == b
  {
    hide NextChunk, Chunk;
    ChunksFrom(a, b, LEVELS);
    DropSeven(a);
    DropSeven(b);
    ShiftedAway(a);
    ShiftedAway(b);
  }
}
