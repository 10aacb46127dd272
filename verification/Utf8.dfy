/** Texts are UTF-8 bytes, as a string slice holds them: well-formed by type, cut only at character boundaries. */
module Utf8 {
  type Byte = b: int | 0 <= b < 256

  predicate Continuation(b: Byte) { 0x80 <= b < 0xC0 }

  /** How many bytes the character at the head takes; 0 when the head is ill-formed (Unicode, table 3-7). */
  function Width(s: seq<Byte>): (w: nat)
    ensures w <= 4 && w <= |s|
    ensures w > 0 ==> !Continuation(s[0]) && forall k :: 0 < k < w ==> Continuation(s[k])
  {
    if |s| == 0 then 0
    else if s[0] < 0x80 then 1
    else if 0xC2 <= s[0] <= 0xDF then
      if |s| >= 2 && Continuation(s[1]) then 2 else 0
    else if 0xE0 <= s[0] <= 0xEF then
      if |s| >= 3 && Continuation(s[1]) && Continuation(s[2])
         && (s[0] == 0xE0 ==> s[1] >= 0xA0) && (s[0] == 0xED ==> s[1] < 0xA0) then 3 else 0
    else if 0xF0 <= s[0] <= 0xF4 then
      if |s| >= 4 && Continuation(s[1]) && Continuation(s[2]) && Continuation(s[3])
         && (s[0] == 0xF0 ==> s[1] >= 0x90) && (s[0] == 0xF4 ==> s[1] < 0x90) then 4 else 0
    else 0
  }

  predicate WellFormed(s: seq<Byte>) {
    s == [] || (Width(s) > 0 && WellFormed(s[Width(s)..]))
  }

  type Text = s: seq<Byte> | WellFormed(s)

  /** A boundary is either end of the text, or the first byte of a character. */
  predicate IsBoundary(s: seq<Byte>, index: nat) {
    index == 0 || index == |s| || (index < |s| && !Continuation(s[index]))
  }

  /** The head character looks no further than its own bytes. */
  lemma WidthIsLocal(s: seq<Byte>, t: seq<Byte>)
    requires Width(s) > 0 && |t| >= Width(s) && t[..Width(s)] == s[..Width(s)]
    ensures Width(t) == Width(s)
  {
    forall k | 0 <= k < Width(s) ensures t[k] == s[k] {
      assert t[k] == t[..Width(s)][k] == s[..Width(s)][k];
    }
  }

  lemma JoinCut(s: seq<Byte>, t: seq<Byte>, w: nat)
    requires w <= |s|
    ensures (s + t)[..w] == s[..w] && (s + t)[w..] == s[w..] + t
  {}

  lemma {:induction false} Joined(s: seq<Byte>, t: seq<Byte>)
    requires WellFormed(s) && WellFormed(t)
    ensures WellFormed(s + t)
    decreases |s|
  {
    if s == [] {
      assert s + t == t;
    } else {
      var w := Width(s);
      assert 0 < w <= |s|;
      hide Width;
      JoinCut(s, t, w);
      WidthIsLocal(s, s + t);
      Joined(s[w..], t);
    }
  }

  lemma SliceOfRest(s: seq<Byte>, w: nat, index: nat)
    requires w <= index <= |s|
    ensures s[index..] == s[w..][index - w..]
    ensures s[..index][w..] == s[w..][..index - w] && s[..index][..w] == s[..w]
  {
  }

  /** Well-formed text falls into well-formed halves exactly at its boundaries. */
  lemma {:induction false} SplitsAtBoundaries(s: seq<Byte>, index: nat)
    requires WellFormed(s) && index <= |s|
    ensures IsBoundary(s, index) <==> WellFormed(s[..index]) && WellFormed(s[index..])
    decreases |s|
  {
    if index == 0 {
      assert s[..0] == [] && s[0..] == s;
    } else if index == |s| {
      assert s[..index] == s && s[index..] == [];
    } else if index < Width(s) {
      assert Width(s[index..]) == 0;
    } else {
      hide Width, Continuation;
      var w := Width(s);
      SplitsAtBoundaries(s[w..], index - w);
      SliceOfRest(s, w, index);
      WidthIsLocal(s, s[..index]);
      if index == w { HeadIsBoundary(s[w..]); }
    }
  }

  lemma HeadIsBoundary(s: seq<Byte>)
    requires WellFormed(s) && s != []
    ensures !Continuation(s[0])
  {
  }

  /** A slice between two boundaries is text again. */
  lemma SliceIsText(s: Text, start: nat, end: nat)
    requires start <= end <= |s| && IsBoundary(s, start) && IsBoundary(s, end)
    ensures WellFormed(s[start..end])
  {
    SplitsAtBoundaries(s, end);
    SplitsAtBoundaries(s[..end], start);
    assert s[..end][start..] == s[start..end];
  }

  // ----- what the bytes stand for -----

  /** Every code point but the surrogates. */
  predicate IsScalar(c: int) {
    0 <= c < 0xD800 || 0xE000 <= c < 0x110000
  }

  /** Six bits of a code point, behind the mark of a continuation byte. */
  function Tail(bits: nat): Byte
    requires bits < 64
  {
    0x80 + bits
  }

  /** UTF-8 as section 3 of RFC 3629 lays it out. */
  function Encode(c: nat): (r: seq<Byte>)
    requires IsScalar(c)
    ensures 1 <= |r| <= 4
  {
    if c < 0x80 then [c]
    else if c < 0x800 then [0xC0 + c / 0x40, Tail(c % 0x40)]
    else if c < 0x10000 then [0xE0 + c / 0x1000, Tail(c / 0x40 % 0x40), Tail(c % 0x40)]
    else [0xF0 + c / 0x40000, Tail(c / 0x1000 % 0x40), Tail(c / 0x40 % 0x40), Tail(c % 0x40)]
  }

  function EncodeAll(cs: seq<nat>): seq<Byte>
    requires forall i | 0 <= i < |cs| :: IsScalar(cs[i])
    decreases |cs|
  {
    if cs == [] then [] else Encode(cs[0]) + EncodeAll(cs[1..])
  }

  function Bits(b: Byte, mark: int): int {
    b - mark
  }

  /** The code point whose bytes are at the head. */
  function Head(s: seq<Byte>): nat
    requires Width(s) > 0
  {
    match Width(s)
    case 1 => s[0]
    case 2 => Bits(s[0], 0xC0) * 0x40 + Bits(s[1], 0x80)
    case 3 => Bits(s[0], 0xE0) * 0x1000 + Bits(s[1], 0x80) * 0x40 + Bits(s[2], 0x80)
    case _ => Bits(s[0], 0xF0) * 0x40000 + Bits(s[1], 0x80) * 0x1000 + Bits(s[2], 0x80) * 0x40 + Bits(s[3], 0x80)
  }

  lemma TwoDigits(a: nat, b: nat)
    requires b < 0x40
    ensures (a * 0x40 + b) / 0x40 == a && (a * 0x40 + b) % 0x40 == b
  {}

  lemma ShiftTwice(c: nat)
    ensures c / 0x40 / 0x40 == c / 0x1000 && c / 0x1000 / 0x40 == c / 0x40000
  {}

  lemma ThreeDigits(a: nat, b: nat, c: nat)
    requires b < 0x40 && c < 0x40
    ensures var v := a * 0x1000 + b * 0x40 + c; v / 0x1000 == a && v / 0x40 % 0x40 == b && v % 0x40 == c
  {
    TwoDigits(a * 0x40 + b, c);
    TwoDigits(a, b);
    ShiftTwice(a * 0x1000 + b * 0x40 + c);
  }

  lemma FourDigits(a: nat, b: nat, c: nat, d: nat)
    requires b < 0x40 && c < 0x40 && d < 0x40
    ensures var v := a * 0x40000 + b * 0x1000 + c * 0x40 + d;
            v / 0x40000 == a && v / 0x1000 % 0x40 == b && v / 0x40 % 0x40 == c && v % 0x40 == d
  {
    ThreeDigits(a * 0x40 + b, c, d);
    TwoDigits(a, b);
    ShiftTwice(a * 0x40000 + b * 0x1000 + c * 0x40 + d);
  }

  /** A character's bytes are those of one code point. */
  lemma HeadIsScalar(s: seq<Byte>)
    requires Width(s) > 0
    ensures IsScalar(Head(s)) && Encode(Head(s)) == s[..Width(s)]
  {
    match Width(s)
    case 1 =>
    case 2 => TwoDigits(Bits(s[0], 0xC0), Bits(s[1], 0x80));
    case 3 => HeadOfThree(s);
    case _ => HeadOfFour(s);
  }

  lemma HeadOfThree(s: seq<Byte>)
    requires Width(s) == 3
    ensures IsScalar(Head(s)) && Encode(Head(s)) == s[..3]
  {
    var c := Head(s);
    ThreeDigits(Bits(s[0], 0xE0), Bits(s[1], 0x80), Bits(s[2], 0x80));
    assert 0x800 <= c < 0x10000 && IsScalar(c);
    hide Width, Head;
    assert Encode(c) == [s[0], s[1], s[2]];
  }

  lemma HeadOfFour(s: seq<Byte>)
    requires Width(s) == 4
    ensures IsScalar(Head(s)) && Encode(Head(s)) == s[..4]
  {
    var c := Head(s);
    FourDigits(Bits(s[0], 0xF0), Bits(s[1], 0x80), Bits(s[2], 0x80), Bits(s[3], 0x80));
    assert 0x10000 <= c < 0x110000;
    hide Width, Head;
    assert Encode(c) == [s[0], s[1], s[2], s[3]];
  }

  lemma EncodedHead(c: nat, rest: seq<Byte>)
    requires IsScalar(c)
    ensures Width(Encode(c) + rest) == |Encode(c)|
  {
    ShiftTwice(c);
    var s := Encode(c) + rest;
    assert forall k | 0 <= k < |Encode(c)| :: s[k] == Encode(c)[k];
  }

  /** Text is exactly what some sequence of code points encodes to. */
  lemma {:induction false} EncodedIsText(cs: seq<nat>)
    requires forall i | 0 <= i < |cs| :: IsScalar(cs[i])
    ensures WellFormed(EncodeAll(cs))
    decreases |cs|
  {
    hide Width, Encode;
    if cs != [] {
      var rest := EncodeAll(cs[1..]);
      EncodedIsText(cs[1..]);
      EncodedHead(cs[0], rest);
      assert (Encode(cs[0]) + rest)[|Encode(cs[0])|..] == rest;
    }
  }

  lemma {:induction false} TextIsEncoded(s: seq<Byte>) returns (cs: seq<nat>)
    requires WellFormed(s)
    ensures (forall i | 0 <= i < |cs| :: IsScalar(cs[i])) && EncodeAll(cs) == s
    decreases |s|
  {
    hide Width, Encode, Head, IsScalar;
    if s == [] {
      cs := [];
    } else {
      HeadIsScalar(s);
      var rest := TextIsEncoded(s[Width(s)..]);
      cs := [Head(s)] + rest;
      assert s == s[..Width(s)] + s[Width(s)..];
    }
  }
}
