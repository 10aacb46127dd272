/** The hash combinators and bulk construction as the loops they are. */
module HashLoops {
  import opened Values
  import opened Structural
  import opened HashTrie
  import opened StructuralLaws
  import opened EqualityLaws
  import opened HashMap
  import opened Denotation

  method StringHash(text: string) returns (h: Hash)
    ensures h == HashString(text)
  {
    hide AddChar;
    h := Hash(0x243f6a88, 0x85a308d3);
    var index := 0;
    while index < |text|
      invariant index <= |text| && HashStringFrom(text[index..], h) == HashString(text)
    {
      assert text[index..][1..] == text[index + 1..];
      h := AddChar(h, text[index]);
      index := index + 1;
    }
  }

  method OrderedHash(seed: string, hashes: seq<Hash>) returns (h: Hash)
    ensures h == HashOrdered(seed, hashes)
  {
    hide AddHash, HashString;
    h := StringHash(seed);
    var index := 0;
    while index < |hashes|
      invariant index <= |hashes| && HashOrderedFrom(hashes[index..], h) == HashOrdered(seed, hashes)
    {
      assert hashes[index..][1..] == hashes[index + 1..];
      h := AddHash(h, hashes[index]);
      index := index + 1;
    }
  }

  /** Items enter only through sums and exclusive ors, so the result does not depend on their order. */
  method UnorderedHash(seed: string, hashes: seq<Hash>) returns (h: Hash)
    ensures h == HashUnordered(seed, hashes)
    ensures forall other | multiset(other) == multiset(hashes) :: h == HashUnordered(seed, other)
  {
    hide Mix32, HashOrdered, AddItem;
    var sums := Sums(0, 0, 0, 0, 0);
    var index := 0;
    while index < |hashes|
      invariant index <= |hashes| && SumItems(hashes[index..], sums) == SumItems(hashes, Sums(0, 0, 0, 0, 0))
    {
      assert hashes[index..][1..] == hashes[index + 1..];
      sums := AddItem(sums, hashes[index]);
      index := index + 1;
    }
    h := OrderedHash(seed, [Hash(sums.sumLo, sums.sumHi), Hash(sums.xorLo, sums.xorHi), Hash(sums.count, Mix32(sums.count))]);
    forall other | multiset(other) == multiset(hashes) ensures h == HashUnordered(seed, other) {
      UnorderedAgrees(seed, hashes, other);
    }
  }

  /** Limb by limb, lowest first, at least one. */
  method IntegerHash(v: int) returns (h: Hash)
    ensures h == HashInteger(v)
  {
    hide Mix32, HashOrdered, Word, Xor32;
    var magnitude: nat := if v < 0 then -v else v;
    var start := Hash(if v < 0 then 0x4f1bbcdc else 0x6a09e667, 0xbb67ae85);
    ghost var whole := HashLimbs(magnitude, start);
    var limbs := start;
    var more := true;
    while more
      invariant if more then HashLimbs(magnitude, limbs) == whole else limbs == whole
      decreases more, magnitude
    {
      var lo := Mix32(Xor32(limbs.lo, Word(magnitude)));
      limbs := Hash(lo, Mix32(limbs.hi ^ lo));
      magnitude := magnitude / 0x1_0000_0000;
      more := magnitude != 0;
    }
    h := OrderedHash("integer", [limbs]);
  }

  // ----- building a map from entries -----

  /** The value of the last entry with an equal key. */
  function LastOf(entries: seq<Pair>, key: Datum): Option<Datum>
    decreases |entries|
  {
    if |entries| == 0 then None else
    var last := entries[|entries| - 1];
    if Equals(last.key, key) then Some(last.value) else LastOf(entries[..|entries| - 1], key)
  }

  /** Entries are set in order: under every key the last equal one counts, and the size is the number of distinct keys. */
  method FromEntries(entries: seq<Pair>) returns (m: Datum)
    requires AllOk(entries)
    ensures IsMap(m) && forall k | Ok(k) :: MapGet(m, k) == LastOf(entries, k)
    ensures m.size == |Entries(m.root)| && Apart(Entries(m.root))
    ensures Denotes(m) == Mapped(Updates(map[], entries))
  {
    hide Equals, Ok, Entries, Get, KeyHash, Denotes, Updates, MapSet;
    m := EMPTY_MAP;
    EmptyMap();
    var index := 0;
    while index < |entries|
      invariant index <= |entries| && IsMap(m)
      invariant forall k | Ok(k) :: MapGet(m, k) == LastOf(entries[..index], k)
      invariant Denotes(m) == Mapped(Updates(map[], entries[..index]))
    {
      var key, value := entries[index].key, entries[index].value;
      assert PairOk(entries[index]);
      ghost var before := m;
      m := MapSet(m, key, value);
      SetRefines(before, key, value, key);
      SetDenotes(before, key, value);
      OneMoreUpdate(map[], entries, index);
      assert entries[..index + 1][..index] == entries[..index];
      forall k | Ok(k) ensures MapGet(m, k) == LastOf(entries[..index + 1], k) { SetRefines(before, key, value, k); }
      index := index + 1;
    }
    assert entries[..index] == entries;
    VoidIsOk();
    MapFacts(m, Void);
  }

  lemma EmptyMap()
    ensures IsMap(EMPTY_MAP) && forall k :: MapGet(EMPTY_MAP, k) == None
    ensures Denotes(EMPTY_MAP) == Mapped(Updates(map[], []))
  {
    hide KeyHash;
  }
}
