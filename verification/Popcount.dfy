/** The word-parallel bit count of `popcnt`, and that it counts. */
module Popcount {
  import opened Words

  // The four lines of the loop body
  function Pairs(v: bv64): bv64 { (v & 0x5555555555555555) + ((v & 0xAAAAAAAAAAAAAAAA) >> 1) }
  function Nibbles(v: bv64): bv64 { (v & 0x3333333333333333) + ((v & 0xCCCCCCCCCCCCCCCC) >> 2) }
  function Bytes(v: bv64): bv64 { (v & 0x0F0F0F0F0F0F0F0F) + ((v & 0xF0F0F0F0F0F0F0F0) >> 4) }
  function Gather(v: bv64): bv64 { ((v * 0x0101010101010101) >> 56) & 0xFF }

  function CountWord(v: bv64): bv64 { Gather(Bytes(Nibbles(Pairs(v)))) }

  // Every pair of bits is at most 2, every nibble at most 4, every byte at most 8
  predicate PairsFit(p: bv64) { p & (p >> 1) & 0x5555555555555555 == 0 }
  predicate NibblesFit(n: bv64) { n & 0x8888888888888888 == 0 && (n >> 2) & (n | (n >> 1)) & 0x1111111111111111 == 0 }
  predicate BytesFit(b: bv64) {
    b & 0xF0F0F0F0F0F0F0F0 == 0 && (b >> 3) & (b | (b >> 1) | (b >> 2)) & 0x0101010101010101 == 0
  }

  lemma PairsInRange(w: bv64)
    ensures PairsFit(Pairs(w))
  {}

  lemma NibblesInRange(p: bv64)
    requires PairsFit(p)
    ensures NibblesFit(Nibbles(p))
  {}

  lemma BytesInRange(n: bv64)
    requires NibblesFit(n)
    ensures BytesFit(Bytes(n))
  {}

  // One more bit adds one to its pair, then to its nibble, then to its byte

  function Plus(x: bv64, k: bv6): bv64 { x + One(k) }
  function Succ(x: bv64): bv64 { x + 1 }

  lemma LowBitSum(w: bv64, k: bv6)
    requires !Test(w, k) && k & 1 == 0
    ensures Pairs(w | One(k)) == Pairs(w) + One(k)
  {}

  lemma LowBit(w: bv64, k: bv6)
    requires !Test(w, k) && k & 1 == 0
    ensures Pairs(w | One(k)) == Plus(Pairs(w), k)
  {
    hide One, Test, Pairs;
    LowBitSum(w, k);
  }

  lemma HighBitSum(w: bv64, k: bv6)
    requires !Test(w, k) && k & 1 == 1
    ensures Pairs(w | One(k)) == Pairs(w) + One(k - 1)
  {}

  lemma HighBit(w: bv64, k: bv6)
    requires !Test(w, k) && k & 1 == 1
    ensures Pairs(w | One(k)) == Plus(Pairs(w), k - 1)
  {
    hide One, Test, Pairs;
    HighBitSum(w, k);
  }

  lemma LowPairSum(p: bv64, k: bv6)
    requires PairsFit(p) && PairsFit(p + One(k)) && k & 3 == 0
    ensures Nibbles(p + One(k)) == Nibbles(p) + One(k)
  {}

  lemma LowPair(p: bv64, k: bv6)
    requires PairsFit(p) && PairsFit(Plus(p, k)) && k & 3 == 0
    ensures Nibbles(Plus(p, k)) == Plus(Nibbles(p), k)
  {
    hide One, PairsFit, Nibbles;
    LowPairSum(p, k);
  }

  lemma HighPairSum(p: bv64, k: bv6)
    requires PairsFit(p) && PairsFit(p + One(k)) && k & 3 == 2
    ensures Nibbles(p + One(k)) == Nibbles(p) + One(k - 2)
  {}

  lemma HighPair(p: bv64, k: bv6)
    requires PairsFit(p) && PairsFit(Plus(p, k)) && k & 3 == 2
    ensures Nibbles(Plus(p, k)) == Plus(Nibbles(p), k - 2)
  {
    hide One, PairsFit, Nibbles;
    HighPairSum(p, k);
  }

  lemma LowNibbleSum(n: bv64, k: bv6)
    requires NibblesFit(n) && NibblesFit(n + One(k)) && k & 7 == 0
    ensures Bytes(n + One(k)) == Bytes(n) + One(k)
  {}

  lemma LowNibble(n: bv64, k: bv6)
    requires NibblesFit(n) && NibblesFit(Plus(n, k)) && k & 7 == 0
    ensures Bytes(Plus(n, k)) == Plus(Bytes(n), k)
  {
    hide One, NibblesFit, Bytes;
    LowNibbleSum(n, k);
  }

  lemma HighNibbleSum(n: bv64, k: bv6)
    requires NibblesFit(n) && NibblesFit(n + One(k)) && k & 7 == 4
    ensures Bytes(n + One(k)) == Bytes(n) + One(k - 4)
  {}

  lemma HighNibble(n: bv64, k: bv6)
    requires NibblesFit(n) && NibblesFit(Plus(n, k)) && k & 7 == 4
    ensures Bytes(Plus(n, k)) == Plus(Bytes(n), k - 4)
  {
    hide One, NibblesFit, Bytes;
    HighNibbleSum(n, k);
  }

  lemma GatherMoreSum(b: bv64, k: bv6)
    requires BytesFit(b) && BytesFit(b + One(k)) && k & 7 == 0
    ensures Gather(b + One(k)) == Gather(b) + 1
  {}

  lemma GatherMore(b: bv64, k: bv6)
    requires BytesFit(b) && BytesFit(Plus(b, k)) && k & 7 == 0
    ensures Gather(Plus(b, k)) == Succ(Gather(b))
  {
    hide One, BytesFit, Gather;
    GatherMoreSum(b, k);
  }

  lemma Parity(k: bv6)
    ensures k & 1 == 0 || (k & 1 == 1 && (k - 1) & 1 == 0)
    ensures k & 1 == 0 ==> k & 3 == 0 || (k & 3 == 2 && (k - 2) & 3 == 0)
    ensures k & 3 == 0 ==> k & 7 == 0 || (k & 7 == 4 && (k - 4) & 7 == 0)
  {}

  function FromNibbles(n: bv64): bv64 { Gather(Bytes(n)) }
  function FromPairs(p: bv64): bv64 { FromNibbles(Nibbles(p)) }

  lemma LowNibbleMore(n: bv64, k: bv6)
    requires NibblesFit(n) && NibblesFit(Plus(n, k)) && k & 7 == 0
    ensures FromNibbles(Plus(n, k)) == Succ(FromNibbles(n))
  {
    hide Plus, Succ, NibblesFit, BytesFit, Bytes, Gather;
    BytesInRange(n);
    BytesInRange(Plus(n, k));
    LowNibble(n, k);
    GatherMore(Bytes(n), k);
  }

  lemma HighNibbleMore(n: bv64, k: bv6)
    requires NibblesFit(n) && NibblesFit(Plus(n, k)) && k & 7 == 4 && (k - 4) & 7 == 0
    ensures FromNibbles(Plus(n, k)) == Succ(FromNibbles(n))
  {
    hide Plus, Succ, NibblesFit, BytesFit, Bytes, Gather;
    BytesInRange(n);
    BytesInRange(Plus(n, k));
    HighNibble(n, k);
    GatherMore(Bytes(n), k - 4);
  }

  lemma NibblesMore(n: bv64, k: bv6)
    requires NibblesFit(n) && NibblesFit(Plus(n, k)) && k & 3 == 0
    ensures FromNibbles(Plus(n, k)) == Succ(FromNibbles(n))
  {
    hide Plus, Succ, NibblesFit, FromNibbles;
    Parity(k);
    if k & 7 == 0 { LowNibbleMore(n, k); } else { HighNibbleMore(n, k); }
  }

  lemma LowPairMore(p: bv64, k: bv6)
    requires PairsFit(p) && PairsFit(Plus(p, k)) && k & 3 == 0
    ensures FromPairs(Plus(p, k)) == Succ(FromPairs(p))
  {
    hide Plus, Succ, PairsFit, NibblesFit, Nibbles, FromNibbles;
    NibblesInRange(p);
    NibblesInRange(Plus(p, k));
    LowPair(p, k);
    NibblesMore(Nibbles(p), k);
  }

  lemma HighPairMore(p: bv64, k: bv6)
    requires PairsFit(p) && PairsFit(Plus(p, k)) && k & 3 == 2 && (k - 2) & 3 == 0
    ensures FromPairs(Plus(p, k)) == Succ(FromPairs(p))
  {
    hide Plus, Succ, PairsFit, NibblesFit, Nibbles, FromNibbles;
    NibblesInRange(p);
    NibblesInRange(Plus(p, k));
    HighPair(p, k);
    NibblesMore(Nibbles(p), k - 2);
  }

  lemma PairsMore(p: bv64, k: bv6)
    requires PairsFit(p) && PairsFit(Plus(p, k)) && k & 1 == 0
    ensures FromPairs(Plus(p, k)) == Succ(FromPairs(p))
  {
    hide Plus, Succ, PairsFit, FromPairs;
    Parity(k);
    if k & 3 == 0 { LowPairMore(p, k); } else { HighPairMore(p, k); }
  }

  lemma LowBitMore(w: bv64, k: bv6)
    requires !Test(w, k) && k & 1 == 0
    ensures FromPairs(Pairs(w | One(k))) == Succ(FromPairs(Pairs(w)))
  {
    hide Plus, Succ, One, Test, PairsFit, Pairs, FromPairs;
    PairsInRange(w);
    PairsInRange(w | One(k));
    LowBit(w, k);
    PairsMore(Pairs(w), k);
  }

  lemma HighBitMore(w: bv64, k: bv6)
    requires !Test(w, k) && k & 1 == 1 && (k - 1) & 1 == 0
    ensures FromPairs(Pairs(w | One(k))) == Succ(FromPairs(Pairs(w)))
  {
    hide Plus, Succ, One, Test, PairsFit, Pairs, FromPairs;
    PairsInRange(w);
    PairsInRange(w | One(k));
    HighBit(w, k);
    PairsMore(Pairs(w), k - 1);
  }

  /** One more bit makes the count one higher. */
  lemma CountMore(w: bv64, k: bv6)
    requires !Test(w, k)
    ensures CountWord(w | One(k)) == Succ(CountWord(w))
  {
    hide Succ, One, Test, Pairs, Nibbles, Bytes, Gather;
    Parity(k);
    if k & 1 == 0 { LowBitMore(w, k); } else { HighBitMore(w, k); }
  }

  // ---------------------------------------------------------------------------------
  // The count is the number of positions

  lemma NextNumber(c: bv64)
    requires c < 0xFF
    ensures (c + 1) as nat == c as nat + 1
  {}

  lemma SmallNumber(c: bv64)
    requires c as nat <= 64
    ensures c < 0xFF
  {}

  lemma CountNone()
    ensures CountWord(0) as nat == 0
  {}

  lemma OneAt(w: bv64, k: bv6, one: bv64)
    requires Test(w, k) && one == One(k)
    ensures w & one == one
  {}

  lemma Refill(w: bv64, one: bv64, v: bv64)
    requires w & one == one && v == w & !one
    ensures v | one == w
  {}

  lemma SetAgain(w: bv64, k: bv6, one: bv64, v: bv64)
    requires Test(w, k) && one == One(k) && v == w & !one
    ensures v | one == w
  {
    hide One, Test;
    OneAt(w, k, one);
    Refill(w, one, v);
  }

  lemma {:induction false} BitsBelow(s: set<nat>, n: nat)
    requires forall i :: i in s ==> i < n
    ensures |s| <= n
  {
    if n == 0 {
      assert s == {};
    } else {
      BitsBelow(s - {n - 1}, n - 1);
    }
  }

  lemma RemoveBit(w: bv64, k: bv6, v: bv64, i: nat)
    requires i < 64 && k == Pos(i) && v == w & !One(k) && Test(w, k)
    ensures i in Bits(w) && Bits(v) == Bits(w) - {i}
  {
    hide One, Test, Pos;
    assert Bit(w, i);
    forall j | 0 <= j < 64 ensures Bit(v, j) <==> i != j && Bit(w, j) { ClearBit(w, i, k, v, j); }
  }

  lemma NoBitsSet(w: bv64)
    requires w == 0
    ensures Bits(w) == {}
  {
    forall i | 0 <= i < 64 ensures !Bit(w, i) { NoBits(i); }
  }

  lemma Next(c: bv64, d: bv64)
    requires d == Succ(c) && c as nat <= 64
    ensures d as nat == c as nat + 1
  {
    SmallNumber(c);
    NextNumber(c);
  }

  lemma CountSet(w: bv64, k: bv6, v: bv64)
    requires Test(w, k) && v == w & !One(k)
    ensures CountWord(w) == Succ(CountWord(v))
  {
    hide One, Test, CountWord, Succ;
    ClearHere(w, k);
    SetAgain(w, k, One(k), v);
    CountMore(v, k);
  }

  /** `popcnt` of one word is the number of its bits. */
  lemma {:induction false} CountIsCardinality(w: bv64)
    ensures CountWord(w) as nat == |Bits(w)|
    decreases |Bits(w)|
  {
    hide One, Test, Bits, CountWord, Pos, Succ;
    if w == 0 {
      CountNone();
      NoBitsSet(w);
    } else {
      var k := FindBit(w);
      PosOnto(k);
      var v := w & !One(k);
      RemoveBit(w, k, v, k as nat);
      CountIsCardinality(v);
      BitsInRange(v);
      CountSet(w, k, v);
      Next(CountWord(v), CountWord(w));
    }
  }

  lemma BitsInRange(w: bv64)
    ensures |Bits(w)| <= 64
  {
    BitsBelow(Bits(w), 64);
  }
}
