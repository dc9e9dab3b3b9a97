/** Single bits of 64-bit words. */
module Words {

  /** The word `1 << k`. */
  function One(k: bv6): bv64 {
    (1 as bv64) << k
  }

  predicate Test(w: bv64, k: bv6) {
    w & One(k) != 0
  }

  /** Position `i` of a word, as a shift amount. */
  function Pos(i: nat): bv6 {
    if i == 0 then 0 else Pos(i - 1) + 1
  }

  /** Whether bit `i` of `w` is set. */
  predicate Bit(w: bv64, i: nat) {
    Test(w, Pos(i))
  }

  function Bits(w: bv64): set<nat> {
    set i | 0 <= i < 64 && Bit(w, i)
  }

  // ---------------------------------------------------------------------------------
  // Setting and clearing one bit

  // Facts about words are kept apart from facts about positions, so that each is easy to decide.

  lemma SetElsewhere(w: bv64, k: bv6, l: bv6)
    requires k != l
    ensures Test(w | One(k), l) == Test(w, l)
  {}

  lemma SetHere(w: bv64, k: bv6)
    ensures Test(w | One(k), k)
  {}

  lemma ClearElsewhere(w: bv64, k: bv6, l: bv6)
    requires k != l
    ensures Test(w & !One(k), l) == Test(w, l)
  {}

  lemma ClearHere(w: bv64, k: bv6)
    ensures !Test(w & !One(k), k)
  {}

  lemma SetAt(w: bv64, k: bv6, l: bv6)
    ensures Test(w | One(k), l) <==> k == l || Test(w, l)
  {
    if k == l { SetHere(w, k); } else { SetElsewhere(w, k, l); }
  }

  lemma ClearAt(w: bv64, k: bv6, l: bv6)
    ensures Test(w & !One(k), l) <==> k != l && Test(w, l)
  {
    if k == l { ClearHere(w, k); } else { ClearElsewhere(w, k, l); }
  }

  lemma Increment(k: bv6)
    requires k < 63
    ensures (k + 1) as nat == k as nat + 1
  {}

  lemma {:induction false} PosRoundTrip(i: nat)
    requires i < 64
    ensures Pos(i) as nat == i
  {
    if i > 0 {
      PosRoundTrip(i - 1);
      Increment(Pos(i - 1));
    }
  }

  lemma PosInjective(i: nat, j: nat)
    requires i < 64 && j < 64
    ensures Pos(i) == Pos(j) <==> i == j
  {
    PosRoundTrip(i);
    PosRoundTrip(j);
  }

  lemma SetKnown(w: bv64, i: nat, k: bv6, j: nat, l: bv6)
    requires k == l <==> i == j
    ensures Test(w | One(k), l) <==> i == j || Test(w, l)
  {
    SetAt(w, k, l);
  }

  lemma SetTest(w: bv64, i: nat, k: bv6, j: nat, l: bv6)
    requires i < 64 && j < 64 && k == Pos(i) && l == Pos(j)
    ensures Test(w | One(k), l) <==> i == j || Test(w, l)
  {
    PosInjective(i, j);
    SetKnown(w, i, k, j, l);
  }

  lemma SetBitAt(w: bv64, i: nat, k: bv6, v: bv64, j: nat, l: bv6)
    requires i < 64 && j < 64 && k == Pos(i) && v == w | One(k) && l == Pos(j)
    ensures Bit(v, j) <==> i == j || Bit(w, j)
  {
    SetTest(w, i, k, j, l);
  }

  lemma SetBit(w: bv64, i: nat, k: bv6, v: bv64, j: nat)
    requires i < 64 && j < 64 && k == Pos(i) && v == w | One(k)
    ensures Bit(v, j) <==> i == j || Bit(w, j)
  {
    SetBitAt(w, i, k, v, j, Pos(j));
  }

  lemma ClearKnown(w: bv64, i: nat, k: bv6, j: nat, l: bv6)
    requires k == l <==> i == j
    ensures Test(w & !One(k), l) <==> i != j && Test(w, l)
  {
    ClearAt(w, k, l);
  }

  lemma ClearTest(w: bv64, i: nat, k: bv6, j: nat, l: bv6)
    requires i < 64 && j < 64 && k == Pos(i) && l == Pos(j)
    ensures Test(w & !One(k), l) <==> i != j && Test(w, l)
  {
    PosInjective(i, j);
    ClearKnown(w, i, k, j, l);
  }

  lemma ClearBitAt(w: bv64, i: nat, k: bv6, v: bv64, j: nat, l: bv6)
    requires i < 64 && j < 64 && k == Pos(i) && v == w & !One(k) && l == Pos(j)
    ensures Bit(v, j) <==> i != j && Bit(w, j)
  {
    ClearTest(w, i, k, j, l);
  }

  lemma ClearBit(w: bv64, i: nat, k: bv6, v: bv64, j: nat)
    requires i < 64 && j < 64 && k == Pos(i) && v == w & !One(k)
    ensures Bit(v, j) <==> i != j && Bit(w, j)
  {
    ClearBitAt(w, i, k, v, j, Pos(j));
  }

  lemma NoBits(i: nat)
    ensures !Bit(0, i)
  {}

  // ---------------------------------------------------------------------------------
  // A word is determined by its bits

  // Bisection for the highest bit of a word that is not zero

  lemma Half32(x: bv64) returns (k: bv6)
    requires x != 0
    ensures k & 0x1F == 0 && x >> k != 0 && x >> k < 0x1_0000_0000
  {
    k := if x >> 32 != 0 then 32 else 0;
  }

  lemma Half16(x: bv64, k: bv6) returns (l: bv6)
    requires k & 0x1F == 0 && x >> k != 0 && x >> k < 0x1_0000_0000
    ensures l & 0xF == 0 && x >> l != 0 && x >> l < 0x1_0000
  {
    l := if x >> (k + 16) != 0 then k + 16 else k;
  }

  lemma Half8(x: bv64, k: bv6) returns (l: bv6)
    requires k & 0xF == 0 && x >> k != 0 && x >> k < 0x1_0000
    ensures l & 0x7 == 0 && x >> l != 0 && x >> l < 0x100
  {
    l := if x >> (k + 8) != 0 then k + 8 else k;
  }

  lemma Half4(x: bv64, k: bv6) returns (l: bv6)
    requires k & 0x7 == 0 && x >> k != 0 && x >> k < 0x100
    ensures l & 0x3 == 0 && x >> l != 0 && x >> l < 0x10
  {
    l := if x >> (k + 4) != 0 then k + 4 else k;
  }

  lemma Half2(x: bv64, k: bv6) returns (l: bv6)
    requires k & 0x3 == 0 && x >> k != 0 && x >> k < 0x10
    ensures l & 0x1 == 0 && x >> l != 0 && x >> l < 0x4
  {
    l := if x >> (k + 2) != 0 then k + 2 else k;
  }

  lemma Half1(x: bv64, k: bv6) returns (l: bv6)
    requires k & 0x1 == 0 && x >> k != 0 && x >> k < 0x4
    ensures x >> l == 1
  {
    l := if x >> (k + 1) != 0 then k + 1 else k;
  }

  lemma TopBit(x: bv64, k: bv6)
    requires x >> k == 1
    ensures Test(x, k)
  {}

  lemma FindBit(x: bv64) returns (k: bv6)
    requires x != 0
    ensures Test(x, k)
  {
    k := Half32(x);
    k := Half16(x, k);
    k := Half8(x, k);
    k := Half4(x, k);
    k := Half2(x, k);
    k := Half1(x, k);
    TopBit(x, k);
  }

  lemma XorTest(w: bv64, v: bv64, k: bv6)
    requires Test(w ^ v, k)
    ensures Test(w, k) != Test(v, k)
  {}

  lemma XorNonzero(w: bv64, v: bv64)
    requires w != v
    ensures w ^ v != 0
  {}

  lemma FindDifference(w: bv64, v: bv64) returns (k: bv6)
    requires w ^ v != 0
    ensures Test(w, k) != Test(v, k)
  {
    k := FindBit(w ^ v);
    XorTest(w, v, k);
  }

  lemma PosOnto(k: bv6)
    ensures k as nat < 64 && Pos(k as nat) == k
  {
    PosRoundTrip(k as nat);
    SameNumber(Pos(k as nat), k);
  }

  lemma SameNumber(k: bv6, l: bv6)
    requires k as nat == l as nat
    ensures k == l
  {}

  /** Different words differ in some bit. */
  lemma DifferingBit(w: bv64, v: bv64) returns (j: nat)
    requires w != v
    ensures j < 64 && Bit(w, j) != Bit(v, j)
  {
    XorNonzero(w, v);
    var k := FindDifference(w, v);
    PosOnto(k);
    j := k as nat;
  }
}
