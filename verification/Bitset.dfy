/** The bitset of `linearizability/bitset.go`: an array of 64-bit words, updated in place. */
module Bitset {
  import opened Popcount
  import opened Words

  type Bitset = array<bv64>

  /** The positions that are set. */
  function MembersOf(words: seq<bv64>): set<nat> {
    set p | 0 <= p < 64 * |words| && Bit(words[p / 64], p % 64)
  }

  ghost function Members(b: Bitset): set<nat>
    reads b
  {
    MembersOf(b[..])
  }

  method NewBitset(bits: nat) returns (b: Bitset)
    ensures fresh(b) && bits <= 64 * b.Length < bits + 64
    ensures Members(b) == {}
  {
    var extra := if bits % 64 != 0 then 1 else 0;
    b := new bv64[bits / 64 + extra](_ => 0);
    forall p | 0 <= p < 64 * b.Length ensures !Bit(b[..][p / 64], p % 64) {
      NoBits(p % 64);
    }
  }

  /** The copy is a new array: later changes to either one do not show in the other. */
  method Clone(b: Bitset) returns (c: Bitset)
    ensures fresh(c) && c[..] == b[..]
  {
    c := new bv64[b.Length];
    forall i | 0 <= i < b.Length { c[i] := b[i]; }
  }

  /** Replacing one word by one that differs in a single bit adds or removes a single position. */
  lemma ReplaceWord(words: seq<bv64>, pos: nat, v: bv64, on: bool)
    requires pos < 64 * |words|
    requires forall j :: 0 <= j < 64 ==> (Bit(v, j) <==> if j == pos % 64 then on else Bit(words[pos / 64], j))
    ensures MembersOf(words[pos / 64 := v]) == if on then MembersOf(words) + {pos} else MembersOf(words) - {pos}
  {
    forall p | 0 <= p < 64 * |words|
      ensures Bit(words[pos / 64 := v][p / 64], p % 64) <==> if p == pos then on else Bit(words[p / 64], p % 64)
    {
    }
  }

  lemma SetMembers(words: seq<bv64>, pos: nat, k: bv6, w: bv64, v: bv64)
    requires pos < 64 * |words| && k == Pos(pos % 64) && w == words[pos / 64] && v == w | One(k)
    ensures MembersOf(words[pos / 64 := v]) == MembersOf(words) + {pos}
  {
    SetWord(w, pos % 64, k, v);
    ReplaceWord(words, pos, v, true);
  }

  lemma SetWord(w: bv64, i: nat, k: bv6, v: bv64)
    requires i < 64 && k == Pos(i) && v == w | One(k)
    ensures forall j :: 0 <= j < 64 ==> (Bit(v, j) <==> if j == i then true else Bit(w, j))
  {
    forall j | 0 <= j < 64 ensures Bit(v, j) <==> if j == i then true else Bit(w, j) { SetBit(w, i, k, v, j); }
  }

  lemma ClearMembers(words: seq<bv64>, pos: nat, k: bv6, w: bv64, v: bv64)
    requires pos < 64 * |words| && k == Pos(pos % 64) && w == words[pos / 64] && v == w & !One(k)
    ensures MembersOf(words[pos / 64 := v]) == MembersOf(words) - {pos}
  {
    ClearWord(w, pos % 64, k, v);
    ReplaceWord(words, pos, v, false);
  }

  lemma ClearWord(w: bv64, i: nat, k: bv6, v: bv64)
    requires i < 64 && k == Pos(i) && v == w & !One(k)
    ensures forall j :: 0 <= j < 64 ==> (Bit(v, j) <==> if j == i then false else Bit(w, j))
  {
    forall j | 0 <= j < 64 ensures Bit(v, j) <==> if j == i then false else Bit(w, j) { ClearBit(w, i, k, v, j); }
  }

  method Set(b: Bitset, pos: nat) returns (r: Bitset)
    requires pos < 64 * b.Length
    modifies b
    ensures r == b && Members(b) == old(Members(b)) + {pos}
  {
    var major, minor := pos / 64, Pos(pos % 64);
    ghost var words := b[..];
    b[major] := b[major] | One(minor);
    SetMembers(words, pos, minor, words[major], b[major]);
    assert b[..] == words[major := b[major]];
    r := b;
  }

  method Clear(b: Bitset, pos: nat) returns (r: Bitset)
    requires pos < 64 * b.Length
    modifies b
    ensures r == b && Members(b) == old(Members(b)) - {pos}
  {
    var major, minor := pos / 64, Pos(pos % 64);
    ghost var words := b[..];
    b[major] := b[major] & !One(minor);
    ClearMembers(words, pos, minor, words[major], b[major]);
    assert b[..] == words[major := b[major]];
    r := b;
  }

  lemma IsMember(words: seq<bv64>, pos: nat, w: bv64, k: bv6)
    requires pos < 64 * |words| && w == words[pos / 64] && k == Pos(pos % 64)
    ensures pos in MembersOf(words) <==> Test(w, k)
  {
    hide Test, Pos;
  }

  method Get(b: Bitset, pos: nat) returns (r: bool)
    requires pos < 64 * b.Length
    ensures r <==> pos in Members(b)
  {
    hide MembersOf, Test, Pos;
    var major, minor := pos / 64, Pos(pos % 64);
    IsMember(b[..], pos, b[major], minor);
    r := Test(b[major], minor);
  }

  // ---------------------------------------------------------------------------------
  // Counting, hashing and comparing

  function CountAll(words: seq<bv64>): nat {
    if words == [] then 0 else CountAll(words[..|words| - 1]) + CountWord(words[|words| - 1]) as nat
  }

  function XorAll(words: seq<bv64>, start: bv64): bv64 {
    if words == [] then start else XorAll(words[..|words| - 1], start) ^ words[|words| - 1]
  }

  /** The hash is a function of the words alone. */
  function HashOf(words: seq<bv64>): nat {
    XorAll(words, (CountAll(words) % 0x1_0000_0000_0000_0000) as bv64) as nat
  }

  function Shift(s: set<nat>, d: nat): set<nat> {
    set i | i in s :: i + d
  }

  lemma InShift(s: set<nat>, d: nat, p: nat)
    ensures p in Shift(s, d) <==> p >= d && p - d in s
  {
    if p >= d && p - d in s {
      var i := p - d;
      assert i in s && i + d == p;
    }
  }

  lemma {:induction false} ShiftSize(s: set<nat>, d: nat)
    ensures |Shift(s, d)| == |s|
  {
    if s == {} {
      assert Shift(s, d) == {};
    } else {
      var i :| i in s;
      ShiftSize(s - {i}, d);
      forall p: nat ensures p in Shift(s, d) <==> p in Shift(s - {i}, d) + {i + d} {
        InShift(s, d, p);
        InShift(s - {i}, d, p);
      }
      InShift(s - {i}, d, i + d);
      assert Shift(s, d) == Shift(s - {i}, d) + {i + d};
    }
  }

  /** The last word contributes its own bits, moved up behind those of the words before. */
  lemma LastWord(words: seq<bv64>, rest: seq<bv64>, last: bv64)
    requires words == rest + [last]
    ensures MembersOf(words) == MembersOf(rest) + Shift(Bits(last), 64 * |rest|)
    ensures MembersOf(rest) !! Shift(Bits(last), 64 * |rest|)
  {
    hide Bit;
    var d := 64 * |rest|;
    forall p: nat ensures p in MembersOf(words) <==> p in MembersOf(rest) + Shift(Bits(last), d) {
      InShift(Bits(last), d, p);
      if p < d {
        assert words[p / 64] == rest[p / 64];
      } else if p < d + 64 {
        assert p / 64 == |rest| && p % 64 == p - d;
      }
    }
    forall p | p in MembersOf(rest) ensures p !in Shift(Bits(last), d) { InShift(Bits(last), d, p); }
  }

  /** `popcnt` is the number of positions that are set. */
  lemma {:induction false} CountAllIsCardinality(words: seq<bv64>)
    ensures CountAll(words) == |MembersOf(words)|
  {
    hide CountWord, MembersOf, Bits, Shift;
    if words == [] {
      NoMembers(words);
    } else {
      var rest, last := words[..|words| - 1], words[|words| - 1];
      CountAllIsCardinality(rest);
      CountIsCardinality(last);
      LastWord(words, rest, last);
      ShiftSize(Bits(last), 64 * |rest|);
    }
  }

  lemma NoMembers(words: seq<bv64>)
    requires words == []
    ensures MembersOf(words) == {}
  {
  }

  method Popcnt(b: Bitset) returns (total: nat)
    ensures total == CountAll(b[..]) && total == |Members(b)|
  {
    total := 0;
    for i := 0 to b.Length
      invariant total == CountAll(b[..i])
    {
      var v := b[i];
      v := Pairs(v);
      v := Nibbles(v);
      v := Bytes(v);
      assert b[..i + 1][..i] == b[..i];
      total := total + Gather(v) as nat;
    }
    assert b[..b.Length] == b[..];
    CountAllIsCardinality(b[..]);
  }

  /** The loop of `hash`. */
  method XorWords(b: Bitset, start: bv64) returns (acc: bv64)
    ensures acc == XorAll(b[..], start)
  {
    acc := start;
    for i := 0 to b.Length
      invariant acc == XorAll(b[..i], start)
    {
      assert b[..i + 1][..i] == b[..i];
      acc := acc ^ b[i];
    }
    assert b[..b.Length] == b[..];
  }

  method Hash(b: Bitset) returns (hash: nat)
    ensures hash == HashOf(b[..])
  {
    hide XorAll, CountAll;
    var total := Popcnt(b);
    var acc := XorWords(b, (total % 0x1_0000_0000_0000_0000) as bv64);
    hash := acc as nat;
  }

  method Equals(b: Bitset, c: Bitset) returns (r: bool)
    ensures r <==> b[..] == c[..]
  {
    if b.Length != c.Length {
      return false;
    }
    for i := 0 to b.Length
      invariant b[..i] == c[..i]
    {
      if b[i] != c[i] {
        assert b[..][i] != c[..][i];
        return false;
      }
    }
    r := true;
  }

  /** Bitsets of the same capacity are equal word by word exactly when they hold the same positions. */
  lemma SameMembers(words: seq<bv64>, words': seq<bv64>)
    requires |words| == |words'|
    ensures words == words' <==> MembersOf(words) == MembersOf(words')
  {
    if words != words' {
      var i :| 0 <= i < |words| && words[i] != words'[i];
      var j := DifferingBit(words[i], words'[i]);
      var p := 64 * i + j;
      assert p / 64 == i && p % 64 == j;
      assert p in MembersOf(words) <==> Bit(words[i], j);
      assert p in MembersOf(words') <==> Bit(words'[i], j);
    }
  }
}
