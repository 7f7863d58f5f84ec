/** Tag bitmasks: 32-bit words with one bit per tag. */
module Bits {

  /** The word `1` shifted left `t` times. */
  function Bit(t: nat): bv32
    requires t < 32
  {
    if t == 0 then 1 else Bit(t - 1) << 1
  }

  predicate Meets(m: bv32, b: bv32) { m & b != 0 }

  predicate Has(m: bv32, t: nat)
    requires t < 32
  {
    Meets(m, Bit(t))
  }

  function SetBit(m: bv32, t: nat): bv32
    requires t < 32
  {
    m | Bit(t)
  }

  /** The bits of `m` are exactly the numbers satisfying `p`. */
  ghost predicate MaskIs(m: bv32, p: nat -> bool) {
    forall t: nat :: t < 32 ==> (Has(m, t) <==> p(t))
  }

  lemma ShiftApart(x: bv32, y: bv32)
    requires x & y == 0
    ensures (x << 1) & (y << 1) == 0
  {
  }

  lemma ShiftOdd(x: bv32)
    ensures (x << 1) & 1 == 0 && 1 & (x << 1) == 0
  {
  }

  lemma {:induction false} BitsApart(t: nat, u: nat)
    requires t < 32 && u < 32 && t != u
    ensures Bit(t) & Bit(u) == 0
  {
    if t == 0 {
      ShiftOdd(Bit(u - 1));
    } else if u == 0 {
      ShiftOdd(Bit(t - 1));
    } else {
      BitsApart(t - 1, u - 1);
      ShiftApart(Bit(t - 1), Bit(u - 1));
    }
  }

  lemma BitValues()
    ensures Bit(0) == 0x1 && Bit(1) == 0x2 && Bit(2) == 0x4 && Bit(3) == 0x8
    ensures Bit(4) == 0x10 && Bit(5) == 0x20 && Bit(6) == 0x40 && Bit(7) == 0x80
    ensures Bit(8) == 0x100 && Bit(9) == 0x200 && Bit(10) == 0x400 && Bit(11) == 0x800
    ensures Bit(12) == 0x1000 && Bit(13) == 0x2000 && Bit(14) == 0x4000 && Bit(15) == 0x8000
    ensures Bit(16) == 0x1_0000 && Bit(17) == 0x2_0000 && Bit(18) == 0x4_0000 && Bit(19) == 0x8_0000
    ensures Bit(20) == 0x10_0000 && Bit(21) == 0x20_0000 && Bit(22) == 0x40_0000 && Bit(23) == 0x80_0000
    ensures Bit(24) == 0x100_0000 && Bit(25) == 0x200_0000 && Bit(26) == 0x400_0000 && Bit(27) == 0x800_0000
    ensures Bit(28) == 0x1000_0000 && Bit(29) == 0x2000_0000 && Bit(30) == 0x4000_0000 && Bit(31) == 0x8000_0000
  {
  }

  /** No bit is shifted out. */
  lemma {:induction false} BitSet(t: nat)
    requires t < 32
    ensures Bit(t) != 0
    decreases 31 - t
  {
    if t < 31 {
      BitSet(t + 1);
    } else {
      BitValues();
    }
  }

  lemma Distribute(m: bv32, a: bv32, b: bv32)
    ensures (m | b) & a == (m & a) | (b & a)
  {
  }

  lemma OrNothing(x: bv32, y: bv32)
    requires y == 0
    ensures x | y == x
  {
  }

  lemma OrMisses(m: bv32, a: bv32, b: bv32)
    requires b & a == 0
    ensures Meets(m | b, a) == Meets(m, a)
  {
    Distribute(m, a, b);
    OrNothing(m & a, b & a);
  }

  lemma OrMeets(m: bv32, a: bv32)
    requires a != 0
    ensures Meets(m | a, a)
  {
  }

  lemma HasOr(m: bv32, t: nat, u: nat, a: bv32, b: bv32, r: bv32)
    requires t < 32 && u < 32 && a == Bit(t) && b == Bit(u) && r == m | b
    ensures Has(r, t) <==> Has(m, t) || t == u
  {
    if t == u {
      BitSet(t);
      hide Bit, Meets;
      OrMeets(m, b);
    } else {
      BitsApart(u, t);
      hide Bit, Meets;
      OrMisses(m, a, b);
    }
  }

  /** Setting a bit sets that bit and no other. */
  lemma HasSet(m: bv32, u: nat, r: bv32)
    requires u < 32 && r == SetBit(m, u)
    ensures forall t: nat :: t < 32 ==> (Has(r, t) <==> Has(m, t) || t == u)
  {
    var b := Bit(u);
    assert r == m | b;
    hide *;
    forall t: nat | t < 32 ensures Has(r, t) <==> Has(m, t) || t == u {
      HasOr(m, t, u, Bit(t), b, r);
    }
  }

  lemma HasNone()
    ensures forall t: nat :: t < 32 ==> !Has(0, t)
  {
  }

  lemma ZeroByBits(m: bv32)
    requires forall t: nat :: t < 32 ==> !Has(m, t)
    ensures m == 0
  {
    BitValues();
    forall t: nat | t < 32 ensures m & Bit(t) == 0 { assert !Has(m, t); }
    hide Bit;
    assert m & Bit(0) == 0 && m & Bit(1) == 0 && m & Bit(2) == 0 && m & Bit(3) == 0;
    assert m & Bit(4) == 0 && m & Bit(5) == 0 && m & Bit(6) == 0 && m & Bit(7) == 0;
    assert m & Bit(8) == 0 && m & Bit(9) == 0 && m & Bit(10) == 0 && m & Bit(11) == 0;
    assert m & Bit(12) == 0 && m & Bit(13) == 0 && m & Bit(14) == 0 && m & Bit(15) == 0;
    assert m & Bit(16) == 0 && m & Bit(17) == 0 && m & Bit(18) == 0 && m & Bit(19) == 0;
    assert m & Bit(20) == 0 && m & Bit(21) == 0 && m & Bit(22) == 0 && m & Bit(23) == 0;
    assert m & Bit(24) == 0 && m & Bit(25) == 0 && m & Bit(26) == 0 && m & Bit(27) == 0;
    assert m & Bit(28) == 0 && m & Bit(29) == 0 && m & Bit(30) == 0 && m & Bit(31) == 0;
  }

  lemma HasAnd(a: bv32, b: bv32, t: nat, c: bv32)
    requires t < 32 && c == Bit(t)
    ensures Has(a & b, t) ==> Has(a, t) && Has(b, t)
  {
    hide Bit;
    AndMeets(a, b, c);
  }

  lemma AndMeets(a: bv32, b: bv32, c: bv32)
    ensures Meets(a & b, c) ==> Meets(a, c) && Meets(b, c)
  {
  }

  /** Words with no common bit are disjoint. */
  lemma DisjointByBits(a: bv32, b: bv32)
    requires forall t: nat :: t < 32 ==> !(Has(a, t) && Has(b, t))
    ensures a & b == 0
  {
    var c := a & b;
    forall t: nat | t < 32 ensures !Has(c, t) {
      HasAnd(a, b, t, Bit(t));
      hide Has;
    }
    ZeroByBits(c);
  }

  /** Either all bits of `b` are in `m` or none is. */
  predicate AllOrNone(m: bv32, b: bv32) { m & b == 0 || m & b == b }

  lemma EachBit(m: bv32)
    ensures AllOrNone(m, 0x1) && AllOrNone(m, 0x2) && AllOrNone(m, 0x4) && AllOrNone(m, 0x8)
    ensures AllOrNone(m, 0x10) && AllOrNone(m, 0x20) && AllOrNone(m, 0x40) && AllOrNone(m, 0x80)
    ensures AllOrNone(m, 0x100) && AllOrNone(m, 0x200) && AllOrNone(m, 0x400) && AllOrNone(m, 0x800)
    ensures AllOrNone(m, 0x1000) && AllOrNone(m, 0x2000) && AllOrNone(m, 0x4000) && AllOrNone(m, 0x8000)
    ensures AllOrNone(m, 0x1_0000) && AllOrNone(m, 0x2_0000) && AllOrNone(m, 0x4_0000) && AllOrNone(m, 0x8_0000)
    ensures AllOrNone(m, 0x10_0000) && AllOrNone(m, 0x20_0000) && AllOrNone(m, 0x40_0000) && AllOrNone(m, 0x80_0000)
    ensures AllOrNone(m, 0x100_0000) && AllOrNone(m, 0x200_0000) && AllOrNone(m, 0x400_0000) && AllOrNone(m, 0x800_0000)
    ensures AllOrNone(m, 0x1000_0000) && AllOrNone(m, 0x2000_0000) && AllOrNone(m, 0x4000_0000) &&
        AllOrNone(m, 0x8000_0000)
  {
  }

  lemma SingleBit(m: bv32, t: nat)
    requires t < 32
    ensures AllOrNone(m, Bit(t))
  {
    BitValues();
    EachBit(m);
    hide *;
  }

  /** A bit that is set is contained in the word. */
  lemma HasWhole(m: bv32, t: nat)
    requires t < 32 && Has(m, t)
    ensures m & Bit(t) == Bit(t)
  {
    SingleBit(m, t);
    hide Bit;
  }
}
