/** The program keeps a grant mask in a 32-bit integer; the model works with the set of the
    bit positions that are set. This module shows that nothing is lost: the bitwise operators
    and tests of the integer are exactly union, intersection, inclusion and emptiness. */
module MaskBits {

  /** The integer with only bit `i` set. */
  function Power(i: nat): bv32
    requires i < 32
  {
    if i == 0 then 0x1 else if i == 1 then 0x2 else if i == 2 then 0x4 else if i == 3 then 0x8 else
    if i == 4 then 0x10 else if i == 5 then 0x20 else if i == 6 then 0x40 else if i == 7 then 0x80 else
    if i == 8 then 0x100 else if i == 9 then 0x200 else if i == 10 then 0x400 else if i == 11 then 0x800 else
    if i == 12 then 0x1000 else if i == 13 then 0x2000 else if i == 14 then 0x4000 else if i == 15 then 0x8000 else
    if i == 16 then 0x1_0000 else if i == 17 then 0x2_0000 else if i == 18 then 0x4_0000 else if i == 19 then 0x8_0000 else
    if i == 20 then 0x10_0000 else if i == 21 then 0x20_0000 else if i == 22 then 0x40_0000 else if i == 23 then 0x80_0000 else
    if i == 24 then 0x100_0000 else if i == 25 then 0x200_0000 else if i == 26 then 0x400_0000 else if i == 27 then 0x800_0000 else
    if i == 28 then 0x1000_0000 else if i == 29 then 0x2000_0000 else if i == 30 then 0x4000_0000 else
    0x8000_0000
  }

  predicate OneHot(x: bv32) {
    x != 0 && x & (x - 1) == 0
  }

  predicate HasBit(m: bv32, x: bv32) {
    m & x != 0
  }

  predicate BitSet(m: bv32, i: nat) {
    i < 32 && HasBit(m, Power(i))
  }

  /** The integer and the set of positions are the same mask. */
  ghost predicate Represents(m: bv32, s: set<nat>) {
    forall i :: BitSet(m, i) <==> i in s
  }

  lemma OrBits(a: bv32, b: bv32, x: bv32)
    ensures (a | b) & x != 0 <==> a & x != 0 || b & x != 0
  {
  }

  lemma AndBits(a: bv32, b: bv32, x: bv32)
    requires OneHot(x)
    ensures (a & b) & x != 0 <==> a & x != 0 && b & x != 0
  {
  }

  lemma PowersOneHot(i: nat)
    requires i < 32
    ensures OneHot(Power(i))
  {
  }

  /** Two different integers differ in some single bit. */
  lemma LowestDifference(a: bv32, b: bv32) returns (x: bv32)
    requires a != b
    ensures OneHot(x) && (HasBit(a, x) <==> !HasBit(b, x))
  {
    var d := a ^ b;
    x := d & (0 - d);
  }

  lemma LowPower(x: bv32) returns (i: nat)
    requires OneHot(x) && x < 0x1_0000
    ensures i < 16 && Power(i) == x
  {
    i := if x == 0x1 then 0 else if x == 0x2 then 1 else if x == 0x4 then 2 else if x == 0x8 then 3
         else if x == 0x10 then 4 else if x == 0x20 then 5 else if x == 0x40 then 6 else if x == 0x80 then 7
         else if x == 0x100 then 8 else if x == 0x200 then 9 else if x == 0x400 then 10 else if x == 0x800 then 11
         else if x == 0x1000 then 12 else if x == 0x2000 then 13 else if x == 0x4000 then 14 else 15;
  }

  lemma HighPower(x: bv32) returns (i: nat)
    requires OneHot(x) && x >= 0x1_0000
    ensures 16 <= i < 32 && Power(i) == x
  {
    i := if x == 0x1_0000 then 16 else if x == 0x2_0000 then 17 else if x == 0x4_0000 then 18 else if x == 0x8_0000 then 19
         else if x == 0x10_0000 then 20 else if x == 0x20_0000 then 21 else if x == 0x40_0000 then 22 else if x == 0x80_0000 then 23
         else if x == 0x100_0000 then 24 else if x == 0x200_0000 then 25 else if x == 0x400_0000 then 26 else if x == 0x800_0000 then 27
         else if x == 0x1000_0000 then 28 else if x == 0x2000_0000 then 29 else if x == 0x4000_0000 then 30 else 31;
  }

  lemma OneHotIsPower(x: bv32) returns (i: nat)
    requires OneHot(x)
    ensures i < 32 && Power(i) == x
  {
    if x < 0x1_0000 {
      i := LowPower(x);
    } else {
      i := HighPower(x);
    }
  }

  lemma OperatorBits(a: bv32, b: bv32, i: nat)
    ensures BitSet(a | b, i) <==> BitSet(a, i) || BitSet(b, i)
    ensures BitSet(a & b, i) <==> BitSet(a, i) && BitSet(b, i)
  {
    if i < 32 {
      PowersOneHot(i);
      OrBits(a, b, Power(i));
      AndBits(a, b, Power(i));
    }
  }

  lemma DifferInSomeBit(a: bv32, b: bv32) returns (i: nat)
    requires a != b
    ensures BitSet(a, i) <==> !BitSet(b, i)
  {
    var x := LowestDifference(a, b);
    i := OneHotIsPower(x);
  }

  /** `|` is union and `&` is intersection. */
  lemma OperatorsAreSetOperations(a: bv32, s: set<nat>, b: bv32, t: set<nat>)
    requires Represents(a, s) && Represents(b, t)
    ensures Represents(a | b, s + t) && Represents(a & b, s * t)
  {
    forall i: nat
      ensures BitSet(a | b, i) <==> i in s + t
      ensures BitSet(a & b, i) <==> i in s * t
    {
      OperatorBits(a, b, i);
    }
  }

  /** A set of positions stands for one integer only. */
  lemma RepresentedOnce(a: bv32, b: bv32, s: set<nat>)
    requires Represents(a, s) && Represents(b, s)
    ensures a == b
  {
    if a != b {
      var _ := DifferInSomeBit(a, b);
    }
  }

  lemma ZeroHasNoBits(i: nat)
    ensures !BitSet(0, i)
  {
  }

  /** The permission test `(full & check) == check` is inclusion, and the test for an empty
      mask is emptiness. */
  lemma TestsAreSetTests(full: bv32, s: set<nat>, check: bv32, t: set<nat>)
    requires Represents(full, s) && Represents(check, t)
    ensures full & check == check <==> t <= s
    ensures check == 0 <==> t == {}
  {
    OperatorsAreSetOperations(full, s, check, t);
    if full & check == check {
      forall i | i in t
        ensures i in s
      {
        assert BitSet(check, i);
        assert i in s * t;
      }
    }
    if t <= s {
      assert s * t == t;
      RepresentedOnce(full & check, check, t);
    }
    forall i: nat
      ensures !BitSet(0, i)
    {
      ZeroHasNoBits(i);
    }
    if t == {} {
      RepresentedOnce(check, 0, {});
    }
    if check == 0 {
      assert forall i :: i in t <==> BitSet(check, i);
    }
  }
}
