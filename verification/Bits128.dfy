/** The 128-bit word behind the replay bitmap.
    The word is a real bit-vector, so a bit shifted past position 127 is lost. A shift by a
    variable distance is that many single-bit shifts. The lemmas on raw bit-vector
    operators come first; the rest of the module reasons through the named operators. */
module Bits128 {

  type Word = bv128

  const TOP: Word := 0x8000_0000_0000_0000_0000_0000_0000_0000

  function Left(x: Word): Word { x << 1 }

  function And(x: Word, y: Word): Word { x & y }

  function Or(x: Word, y: Word): Word { x | y }

  predicate Zero(x: Word) { x == 0 }

  /** `x << k`. */
  function Shl(x: Word, k: nat): Word {
    if k == 0 then x else Left(Shl(x, k - 1))
  }

  /** The source's test `x & (1 << i) != 0`. */
  predicate Bit(x: Word, i: nat) {
    !Zero(And(x, Shl(1, i)))
  }

  // ---------- raw bit-vector facts ----------

  lemma Join2(y: Word) ensures (y << 1) << 1 == y << 2 {}
  lemma Join4(y: Word) ensures (y << 2) << 2 == y << 4 {}
  lemma Join8(y: Word) ensures (y << 4) << 4 == y << 8 {}
  lemma Join16(y: Word) ensures (y << 8) << 8 == y << 16 {}
  lemma Join32(y: Word) ensures (y << 16) << 16 == y << 32 {}

  lemma AndDouble(x: Word, m: Word)
    requires Zero(And(m, TOP))
    ensures Zero(And(Left(x), Left(m))) <==> Zero(And(x, m))
  {}

  lemma OrDisjoint(x: Word, m: Word, n: Word)
    requires Zero(And(m, n))
    ensures And(Or(x, m), n) == And(x, n)
  {}

  lemma OrSame(x: Word, m: Word)
    ensures And(Or(x, m), m) == m
  {}

  lemma EvenAndOne(x: Word)
    ensures Zero(And(Left(x), 1)) && Zero(And(1, Left(x)))
  {}

  predicate OneHot(x: Word) {
    x != 0 && x & (x - 1) == 0
  }

  lemma Double(x: Word)
    requires OneHot(x)
    ensures !Zero(And(x, TOP)) ==> Left(x) == 0
    ensures Zero(And(x, TOP)) ==> OneHot(Left(x))
  {}

  // ---------- shifts ----------

  lemma {:induction false} ShlAdd(x: Word, a: nat, b: nat)
    ensures Shl(Shl(x, a), b) == Shl(x, a + b)
  {
    if b > 0 {
      ShlAdd(x, a, b - 1);
    }
  }

  lemma {:induction false} ShlZero(k: nat)
    ensures Shl(0, k) == 0
  {
    if k > 0 {
      ShlZero(k - 1);
    }
  }

  // Shifts by powers of two, each from two halves: this is where the width enters.
  lemma Shl1(y: Word) ensures Shl(y, 1) == y << 1 {}
  lemma Shl2(y: Word) ensures Shl(y, 2) == y << 2 { Shl1(y); Shl1(y << 1); ShlAdd(y, 1, 1); Join2(y); }
  lemma Shl4(y: Word) ensures Shl(y, 4) == y << 4 { Shl2(y); Shl2(y << 2); ShlAdd(y, 2, 2); Join4(y); }
  lemma Shl8(y: Word) ensures Shl(y, 8) == y << 8 { Shl4(y); Shl4(y << 4); ShlAdd(y, 4, 4); Join8(y); }
  lemma Shl16(y: Word) ensures Shl(y, 16) == y << 16 { Shl8(y); Shl8(y << 8); ShlAdd(y, 8, 8); Join16(y); }
  lemma Shl32(y: Word) ensures Shl(y, 32) == y << 32 { Shl16(y); Shl16(y << 16); ShlAdd(y, 16, 16); Join32(y); }

  lemma ShlOne127()
    ensures Shl(1, 127) == TOP
  {
    Shl32(1);
    ShlAdd(1, 32, 32); Shl32(0x1_0000_0000);
    ShlAdd(1, 64, 32); Shl32(0x1_0000_0000_0000_0000);
    ShlAdd(1, 96, 16); Shl16(0x1_0000_0000_0000_0000_0000_0000);
    ShlAdd(1, 112, 8); Shl8(0x1_0000_0000_0000_0000_0000_0000_0000);
    ShlAdd(1, 120, 4); Shl4(0x100_0000_0000_0000_0000_0000_0000_0000);
    ShlAdd(1, 124, 2); Shl2(0x1000_0000_0000_0000_0000_0000_0000_0000);
    ShlAdd(1, 126, 1); Shl1(0x4000_0000_0000_0000_0000_0000_0000_0000);
  }

  /** `1 << j` is a single bit, and the top one only for j = 127. */
  lemma {:induction false} Unit(j: nat)
    requires j < 128
    ensures OneHot(Shl(1, j))
    ensures j < 127 ==> Zero(And(Shl(1, j), TOP))
  {
    if j > 0 {
      Unit(j - 1);
      Double(Shl(1, j - 1));
    }
    if j < 127 && !Zero(And(Shl(1, j), TOP)) {
      Double(Shl(1, j));
      ShlAdd(1, j + 1, 126 - j);
      ShlZero(126 - j);
      ShlOne127();
      assert false;
    }
  }

  // ---------- what the operators do to each bit ----------

  lemma BitLeft(x: Word, i: nat)
    requires i < 128
    ensures Bit(Left(x), i) <==> i > 0 && Bit(x, i - 1)
  {
    if i == 0 {
      EvenAndOne(x);
    } else {
      Unit(i - 1);
      AndDouble(x, Shl(1, i - 1));
    }
  }

  lemma {:induction false} BitShl(x: Word, k: nat, i: nat)
    requires i < 128
    ensures Bit(Shl(x, k), i) <==> k <= i && Bit(x, i - k)
    decreases k
  {
    if k > 0 {
      BitLeft(Shl(x, k - 1), i);
      if i > 0 {
        BitShl(x, k - 1, i - 1);
      }
    }
  }

  lemma BitOfOne(i: nat)
    requires i < 128
    ensures Bit(1, i) <==> i == 0
  {}

  lemma UnitsDiffer(k: nat, i: nat)
    requires k < 128 && i < 128 && k != i
    ensures Zero(And(Shl(1, k), Shl(1, i)))
  {
    BitShl(1, k, i);
    if k <= i {
      BitOfOne(i - k);
    }
  }

  /** `x | (1 << k)` sets bit k ... */
  lemma BitSetSame(x: Word, k: nat)
    requires k < 128
    ensures Bit(Or(x, Shl(1, k)), k)
  {
    Unit(k);
    OrSame(x, Shl(1, k));
  }

  /** ... and no other. */
  lemma BitSetOther(x: Word, k: nat, i: nat)
    requires k < 128 && i < 128 && k != i
    ensures Bit(Or(x, Shl(1, k)), i) <==> Bit(x, i)
  {
    UnitsDiffer(k, i);
    OrDisjoint(x, Shl(1, k), Shl(1, i));
  }
}
