/** rounddown2, roundup2 and the power-of-two masks, on 64-bit words, as the arithmetic they stand for. */
module Rounding {
  import opened Arith
  import opened Words

  const WIDTH: nat := 64

  /** y - 1 in a word: all ones for 0. */
  function Mask(y: nat): nat {
    if y == 0 then Pow2(WIDTH) - 1 else y - 1
  }

  /** The machine's (x) & ~((y) - 1). */
  function RoundDown2(x: nat, y: nat): nat {
    And(x, Not(Mask(y), WIDTH))
  }

  /** The machine's ((x) + ((y) - 1)) & ~((y) - 1). */
  function RoundUp2(x: nat, y: nat): nat {
    And((x + Mask(y)) % Pow2(WIDTH), Not(Mask(y), WIDTH))
  }

  predicate PowerOf2(y: nat) {
    exists k: nat :: k < WIDTH && y == Pow2(k)
  }

  /** Halving twice over is dividing by twice as much. */
  lemma DivTwice(x: nat, p: nat)
    requires p > 0
    ensures x / (2 * p) == (x / 2) / p && x % (2 * p) == 2 * ((x / 2) % p) + x % 2
  {
    var q, r := Quotient(x / 2, p);
    DivUnique(x, q, 2 * r + x % 2, 2 * p);
  }

  lemma {:induction false} MaskIsRemainder(x: nat, k: nat)
    ensures And(x, Pow2(k) - 1) == x % Pow2(k)
    decreases k
  {
    hide And;
    if k == 0 {
      AndZero(x);
    } else {
      var p := Pow2(k - 1);
      MaskIsRemainder(x / 2, k - 1);
      DivTwice(x, p);
      AndOdd(x, p - 1);
    }
  }

  lemma AndZero(x: nat)
    ensures And(x, 0) == 0 && x % 1 == 0
  {
  }

  lemma AndOdd(x: nat, y: nat)
    ensures And(x, 2 * y + 1) == 2 * And(x / 2, y) + x % 2
  {
  }

  lemma {:induction false} ClearIsMultiple(x: nat, k: nat, width: nat)
    requires k <= width && x < Pow2(width)
    ensures And(x, Not(Pow2(k) - 1, width)) == (x / Pow2(k)) * Pow2(k)
    decreases width
  {
    hide And, Not;
    if k == 0 {
      AllOnes(x, width);
    } else {
      var p := Pow2(k - 1);
      NotOdd(p, width);
      ClearIsMultiple(x / 2, k - 1, width - 1);
      DivTwice(x, p);
      AndEven(x, Not(p - 1, width - 1));
      Double((x / 2) / p, p);
    }
  }

  lemma NotOdd(p: nat, width: nat)
    requires p > 0 && width > 0
    ensures Not(2 * p - 1, width) == 2 * Not(p - 1, width - 1)
  {
    assert (2 * p - 1) / 2 == p - 1 && (2 * p - 1) % 2 == 1;
  }

  lemma Double(q: nat, p: nat)
    ensures 2 * (q * p) == q * (2 * p)
  {
  }

  lemma AndEven(x: nat, y: nat)
    ensures And(x, 2 * y) == 2 * And(x / 2, y)
  {
    assert 2 * y / 2 == y && 2 * y % 2 == 0;
  }

  /** x & ~0 is x. */
  lemma {:induction false} AllOnes(x: nat, width: nat)
    requires x < Pow2(width)
    ensures And(x, Not(0, width)) == x
    decreases width
  {
    if width > 0 {
      AllOnes(x / 2, width - 1);
      assert Not(0, width) == 2 * Not(0, width - 1) + 1;
    }
  }

  /** Rounding down to 2^k, and, with a boundary of 0, to nothing. */
  lemma RoundDownIs(x: nat, k: nat)
    requires k < WIDTH && x < Pow2(WIDTH)
    ensures RoundDown2(x, Pow2(k)) == (x / Pow2(k)) * Pow2(k)
  {
    hide And, Not, Pow2;
    ClearIsMultiple(x, k, WIDTH);
  }

  lemma {:induction false} NoOnes(width: nat)
    ensures Not(Pow2(width) - 1, width) == 0
  {
    if width > 0 {
      assert (Pow2(width) - 1) / 2 == Pow2(width - 1) - 1 && (Pow2(width) - 1) % 2 == 1;
      NoOnes(width - 1);
    }
  }

  lemma RoundDownToZero(x: nat)
    ensures RoundDown2(x, 0) == 0
  {
    hide Not, Pow2;
    NoOnes(WIDTH);
  }

  lemma RoundUpIs(x: nat, k: nat)
    requires k < WIDTH && x + Pow2(k) <= Pow2(WIDTH)
    ensures RoundUp2(x, Pow2(k)) == ((x + Pow2(k) - 1) / Pow2(k)) * Pow2(k)
  {
    hide And, Not, Pow2;
    ClearIsMultiple(x + Pow2(k) - 1, k, WIDTH);
    SmallRemainder(x + Pow2(k) - 1, Pow2(WIDTH));
  }

  lemma SmallRemainder(x: nat, d: nat)
    requires x < d
    ensures x % d == x
  {
  }

  lemma {:induction false} XorZero(x: nat, y: nat)
    ensures Xor(x, y) == 0 <==> x == y
    decreases x + y
  {
    if x != 0 && y != 0 {
      XorZero(x / 2, y / 2);
    }
  }

  lemma XorHalf(x: nat, y: nat)
    ensures Xor(x, y) / 2 == Xor(x / 2, y / 2)
  {
  }

  /** Which block of size `d` an address lies in. */
  function Block(x: nat, d: nat): nat
    requires d > 0
  {
    x / d
  }

  lemma BlockTwice(x: nat, p: nat)
    requires p > 0
    ensures Block(x, 2 * p) == Block(x / 2, p)
  {
    DivTwice(x, p);
  }

  lemma {:induction false} XorBlock(x: nat, y: nat, k: nat)
    ensures Block(Xor(x, y), Pow2(k)) == Xor(Block(x, Pow2(k)), Block(y, Pow2(k)))
    decreases k
  {
    hide Xor, Block;
    if k == 0 {
      BlockOne(x);
      BlockOne(y);
      BlockOne(Xor(x, y));
    } else {
      XorBlock(x / 2, y / 2, k - 1);
      XorHalf(x, y);
      BlockTwice(x, Pow2(k - 1));
      BlockTwice(y, Pow2(k - 1));
      BlockTwice(Xor(x, y), Pow2(k - 1));
    }
  }

  lemma BlockOne(x: nat)
    ensures Block(x, 1) == x
  {
  }

  lemma {:induction false} XorRange(x: nat, y: nat, width: nat)
    requires x < Pow2(width) && y < Pow2(width)
    ensures Xor(x, y) < Pow2(width)
    decreases width
  {
    if width > 0 && x != 0 && y != 0 {
      XorRange(x / 2, y / 2, width - 1);
    }
  }

  /** The xor test: two addresses lie in the same block of 2^k exactly when it rounds down to nothing. */
  lemma SameBlockTest(x: nat, y: nat, k: nat)
    requires k < WIDTH && x < Pow2(WIDTH) && y < Pow2(WIDTH)
    ensures RoundDown2(Xor(x, y), Pow2(k)) == 0 <==> Block(x, Pow2(k)) == Block(y, Pow2(k))
  {
    hide Xor, RoundDown2, Pow2;
    XorRange(x, y, WIDTH);
    RoundDownIs(Xor(x, y), k);
    XorBlock(x, y, k);
    XorZero(Block(x, Pow2(k)), Block(y, Pow2(k)));
    ZeroMultiple(Block(Xor(x, y), Pow2(k)), Pow2(k));
  }

  lemma ZeroMultiple(q: nat, d: nat)
    requires d > 0
    ensures q * d == 0 <==> q == 0
  {
  }
}
