/**
 C's unsigned bit operators on words of any width.  A word is a natural number; the
 operators are defined bit by bit, and `Bit` is what the rest of the project reasons with.
 */
module Words {

  /** Bit `k` of `x`: C's (x >> k) & 1. */
  predicate Bit(x: nat, k: nat) {
    if k == 0 then x % 2 == 1 else Bit(x / 2, k - 1)
  }

  function Pow2(k: nat): (p: nat)
    ensures p > 0
  {
    if k == 0 then 1 else 2 * Pow2(k - 1)
  }

  function Or(x: nat, y: nat): nat
    decreases x + y
  {
    if x == 0 then y else if y == 0 then x
    else 2 * Or(x / 2, y / 2) + (if x % 2 == 1 || y % 2 == 1 then 1 else 0)
  }

  function And(x: nat, y: nat): nat {
    if x == 0 || y == 0 then 0
    else 2 * And(x / 2, y / 2) + (if x % 2 == 1 && y % 2 == 1 then 1 else 0)
  }

  function Xor(x: nat, y: nat): nat
    decreases x + y
  {
    if x == 0 then y else if y == 0 then x
    else 2 * Xor(x / 2, y / 2) + (if x % 2 != y % 2 then 1 else 0)
  }

  /** One's complement of `x` in a word of `width` bits. */
  function Not(x: nat, width: nat): nat {
    if width == 0 then 0 else 2 * Not(x / 2, width - 1) + (if x % 2 == 1 then 0 else 1)
  }

  /** x << k, before truncation to the word. */
  function Shl(x: nat, k: nat): nat {
    if k == 0 then x else 2 * Shl(x, k - 1)
  }

  /** The index of the least set bit: C's ffs(x) - 1. */
  function Ffs(x: nat): nat
    requires x != 0
  {
    if x % 2 == 1 then 0 else 1 + Ffs(x / 2)
  }

  lemma {:induction false} ZeroBits(k: nat)
    ensures !Bit(0, k)
  {
    if k > 0 { ZeroBits(k - 1); }
  }

  lemma {:induction false} OrBit(x: nat, y: nat, k: nat)
    ensures Bit(Or(x, y), k) <==> Bit(x, k) || Bit(y, k)
    decreases k
  {
    ZeroBits(k);
    if x != 0 && y != 0 {
      assert Or(x, y) / 2 == Or(x / 2, y / 2);
      if k > 0 { OrBit(x / 2, y / 2, k - 1); }
    }
  }

  lemma {:induction false} AndBit(x: nat, y: nat, k: nat)
    ensures Bit(And(x, y), k) <==> Bit(x, k) && Bit(y, k)
    decreases k
  {
    ZeroBits(k);
    if x != 0 && y != 0 {
      assert And(x, y) / 2 == And(x / 2, y / 2);
      if k > 0 { AndBit(x / 2, y / 2, k - 1); }
    }
  }

  lemma {:induction false} NotBit(x: nat, width: nat, k: nat)
    ensures Bit(Not(x, width), k) <==> k < width && !Bit(x, k)
    decreases width
  {
    ZeroBits(k);
    if width > 0 {
      assert Not(x, width) / 2 == Not(x / 2, width - 1);
      if k > 0 { NotBit(x / 2, width - 1, k - 1); }
    }
  }

  lemma {:induction false} ShlBit(x: nat, s: nat, k: nat)
    ensures Bit(Shl(x, s), k) <==> k >= s && Bit(x, k - s)
    decreases s
  {
    if s > 0 {
      assert Shl(x, s) / 2 == Shl(x, s - 1) && Shl(x, s) % 2 == 0;
      if k > 0 { ShlBit(x, s - 1, k - 1); }
    }
  }

  /** 1 << k has exactly bit k. */
  lemma {:induction false} OneBit(s: nat, k: nat)
    ensures Bit(Shl(1, s), k) <==> k == s
  {
    ShlBit(1, s, k);
    if k > s {
      assert Bit(1, k - s) == Bit(0, k - s - 1);
      ZeroBits(k - s - 1);
    }
  }

  lemma {:induction false} FfsIsLeast(x: nat, k: nat)
    requires x != 0
    ensures Bit(x, Ffs(x))
    ensures k < Ffs(x) ==> !Bit(x, k)
    decreases x
  {
    if x % 2 != 1 {
      FfsIsLeast(x / 2, if k > 0 then k - 1 else 0);
    }
  }

  /** A word of `width` bits has no set bit beyond its width. */
  lemma {:induction false} HighBits(x: nat, width: nat, k: nat)
    requires x < Pow2(width) && k >= width
    ensures !Bit(x, k)
    decreases width
  {
    if width == 0 {
      ZeroBits(k);
    } else {
      HighBits(x / 2, width - 1, k - 1);
    }
  }

  lemma {:induction false} OrRange(x: nat, y: nat, width: nat)
    requires x < Pow2(width) && y < Pow2(width)
    ensures Or(x, y) < Pow2(width)
    decreases width
  {
    if width > 0 && x != 0 && y != 0 {
      OrRange(x / 2, y / 2, width - 1);
    }
  }

  lemma {:induction false} AndRange(x: nat, y: nat)
    ensures And(x, y) <= x && And(x, y) <= y
  {
    if x != 0 && y != 0 {
      AndRange(x / 2, y / 2);
    }
  }

  lemma {:induction false} ShlPow2(k: nat, width: nat)
    requires k < width
    ensures Shl(1, k) == Pow2(k) < Pow2(width)
    decreases width
  {
    if k > 0 { ShlPow2(k - 1, width - 1); }
  }
}
