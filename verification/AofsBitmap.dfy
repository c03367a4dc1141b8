/** The block allocation bitmap: one bit a block, eight to a byte, changed in place. */
module AofsBitmap {
  import opened AofsDisk
  import Words
  import Rounding

  /** Bit `k` of the bitmap; false beyond its end. */
  predicate BitAt(bits: seq<Byte>, k: nat) {
    k / 8 < |bits| && Words.Bit(bits[k / 8], k % 8)
  }

  function UsedBits(bits: seq<Byte>): (u: seq<bool>)
    ensures |u| == BLOCK_NUM
    ensures forall k :: 0 <= k < BLOCK_NUM ==> u[k] == BitAt(bits, k)
  {
    seq(BLOCK_NUM, k requires 0 <= k < BLOCK_NUM => BitAt(bits, k))
  }

  /** (bits[byte] >> offset) & 1, the test every bitmap function makes. */
  function TestBit(byte: Byte, offset: nat): bool {
    Words.And(Shr(byte, offset), 1) != 0
  }

  function Shr(x: nat, k: nat): nat {
    if k == 0 then x else Shr(x / 2, k - 1)
  }

  lemma {:induction false} TestBitIsBit(x: Byte, k: nat)
    ensures TestBit(x, k) <==> Words.Bit(x, k)
  {
    ShrBit(x, k);
    AndOne(Shr(x, k));
  }

  lemma {:induction false} ShrBit(x: nat, k: nat)
    ensures Shr(x, k) % 2 == 1 <==> Words.Bit(x, k)
    decreases k
  {
    if k > 0 { ShrBit(x / 2, k - 1); }
  }

  lemma AndOne(x: nat)
    ensures Words.And(x, 1) == x % 2
  {
    assert Words.And(x / 2, 0) == 0;
  }

  lemma {:induction false} BitIs(x: nat, k: nat)
    ensures Words.Bit(x, k) <==> x / Words.Pow2(k) % 2 == 1
    decreases k
  {
    if k > 0 {
      BitIs(x / 2, k - 1);
      Rounding.DivTwice(x, Words.Pow2(k - 1));
    }
  }

  /** Block `k`'s bit is the one that weighs 2^(k % 8) in byte k / 8. */
  lemma BitWeighs(bits: seq<Byte>, k: nat)
    requires k / 8 < |bits|
    ensures BitAt(bits, k) <==> bits[k / 8] / Words.Pow2(k % 8) % 2 == 1
  {
    BitIs(bits[k / 8], k % 8);
  }

  /** Setting one bit of a byte. */
  lemma OrMask(x: Byte, o: nat)
    requires o < 8
    ensures Words.Or(x, Words.Shl(1, o)) < 256
    ensures forall k: nat :: Words.Bit(Words.Or(x, Words.Shl(1, o)), k) <==> k == o || Words.Bit(x, k)
  {
    assert Words.Pow2(8) == 256 by { Pow2Eight(); }
    Words.ShlPow2(o, 8);
    Words.OrRange(x, Words.Shl(1, o), 8);
    forall k: nat ensures Words.Bit(Words.Or(x, Words.Shl(1, o)), k) <==> k == o || Words.Bit(x, k) {
      Words.OrBit(x, Words.Shl(1, o), k);
      Words.OneBit(o, k);
    }
  }

  lemma Pow2Eight()
    ensures Words.Pow2(8) == 256
  {
    assert Words.Pow2(3) == 8;
    assert Words.Pow2(6) == 64;
  }

  /** Clearing one bit of a byte with the 32-bit mask ~(1U << o). */
  lemma AndMask(x: Byte, o: nat)
    requires o < 8
    ensures Words.And(x, Words.Not(Words.Shl(1, o), 32)) < 256
    ensures forall k: nat :: Words.Bit(Words.And(x, Words.Not(Words.Shl(1, o), 32)), k) <==> k != o && Words.Bit(x, k)
  {
    var mask := Words.Not(Words.Shl(1, o), 32);
    Words.AndRange(x, mask);
    Pow2Eight();
    forall k: nat ensures Words.Bit(Words.And(x, mask), k) <==> k != o && Words.Bit(x, k) {
      Words.AndBit(x, mask, k);
      Words.NotBit(Words.Shl(1, o), 32, k);
      Words.OneBit(o, k);
      if k >= 8 { Words.HighBits(x, 8, k); }
    }
  }

  lemma SplitIndex(k: nat, idx: nat)
    ensures k == idx <==> k / 8 == idx / 8 && k % 8 == idx % 8
  {
  }

  /** The least clear bit below `num`, or -1. */
  method FindFreeBit(bits: array<Byte>, num: nat) returns (r: int)
    requires num <= 8 * bits.Length
    ensures -1 <= r < num
    ensures r == -1 <==> forall k: nat :: k < num ==> BitAt(bits[..], k)
    ensures r >= 0 ==> !BitAt(bits[..], r) && forall k: nat :: k < r ==> BitAt(bits[..], k)
  {
    for i := 0 to num
      invariant forall k: nat :: k < i ==> BitAt(bits[..], k)
    {
      TestBitIsBit(bits[i / 8], i % 8);
      if !TestBit(bits[i / 8], i % 8) {
        assert !BitAt(bits[..], i);
        return i;
      }
    }
    return -1;
  }

  /** Sets the bit and returns 0, or returns -1 if it was set already. */
  method SetBit(bits: array<Byte>, idx: nat) returns (r: int)
    requires idx / 8 < bits.Length
    modifies bits
    ensures r == if old(BitAt(bits[..], idx)) then -1 else 0
    ensures forall k: nat :: k / 8 < bits.Length ==> (BitAt(bits[..], k) <==> k == idx || old(BitAt(bits[..], k)))
  {
    var byte, o := idx / 8, idx % 8;
    TestBitIsBit(bits[byte], o);
    if TestBit(bits[byte], o) {
      return -1;
    }
    ghost var was := bits[..];
    OrMask(bits[byte], o);
    bits[byte] := Words.Or(bits[byte], Words.Shl(1, o));
    forall k: nat | k / 8 < bits.Length ensures BitAt(bits[..], k) <==> k == idx || BitAt(was, k) {
      SplitIndex(k, idx);
    }
    r := 0;
  }

  /** Clears the bit and returns 0, or returns -1 if it was clear already. */
  method ClearBit(bits: array<Byte>, idx: nat) returns (r: int)
    requires idx / 8 < bits.Length
    modifies bits
    ensures r == if old(BitAt(bits[..], idx)) then 0 else -1
    ensures forall k: nat :: k / 8 < bits.Length ==> (BitAt(bits[..], k) <==> k != idx && old(BitAt(bits[..], k)))
  {
    var byte, o := idx / 8, idx % 8;
    TestBitIsBit(bits[byte], o);
    if !TestBit(bits[byte], o) {
      return -1;
    }
    ghost var was := bits[..];
    AndMask(bits[byte], o);
    bits[byte] := Words.And(bits[byte], Words.Not(Words.Shl(1, o), 32));
    forall k: nat | k / 8 < bits.Length ensures BitAt(bits[..], k) <==> k != idx && BitAt(was, k) {
      SplitIndex(k, idx);
    }
    r := 0;
  }
}
