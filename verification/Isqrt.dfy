/** The page daemon's bit-by-bit integer square root, on 32-bit words. */
module Isqrt {

  const TWO32 := 0x1_0000_0000

  function Add32(a: nat, b: nat): nat {
    (a + b) % TWO32
  }

  function Sub32(a: nat, b: nat): nat {
    (a - b) % TWO32
  }

  /** A power of two that fits the square root of a word. */
  predicate Step(b: nat) {
    b in {0x1, 0x2, 0x4, 0x8, 0x10, 0x20, 0x40, 0x80, 0x100, 0x200, 0x400, 0x800, 0x1000, 0x2000, 0x4000, 0x8000}
  }

  lemma StepHalves(b: nat)
    requires Step(b)
    ensures (b * b) / 4 == if b == 1 then 0 else (b / 2) * (b / 2)
    ensures b != 1 ==> Step(b / 2) && b == 2 * (b / 2)
    ensures 1 <= b * b < TWO32
  {
  }

  /**
   The state of the second loop: `r` is the root so far, a multiple of twice the step `b`, and
   the true root is less than `2 * b` above it.
   */
  ghost predicate Found(n: nat, num: nat, root: nat, r: nat, b: nat) {
    r * r <= n && num == n - r * r && n < TWO32 && root == 2 * r * b && n < (r + 2 * b) * (r + 2 * b)
      && r + 2 * b <= 0x1_0000
  }

  /** Nothing wraps round. */
  lemma NoWrap(n: nat, num: nat, root: nat, r: nat, b: nat)
    requires Found(n, num, root, r, b) && Step(b)
    ensures root + b * b < TWO32 && root / 2 == r * b && r * b + b * b < TWO32 && num < TWO32
  {
    hide Step;
    StepIsPositive(b);
    SquareSum(r, b);
    Square(r + b, 0xFFFF);
  }

  lemma StepIsPositive(b: nat)
    requires Step(b)
    ensures b >= 1
  {
  }

  lemma SquareSum(r: nat, b: nat)
    ensures (r + b) * (r + b) == r * r + 2 * (r * b) + b * b && 2 * r * b == 2 * (r * b)
    ensures r * r >= 0 && r * b >= 0 && b * b >= 0
  {
  }

  lemma Square(x: nat, y: nat)
    requires x <= y
    ensures x * x <= y * y
  {
    assert x * x <= x * y <= y * y;
  }

  /** The bit test: the step fits exactly when its square, added to what is left, does. */
  lemma Decide(n: nat, num: nat, root: nat, r: nat, b: nat)
    requires Found(n, num, root, r, b) && Step(b)
    ensures num >= root + b * b <==> (r + b) * (r + b) <= n
    ensures num - (root + b * b) == n - (r + b) * (r + b)
    ensures (r + b + b) * (r + b + b) == (r + 2 * b) * (r + 2 * b)
  {
    assert (r + b) * (r + b) == r * r + root + b * b;
  }

  lemma Halve(r: nat, b: nat)
    requires Step(b) && b != 1
    ensures r * b == 2 * r * (b / 2) && r + 2 * (b / 2) == r + b
    ensures (r + 2 * (b / 2)) * (r + 2 * (b / 2)) == (r + b) * (r + b)
  {
    var c := b / 2;
    StepHalves(b);
    assert r * (2 * c) == 2 * r * c;
  }

  /** What a turn at step `b` leaves for the next step, or for the caller. */
  ghost predicate Left(n: nat, num: nat, root: nat, r: nat, b: nat) {
    if b == 1 then root == r && r * r <= n < (r + 1) * (r + 1) else Found(n, num, root, r, b / 2)
  }

  lemma Turn(n: nat, num: nat, root: nat, r: nat, b: nat)
    requires Found(n, num, root, r, b) && Step(b)
    ensures if num >= root + b * b then Left(n, num - (root + b * b), root / 2 + b * b, r + b, b)
            else Left(n, num, root / 2, r, b)
  {
    NoWrap(n, num, root, r, b);
    Decide(n, num, root, r, b);
    if b != 1 {
      Halve(r, b);
      Halve(r + b, b);
      assert (r + b) * b == r * b + b * b;
    }
  }

  /** The first step: nothing found yet, and the root below twice the step. */
  lemma Begin(n: nat, b: nat)
    requires n < TWO32 && n < (2 * b) * (2 * b) && Step(b)
    ensures Found(n, n, 0, 0, b)
  {
  }

  lemma NextStep(n: nat, b: nat)
    requires Step(b) && n < b * b
    ensures b != 1 ==> n < (2 * (b / 2)) * (2 * (b / 2))
    ensures b == 1 ==> n == 0
  {
    StepHalves(b);
    if b != 1 {
      assert 2 * (b / 2) == b;
    }
  }

  /** The first loop: the step is still too big, or all are when `n` is 0. */
  ghost predicate Scaled(n: nat, bit: nat, b: nat) {
    n < TWO32 && if bit == 0 then n == 0 else Step(b) && bit == b * b && n < (2 * b) * (2 * b)
  }

  /** The second loop. */
  ghost predicate Rooted(n: nat, num: nat, root: nat, bit: nat, r: nat, b: nat) {
    if bit == 0 then root == r && r * r <= n < (r + 1) * (r + 1)
    else Step(b) && bit == b * b && Found(n, num, root, r, b)
  }

  lemma ScaledStart(n: nat)
    requires n < TWO32
    ensures Scaled(n, 0x4000_0000, 0x8000)
  {
  }

  lemma ScaledTurn(n: nat, bit: nat, b: nat)
    requires Scaled(n, bit, b) && bit > n
    ensures Scaled(n, bit / 4, b / 2)
  {
    StepHalves(b);
    NextStep(n, b);
  }

  lemma RootedStart(n: nat, bit: nat, b: nat)
    requires Scaled(n, bit, b)
    ensures Rooted(n, n, 0, bit, 0, b)
  {
    if bit != 0 {
      Begin(n, b);
    }
  }

  /** One turn, in the machine's arithmetic. */
  lemma RootedTurn(n: nat, num: nat, root: nat, bit: nat, r: nat, b: nat)
    requires Rooted(n, num, root, bit, r, b) && bit != 0
    ensures Add32(root, bit) == root + bit
    ensures num >= root + bit ==>
      Rooted(n, Sub32(num, Add32(root, bit)), Add32(root / 2, bit), bit / 4, r + b, b / 2)
    ensures num < root + bit ==> Rooted(n, num, root / 2, bit / 4, r, b / 2)
  {
    hide Found, Step, Left;
    NoWrap(n, num, root, r, b);
    Turn(n, num, root, r, b);
    if num >= root + bit {
      InWord(num, root, bit);
      LeftIsRooted(n, num - (root + bit), root / 2 + bit, r + b, b);
    } else {
      LeftIsRooted(n, num, root / 2, r, b);
    }
  }

  lemma LeftIsRooted(n: nat, num: nat, root: nat, r: nat, b: nat)
    requires Step(b) && Left(n, num, root, r, b)
    ensures Rooted(n, num, root, (b * b) / 4, r, b / 2)
  {
    hide Found, Step;
    StepHalves(b);
    if b != 1 {
      StepHalves(b / 2);
    }
  }

  lemma InWord(num: nat, root: nat, bit: nat)
    requires root + bit <= num < TWO32
    ensures Add32(root, bit) == root + bit && Add32(root / 2, bit) == root / 2 + bit
    ensures Sub32(num, Add32(root, bit)) == num - (root + bit)
  {
  }

  /** isqrt: the integer square root of any 32-bit word. */
  method Isqrt(n: nat) returns (root: nat)
    requires n < TWO32
    ensures root * root <= n < (root + 1) * (root + 1)
  {
    hide Scaled, Rooted, Add32, Sub32;
    var num := n;
    var bit := 0x4000_0000;
    ghost var b: nat := 0x8000;
    ScaledStart(n);
    while bit > num
      invariant num == n && Scaled(n, bit, b)
      decreases bit
    {
      ScaledTurn(n, bit, b);
      bit := bit / 4;
      b := b / 2;
    }
    root := 0;
    ghost var r: nat := 0;
    RootedStart(n, bit, b);
    while bit != 0
      invariant Rooted(n, num, root, bit, r, b)
      decreases bit
    {
      RootedTurn(n, num, root, bit, r, b);
      var tmp := Add32(root, bit);
      root := root / 2;
      if num >= tmp {
        num := Sub32(num, tmp);
        root := Add32(root, bit);
        r := r + b;
      }
      bit := bit / 4;
      b := b / 2;
    }
    RootedEnd(n, num, root, r, b);
  }

  lemma RootedEnd(n: nat, num: nat, root: nat, r: nat, b: nat)
    requires Rooted(n, num, root, 0, r, b)
    ensures root * root <= n < (root + 1) * (root + 1)
  {
  }
}
