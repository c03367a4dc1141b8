/**
 The search for a run of physically contiguous pages that are free or could be relocated.  A
 page is named by its frame number; the build has no reservations.
 */
module ScanContig {
  import opened Arith
  import opened Words
  import opened Rounding

  const PAGE_SIZE: nat := 4096
  const NFREEORDER: nat := 13

  /** The object of a page: whether its type allows relocation and its memory attribute is the default. */
  datatype Owner = NoObject | Object(relocatable: bool, defaultAttr: bool)

  datatype Frame = Frame(wire: nat, hold: nat, owner: Owner, queued: bool, busied: bool, order: nat)

  /** How many pages the frame adds to a run: none, itself, or the whole free block it heads. */
  function Ext(f: Frame): nat {
    if f.wire != 0 || f.hold != 0 then 0
    else if f.owner != NoObject then
      if f.owner.relocatable && f.owner.defaultAttr && f.queued && !f.busied then 1 else 0
    else if f.order < NFREEORDER then Pow2(f.order)
    else 0
  }

  function Pa(m: nat): nat {
    m * PAGE_SIZE
  }

  predicate Aligned(m: nat, alignment: nat)
    requires alignment > 0
  {
    Pa(m) % alignment == 0
  }

  /** Whether `n` pages from frame `m` on lie in more than one block of `boundary` bytes. */
  predicate Crosses(m: nat, n: nat, boundary: nat)
    requires n > 0
  {
    boundary != 0 && Block(Pa(m), boundary) != Block(Pa(m) + Pa(n) - 1, boundary)
  }

  // ----- multiples -----

  lemma {:induction false} Pow2Add(a: nat, b: nat)
    ensures Pow2(a + b) == Pow2(a) * Pow2(b)
    decreases a
  {
    if a > 0 {
      Pow2Add(a - 1, b);
      MulTwice(Pow2(a - 1), Pow2(b));
    }
  }

  lemma MulTwice(x: nat, y: nat)
    ensures (2 * x) * y == 2 * (x * y)
  {
  }

  /** The next multiple of `d`, and nothing but other numbers before it. */
  lemma NextMultiple(x: nat, d: nat, q: nat, r: nat)
    requires d > 0 && q == x / d && r == x % d && x == q * d + r
    ensures ((x + d - 1) / d) * d == if r == 0 then x else (q + 1) * d
    ensures (q + 1) * d == q * d + d
  {
    MulNext(q, d);
    if r == 0 {
      DivUnique(x + d - 1, q, d - 1, d);
    } else {
      DivUnique(x + d - 1, q + 1, r - 1, d);
    }
  }

  lemma InBlock(y: nat, q: nat, d: nat)
    requires d > 0 && q * d <= y < q * d + d
    ensures y / d == q && y % d == y - q * d
  {
    DivUnique(y, q, y - q * d, d);
  }

  /** A power of two is a multiple of the page size, or divides it. */
  lemma PagePower(k: nat)
    ensures k >= 12 ==> Pow2(k) == Pow2(k - 12) * PAGE_SIZE
    ensures k < 12 ==> PAGE_SIZE == Pow2(12 - k) * Pow2(k)
  {
    assert Pow2(12) == PAGE_SIZE by { Pow12(); }
    if k >= 12 {
      Pow2Add(k - 12, 12);
    } else {
      Pow2Add(12 - k, k);
    }
  }

  lemma Pow12()
    ensures Pow2(12) == 4096
  {
    assert Pow2(4) == 16;
    Pow2Add(4, 4);
    Pow2Add(8, 4);
  }

  lemma SmallPower(m: nat, k: nat)
    requires k < 12
    ensures Pa(m) % Pow2(k) == 0
  {
    hide Pow2;
    PagePower(k);
    var c := Pow2(12 - k);
    assert Pa(m) == (m * c) * Pow2(k) by { Assoc(m, c, Pow2(k)); }
    DivUnique(Pa(m), m * c, 0, Pow2(k));
  }

  lemma Assoc(a: nat, b: nat, c: nat)
    ensures a * (b * c) == (a * b) * c
  {
  }

  // ----- skipping ahead -----

  /** atop(roundup2(pa, y) - pa): how far the scan should skip from frame `m`. */
  function RawSkip(m: nat, y: nat): int {
    (RoundUp2(Pa(m), y) - Pa(m)) / PAGE_SIZE
  }

  lemma PaOrder(a: nat, b: nat)
    ensures a < b <==> Pa(a) < Pa(b)
    ensures a <= b ==> Pa(a) + Pa(b - a) == Pa(b)
  {
  }

  /** Where the skip lands, for a power of two no smaller than a page. */
  lemma SkipLands(m: nat, k: nat, q: nat, r: nat)
    requires 12 <= k < WIDTH && Pa(m) + Pow2(k) <= Pow2(WIDTH)
    requires q == Pa(m) / Pow2(k) && r == Pa(m) % Pow2(k) && Pa(m) == q * Pow2(k) + r && r < Pow2(k)
    ensures RawSkip(m, Pow2(k)) >= 0 && (RawSkip(m, Pow2(k)) > 0 <==> r != 0)
    ensures Pa(m + RawSkip(m, Pow2(k))) == if r == 0 then Pa(m) else q * Pow2(k) + Pow2(k)
  {
    hide Pow2, RoundUp2, Pa, RawSkip;
    var d := Pow2(k);
    RoundUpIs(Pa(m), k);
    NextMultiple(Pa(m), d, q, r);
    if r == 0 {
      SkipTo(m, d, m);
    } else {
      var up := (q + 1) * Pow2(k - 12);
      PowerFrames(q + 1, k);
      PaOrder(m, up);
      SkipTo(m, d, up);
    }
  }

  /** A multiple of a big power of two is the address of a frame. */
  lemma PowerFrames(q: nat, k: nat)
    requires k >= 12
    ensures Pa(q * Pow2(k - 12)) == q * Pow2(k)
  {
    hide Pow2;
    PagePower(k);
    Assoc(q, Pow2(k - 12), PAGE_SIZE);
  }

  lemma SkipTo(m: nat, y: nat, up: nat)
    requires RoundUp2(Pa(m), y) == Pa(up) && up >= m
    ensures RawSkip(m, y) == up - m && m + RawSkip(m, y) == up
  {
    hide RoundUp2;
  }

  lemma ShortSkip(m: nat, inc: nat, c: nat, r: nat)
    requires r > 0 && Pa(m + inc) + r == Pa(m) + c * PAGE_SIZE
    ensures inc < c
  {
  }

  /** Skipping over a misaligned start passes misaligned starts only, and reaches an aligned one. */
  lemma AlignRaw(m: nat, k: nat)
    requires k < WIDTH && Pa(m) + Pow2(k) <= Pow2(WIDTH) && !Aligned(m, Pow2(k))
    ensures RawSkip(m, Pow2(k)) > 0 && Aligned(m + RawSkip(m, Pow2(k)), Pow2(k))
    ensures k >= 12 && RawSkip(m, Pow2(k)) < Pow2(k - 12)
    ensures forall t :: m <= t < m + RawSkip(m, Pow2(k)) ==> !Aligned(t, Pow2(k))
  {
    hide Pow2, RawSkip;
    if k < 12 {
      SmallPower(m, k);
    } else {
      var d := Pow2(k);
      var q, r := Quotient(Pa(m), d);
      SkipLands(m, k, q, r);
      var inc := RawSkip(m, d);
      MulNext(q, d);
      InBlock(Pa(m + inc), q + 1, d);
      PagePower(k);
      ShortSkip(m, inc, Pow2(k - 12), r);
      forall t | m <= t < m + inc ensures !Aligned(t, d) {
        PaOrder(t, m);
        PaOrder(t, m + inc);
        InBlock(Pa(t), q, d);
      }
    }
  }

  /** The blocks of a run that crosses a boundary no closer than its own size. */
  lemma CrossBlocks(x: nat, size: nat, d: nat, q: nat, r: nat)
    requires 0 < size <= d && q == x / d && r == x % d && x == q * d + r && r < d
    requires Block(x, d) != Block(x + size - 1, d)
    ensures r != 0 && q * d + d <= x + size - 1
  {
    if x + size - 1 < q * d + d {
      InBlock(x + size - 1, q, d);
    }
  }

  lemma StartsBelow(y: nat, size: nat, d: nat, q: nat)
    requires d > 0 && size > 0 && q * d <= y < q * d + d && q * d + d <= y + size - 1
    ensures Block(y, d) != Block(y + size - 1, d)
  {
    InBlock(y, q, d);
    var b, s := Quotient(y + size - 1, d);
    MulNext(q, d);
    if b <= q {
      MulMono(b, q, d);
    }
  }

  /** Skipping over a start whose run crosses a boundary passes only such starts. */
  lemma BoundaryRaw(m: nat, n: nat, k: nat)
    requires 0 < n && k < WIDTH && Pa(n) <= Pow2(k) && Pa(m) + Pow2(k) <= Pow2(WIDTH) && Crosses(m, n, Pow2(k))
    ensures 0 < RawSkip(m, Pow2(k)) < n
    ensures forall t :: m <= t < m + RawSkip(m, Pow2(k)) ==> Crosses(t, n, Pow2(k))
  {
    hide Pow2, RawSkip, Block;
    var d := Pow2(k);
    BigPower(n, k);
    var q, r := Quotient(Pa(m), d);
    CrossBlocks(Pa(m), Pa(n), d, q, r);
    SkipLands(m, k, q, r);
    var inc := RawSkip(m, d);
    PaSum(m, inc, m + inc);
    PaOrder(inc, n);
    forall t | m <= t < m + inc ensures Crosses(t, n, d) {
      PaOrder(t, m);
      PaOrder(t, m + inc);
      StartsBelow(Pa(t), Pa(n), d, q);
    }
  }

  lemma BigPower(n: nat, k: nat)
    requires 0 < n && Pa(n) <= Pow2(k)
    ensures k >= 12
  {
    hide Pow2;
    PagePower(k);
    if k < 12 {
      Pow2AtLeast(12 - k);
      MulMono(2, Pow2(12 - k), Pow2(k));
    }
  }

  lemma {:induction false} Pow2AtLeast(j: nat)
    requires j > 0
    ensures Pow2(j) >= 2
  {
  }

  /** What an int keeps of a number. */
  function ToInt(x: int): int {
    var r := x % 0x1_0000_0000;
    if r < 0x8000_0000 then r else r - 0x1_0000_0000
  }

  /** How far the scan skips: the number of frames is stored in an int. */
  function Skip(m: nat, y: nat): int {
    ToInt(RawSkip(m, y))
  }

  lemma SmallSkip(x: int)
    requires 0 <= x < 0x8000_0000
    ensures ToInt(x) == x
  {
  }

  lemma Pow31()
    ensures Pow2(31) == 0x8000_0000
  {
    assert Pow2(7) == 128;
    Pow12();
    Pow2Add(12, 12);
    Pow2Add(24, 7);
  }

  /** The skip from frame 1 to the first multiple of a big power of two. */
  lemma SkipFromOne(k: nat)
    requires 12 < k < WIDTH
    ensures Pa(1) + Pow2(k) <= Pow2(WIDTH) && RawSkip(1, Pow2(k)) == Pow2(k - 12) - 1
  {
    hide Pow2, RawSkip, RoundUp2;
    var d := Pow2(k);
    PagePower(k);
    Pow2AtLeast(k - 12);
    Pow2Mono(k + 1, WIDTH);
    Pow2Add(1, k);
    TwoPages(d);
    InBlock(Pa(1), 0, d);
    SkipLands(1, k, 0, Pa(1));
    PaIs(1 + RawSkip(1, d), Pow2(k - 12));
  }

  lemma TwoPages(d: nat)
    requires exists c: nat :: c >= 2 && d == c * PAGE_SIZE
    ensures d >= 2 * PAGE_SIZE && Pow2(1) == 2
  {
  }

  lemma PaIs(a: int, c: nat)
    requires a >= 0 && Pa(a) == c * PAGE_SIZE
    ensures a == c
  {
  }

  /** The skip fits the int, wherever it starts from, exactly for the powers up to 2^43. */
  lemma SkipFitsIff(k: nat)
    requires k < WIDTH
    ensures k <= 43 <==> forall m: nat :: Pa(m) + Pow2(k) <= Pow2(WIDTH) ==> Skip(m, Pow2(k)) == RawSkip(m, Pow2(k))
  {
    hide Pow2, RawSkip;
    if k <= 43 {
      forall m: nat | Pa(m) + Pow2(k) <= Pow2(WIDTH) ensures Skip(m, Pow2(k)) == RawSkip(m, Pow2(k)) {
        SkipIsShort(m, k);
      }
    } else {
      SkipFromOne(k);
      Pow31();
      Pow2Mono(32, k - 12);
      Pow2Add(1, 31);
      TwoToOne();
      assert RawSkip(1, Pow2(k)) >= 0x8000_0000;
    }
  }

  lemma TwoToOne()
    ensures Pow2(1) == 2
  {
  }

  lemma SkipIsShort(m: nat, k: nat)
    requires k <= 43 && Pa(m) + Pow2(k) <= Pow2(WIDTH)
    ensures Skip(m, Pow2(k)) == RawSkip(m, Pow2(k)) && (Aligned(m, Pow2(k)) ==> Skip(m, Pow2(k)) == 0)
  {
    hide Pow2, RawSkip;
    if Aligned(m, Pow2(k)) {
      NoSkip(m, k);
    } else {
      AlignRaw(m, k);
      Pow2Mono(k - 12, 31);
      Pow31();
      SmallSkip(RawSkip(m, Pow2(k)));
    }
  }

  lemma NoSkip(m: nat, k: nat)
    requires k < WIDTH && Pa(m) + Pow2(k) <= Pow2(WIDTH) && Aligned(m, Pow2(k))
    ensures RawSkip(m, Pow2(k)) == 0 && Skip(m, Pow2(k)) == 0
  {
    hide Pow2, RoundUp2;
    var d := Pow2(k);
    var q, r := Quotient(Pa(m), d);
    RoundUpIs(Pa(m), k);
    NextMultiple(Pa(m), d, q, r);
  }

  /** Skipping over a misaligned start passes misaligned starts only, and reaches an aligned one. */
  lemma AlignSkip(m: nat, k: nat)
    requires k <= 43 && Pa(m) + Pow2(k) <= Pow2(WIDTH) && !Aligned(m, Pow2(k))
    ensures Skip(m, Pow2(k)) > 0 && Aligned(m + Skip(m, Pow2(k)), Pow2(k))
    ensures forall t :: m <= t < m + Skip(m, Pow2(k)) ==> !Aligned(t, Pow2(k))
  {
    hide Pow2, RawSkip, Skip;
    AlignRaw(m, k);
    SkipIsShort(m, k);
  }

  /** Skipping over a start whose run crosses a boundary no smaller than the run passes only such starts. */
  lemma BoundarySkip(m: nat, n: nat, k: nat)
    requires 0 < n < 0x8000_0000 && k < WIDTH && Pa(n) <= Pow2(k) && Pa(m) + Pow2(k) <= Pow2(WIDTH)
    requires Crosses(m, n, Pow2(k))
    ensures Skip(m, Pow2(k)) > 0
    ensures forall t :: m <= t < m + Skip(m, Pow2(k)) ==> Crosses(t, n, Pow2(k))
  {
    hide Pow2, RawSkip;
    BoundaryRaw(m, n, k);
    SmallSkip(RawSkip(m, Pow2(k)));
  }

  /** A run longer than the boundary crosses it wherever it starts. */
  lemma LongCrosses(m: nat, n: nat, k: nat)
    requires 0 < n && Pa(n) > Pow2(k)
    ensures Crosses(m, n, Pow2(k))
  {
    hide Pow2;
    var d := Pow2(k);
    var q, r := Quotient(Pa(m), d);
    StartsBelow(Pa(m), Pa(n), d, q);
  }

  /**
   With a boundary smaller than the run, the skip goes from one multiple of it to the next, and
   stays at a multiple.
   */
  lemma LongSkip(m: nat, n: nat, k: nat)
    requires 0 < n < 0x8000_0000 && k < WIDTH && Pa(n) > Pow2(k) && Pa(m) + Pow2(k) <= Pow2(WIDTH)
    ensures Skip(m, Pow2(k)) == 0 <==> Aligned(m, Pow2(k))
    ensures Skip(m, Pow2(k)) >= 0
    ensures forall t :: m <= t < m + Skip(m, Pow2(k)) ==> !Aligned(t, Pow2(k))
  {
    hide Pow2, RawSkip, Skip;
    if Aligned(m, Pow2(k)) {
      NoSkip(m, k);
    } else {
      AlignRaw(m, k);
      PagePower(k);
      PaOrder(Pow2(k - 12), n);
      SkipSmall(m, k);
    }
  }

  lemma SkipSmall(m: nat, k: nat)
    requires 0 <= RawSkip(m, Pow2(k)) < 0x8000_0000
    ensures Skip(m, Pow2(k)) == RawSkip(m, Pow2(k))
  {
    hide RawSkip;
    SmallSkip(RawSkip(m, Pow2(k)));
  }

  predicate Advances(m: nat, n: nat, boundary: nat)
    requires n > 0
  {
    Crosses(m, n, boundary) ==> Skip(m, boundary) > 0
  }

  /**
   The scan always moves on exactly when the boundary is no smaller than the run: with a
   smaller one it stays for ever at any frame on the boundary, frame 0 for one.
   */
  lemma AdvancesIff(n: nat, k: nat)
    requires 0 < n < 0x8000_0000 && k < WIDTH
    ensures Pa(n) <= Pow2(k) <==> forall m: nat :: Pa(m) + Pow2(k) <= Pow2(WIDTH) ==> Advances(m, n, Pow2(k))
  {
    hide Pow2, Skip, Crosses;
    if Pa(n) <= Pow2(k) {
      forall m: nat | Pa(m) + Pow2(k) <= Pow2(WIDTH) ensures Advances(m, n, Pow2(k)) {
        if Crosses(m, n, Pow2(k)) {
          BoundarySkip(m, n, k);
        }
      }
    } else {
      StuckAtZero(n, k);
      assert Pa(0) + Pow2(k) <= Pow2(WIDTH) && !Advances(0, n, Pow2(k));
    }
  }

  lemma {:induction false} Pow2Mono(j: nat, k: nat)
    requires j <= k
    ensures Pow2(j) <= Pow2(k)
    decreases k
  {
    if j > 0 {
      Pow2Mono(j - 1, k - 1);
    } else if k > 0 {
      Pow2Mono(0, k - 1);
    }
  }

  lemma StuckAtZero(n: nat, k: nat)
    requires 0 < n < 0x8000_0000 && k < WIDTH && Pa(n) > Pow2(k)
    ensures Crosses(0, n, Pow2(k)) && Skip(0, Pow2(k)) == 0 && Pow2(k) <= Pow2(WIDTH)
  {
    hide Pow2, Skip;
    Pow2Mono(k, WIDTH);
    InBlock(0, 0, Pow2(k));
    LongCrosses(0, n, k);
    LongSkip(0, n, k);
  }

  // ----- runs -----

  /** From frame `p`, usable frames follow one another for `need` pages. */
  predicate Walks(frames: seq<Frame>, p: nat, need: int)
    decreases need
  {
    need <= 0 || (p < |frames| && Ext(frames[p]) > 0 && Walks(frames, p + Ext(frames[p]), need - Ext(frames[p])))
  }

  /** Frame `i` may be moved or is free: it is in the extent of a usable frame. */
  ghost predicate Usable(frames: seq<Frame>, i: nat) {
    exists h: nat :: h <= i && Covers(frames, h, i)
  }

  predicate Covers(frames: seq<Frame>, h: nat, i: nat) {
    h < |frames| && i < h + Ext(frames[h])
  }

  /** Every page of a run that walks is usable. */
  lemma {:induction false} WalkIsUsable(frames: seq<Frame>, p: nat, need: int, i: nat)
    requires Walks(frames, p, need) && p <= i < p + need
    ensures Usable(frames, i)
    decreases need
  {
    hide Ext;
    var e := Ext(frames[p]);
    if i < p + e {
      assert Covers(frames, p, i);
    } else {
      WalkIsUsable(frames, p + e, need - e, i);
    }
  }

  /** Neither wired nor held, and in a relocatable object of the default attribute, on a queue and not busy. */
  predicate Relocatable(f: Frame) {
    f.wire == 0 && f.hold == 0 && f.owner.Object? && f.owner.relocatable && f.owner.defaultAttr && f.queued && !f.busied
  }

  /** Neither wired nor held, in no object, and the first of 2^order free pages. */
  predicate FreeHead(f: Frame) {
    f.wire == 0 && f.hold == 0 && f.owner.NoObject? && f.order < 13
  }

  /** A usable frame can be relocated, or lies in a free block whose first page is in the region. */
  lemma UsableIff(frames: seq<Frame>, i: nat)
    ensures Usable(frames, i)
       <==> || (i < |frames| && Relocatable(frames[i]))
            || exists h: nat :: h <= i && h < |frames| && FreeHead(frames[h]) && i < h + Pow2(frames[h].order)
  {
    hide Pow2;
    if i < |frames| && Relocatable(frames[i]) {
      assert Covers(frames, i, i);
    }
    if h: nat :| h <= i && h < |frames| && FreeHead(frames[h]) && i < h + Pow2(frames[h].order) {
      assert Covers(frames, h, i);
    }
  }

  /** From a usable head, frames walk exactly as far as all of them are usable. */
  lemma {:induction false} WalksIff(frames: seq<Frame>, p: nat, need: nat)
    requires BlockHeads(frames) && p < |frames| && Ext(frames[p]) > 0
    ensures Walks(frames, p, need) <==> forall i :: p <= i < p + need ==> Usable(frames, i)
    decreases need
  {
    hide Ext;
    if Walks(frames, p, need) {
      forall i | p <= i < p + need ensures Usable(frames, i) { WalkIsUsable(frames, p, need, i); }
    }
    if (forall i :: p <= i < p + need ==> Usable(frames, i)) && need > Ext(frames[p]) {
      var e := Ext(frames[p]);
      NextIsHead(frames, p);
      WalksIff(frames, p + e, need - e);
    }
  }

  /** After a usable head and its extent, the next usable page is a head again. */
  lemma NextIsHead(frames: seq<Frame>, p: nat)
    requires BlockHeads(frames) && p < |frames| && Ext(frames[p]) > 0 && Usable(frames, p + Ext(frames[p]))
    ensures p + Ext(frames[p]) < |frames| && Ext(frames[p + Ext(frames[p])]) > 0
  {
    hide Ext;
    var next := p + Ext(frames[p]);
    var h: nat :| h <= next && Covers(frames, h, next);
    assert h < p ==> Covers(frames, h, p);
    assert p < h < next ==> Covers(frames, p, h);
  }

  /** Only the first frame of a free block carries the block's order. */
  ghost predicate BlockHeads(frames: seq<Frame>) {
    forall h, t :: 0 <= h < t < |frames| && Covers(frames, h, t) ==> Ext(frames[t]) == 0
  }

  /** Starting from `t`, a run of `n` has nothing left to need of the frames before `m`. */
  predicate Passes(frames: seq<Frame>, t: nat, m: nat, n: nat)
  {
    !Walks(frames, t, n) || (t <= m < t + n && Walks(frames, m, n - (m - t)))
  }

  /** What has been passed on the way to `m`: nothing good, unless it needs `m` too. */
  ghost predicate Behind(frames: seq<Frame>, from: nat, m: nat, n: nat) {
    forall t :: from <= t < m ==> Passes(frames, t, m, n)
  }

  lemma BehindGrows(frames: seq<Frame>, from: nat, m: nat, n: nat)
    requires BlockHeads(frames) && Behind(frames, from, m, n) && from <= m < |frames|
    requires Ext(frames[m]) > 0 && m + Ext(frames[m]) < from + n
    ensures Behind(frames, from, m + Ext(frames[m]), n)
  {
    hide Ext;
    var e := Ext(frames[m]);
    var next := m + e;
    forall t | from <= t < next ensures Passes(frames, t, next, n) {
      if t < m {
        assert Passes(frames, t, m, n);
      } else if m < t < |frames| {
        assert Covers(frames, m, t);
      }
    }
  }

  /** An unusable frame spoils every start that needs it. */
  lemma BehindFails(frames: seq<Frame>, from: nat, m: nat, n: nat, t: nat)
    requires Behind(frames, from, m, n) && from <= t <= m < |frames| && Ext(frames[m]) == 0 && n > 0
    ensures !Walks(frames, t, n)
  {
    hide Ext;
    if t < m {
      assert Passes(frames, t, m, n);
    }
  }

  /** The search: `n` pages before frame `end`, from frame `start` on. */
  datatype Want = Want(frames: seq<Frame>, n: nat, start: nat, end: nat, alignment: nat, boundary: nat)

  /** What the source asks of its caller; above 2^43 the alignment's skip would not fit its int. */
  ghost predicate Sane(w: Want) {
    && 0 < w.n < 0x8000_0000 && w.start <= w.end <= |w.frames|
    && (exists k: nat :: k <= 43 && w.alignment == Pow2(k)) && (w.boundary == 0 || PowerOf2(w.boundary))
    && Pa(w.end) + w.alignment <= Pow2(WIDTH) && Pa(w.end) + w.boundary <= Pow2(WIDTH)
  }

  predicate MayStart(w: Want, s: nat) {
    w.n > 0 && w.alignment > 0 && s + w.n <= w.end && Aligned(s, w.alignment) && !Crosses(s, w.n, w.boundary)
  }

  predicate Good(w: Want, s: nat) {
    MayStart(w, s) && Walks(w.frames, s, w.n)
  }

  /** No start in `from..to` is good. */
  ghost predicate NoGood(w: Want, from: nat, to: nat) {
    forall t :: from <= t < to ==> !Good(w, t)
  }

  /** A start the scan does not leave: on a boundary, aligned, with a run longer than the boundary. */
  predicate Stuck(w: Want, s: nat) {
    && w.boundary != 0 && w.alignment > 0 && Pa(w.n) > w.boundary
    && s + w.n <= w.end && Aligned(s, w.alignment) && Aligned(s, w.boundary)
  }

  ghost predicate NoStuck(w: Want, from: nat, to: nat) {
    forall t :: from <= t < to ==> !Stuck(w, t)
  }

  /** A run of `len` pages from `run` to `m`, or none. */
  ghost predicate State(w: Want, m: nat, run: int, len: nat) {
    && w.start <= m && NoStuck(w, w.start, m)
    && if run < 0 then
         len == 0 && (BlockHeads(w.frames) ==> NoGood(w, w.start, m))
       else
         && len > 0 && w.start <= run && m == run + len && MayStart(w, run)
         && (Walks(w.frames, run, w.n) <==> len >= w.n || Walks(w.frames, m, w.n - len))
         && (BlockHeads(w.frames) ==> NoGood(w, w.start, run))
         && (BlockHeads(w.frames) && len < w.n ==> Behind(w.frames, run, m, w.n))
  }

  /** The alignment test and its skip. */
  lemma AlignTurn(w: Want, m: nat)
    requires Sane(w) && State(w, m, -1, 0) && m + w.n <= w.end
    ensures w.alignment > 0 && (And(Pa(m), w.alignment - 1) != 0 <==> !Aligned(m, w.alignment))
    ensures !Aligned(m, w.alignment) ==> Skip(m, w.alignment) > 0 && State(w, m + Skip(m, w.alignment), -1, 0)
  {
    hide Pow2, Skip, And, Walks, BlockHeads;
    var k: nat :| k <= 43 && w.alignment == Pow2(k);
    MaskIsRemainder(Pa(m), k);
    PaOrder(m, w.end);
    if !Aligned(m, w.alignment) {
      AlignSkip(m, k);
    }
  }

  /** The xor test and its skip, which may be none at all. */
  lemma BoundaryTurn(w: Want, m: nat)
    requires Sane(w) && State(w, m, -1, 0) && m + w.n <= w.end && w.alignment > 0 && Aligned(m, w.alignment)
    ensures RoundDown2(Xor(Pa(m), Pa(m) + Pa(w.n) - 1), w.boundary) != 0 <==> Crosses(m, w.n, w.boundary)
    ensures Crosses(m, w.n, w.boundary) ==>
              if Stuck(w, m) then Skip(m, w.boundary) == 0
              else Skip(m, w.boundary) > 0 && State(w, m + Skip(m, w.boundary), -1, 0)
  {
    hide Pow2, Skip, Xor, Walks, BlockHeads, RoundDown2, Crosses, Aligned;
    PaSum(m, w.n, w.end);
    if w.boundary == 0 {
      RoundDownToZero(Xor(Pa(m), Pa(m) + Pa(w.n) - 1));
      NeverCrosses(m, w.n);
    } else {
      var k: nat :| k < WIDTH && w.boundary == Pow2(k);
      SameBlockTest(Pa(m), Pa(m) + Pa(w.n) - 1, k);
      CrossesTest(m, w.n, w.boundary);
      if Pa(w.n) <= w.boundary {
        if Crosses(m, w.n, w.boundary) { BoundarySkip(m, w.n, k); }
      } else {
        LongSkip(m, w.n, k);
        forall t: nat ensures Crosses(t, w.n, w.boundary) { LongCrosses(t, w.n, k); }
      }
    }
  }

  lemma NeverCrosses(m: nat, n: nat)
    requires n > 0
    ensures !Crosses(m, n, 0)
  {
  }

  lemma CrossesTest(m: nat, n: nat, boundary: nat)
    requires n > 0 && boundary != 0
    ensures Crosses(m, n, boundary) <==> Block(Pa(m), boundary) != Block(Pa(m) + Pa(n) - 1, boundary)
  {
  }

  /** Where some start does not cross the boundary, none is stuck. */
  lemma NoneStuck(w: Want, s: nat, from: nat, to: nat)
    requires Sane(w) && !Crosses(s, w.n, w.boundary)
    ensures NoStuck(w, from, to)
  {
    hide Pow2, Crosses;
    if w.boundary != 0 && Pa(w.n) > w.boundary {
      var k: nat :| k < WIDTH && w.boundary == Pow2(k);
      LongCrosses(s, w.n, k);
      assert false;
    }
  }

  lemma PaSum(m: nat, n: nat, end: nat)
    requires m + n <= end
    ensures Pa(m) + Pa(n) <= Pa(end)
  {
  }

  lemma StartNotStuck(w: Want, s: nat, from: nat, to: nat)
    requires Sane(w) && MayStart(w, s)
    ensures NoStuck(w, from, to)
  {
    hide Sane, NoStuck;
    NoneStuck(w, s, from, to);
  }

  lemma WalkStep(frames: seq<Frame>, p: nat, need: int)
    requires p < |frames| && Ext(frames[p]) > 0
    ensures Walks(frames, p, need) <==> need <= Ext(frames[p])
                                        || Walks(frames, p + Ext(frames[p]), need - Ext(frames[p]))
  {
    hide Ext;
  }

  /** A usable frame starts or extends the run. */
  lemma ExtendTurn(w: Want, m: nat, run: int, len: nat)
    requires Sane(w) && State(w, m, run, len) && len < w.n && m < |w.frames| && Ext(w.frames[m]) > 0
    requires len == 0 ==> MayStart(w, m)
    ensures var e := Ext(w.frames[m]); State(w, m + e, if len == 0 then m else run, len + e)
  {
    hide Ext, MayStart, BlockHeads, Passes, NoGood, NoStuck, Sane;
    var e := Ext(w.frames[m]);
    StartNotStuck(w, if len == 0 then m else run, w.start, m + e);
    WalkStep(w.frames, m, w.n - len);
    if BlockHeads(w.frames) && len + e < w.n {
      BehindGrows(w.frames, if len == 0 then m else run, m, w.n);
    }
  }

  /** Any other frame ends it, and spoils every start since the run's own. */
  lemma ResetTurn(w: Want, m: nat, run: int, len: nat)
    requires Sane(w) && State(w, m, run, len) && len < w.n && m < |w.frames| && Ext(w.frames[m]) == 0
    requires len == 0 ==> MayStart(w, m)
    ensures State(w, m + 1, -1, 0)
  {
    hide Ext, MayStart, BlockHeads, Passes, NoStuck, Sane;
    StartNotStuck(w, if len == 0 then m else run, w.start, m + 1);
    if BlockHeads(w.frames) {
      var from := if run < 0 then m else run;
      forall t: nat | w.start <= t < m + 1 ensures !Good(w, t) {
        if from <= t {
          BehindFails(w.frames, from, m, w.n, t);
        }
      }
    }
  }

  /** A run from a frame on, no run, or a scan that stays at a frame for ever. */
  datatype Outcome = Run(first: nat) | NoRun | Stays(m: nat)

  /**
   vm_page_scan_contig: the first frame of the least good run, or none if there is none.  With a
   boundary smaller than the run it never ends exactly when some start is aligned and on a boundary.
   */
  method Scan(w: Want) returns (r: Outcome)
    requires Sane(w)
    ensures r.Run? ==> w.start <= r.first && Good(w, r.first)
    ensures r.Run? && BlockHeads(w.frames) ==> NoGood(w, w.start, r.first)
    ensures r.NoRun? && BlockHeads(w.frames) ==> NoGood(w, w.start, w.end)
    ensures r.Stays? ==> w.start <= r.m && Stuck(w, r.m) && NoStuck(w, w.start, r.m)
    ensures !r.Stays? ==> NoStuck(w, w.start, w.end)
  {
    hide State, Good, Walks, Ext, And, Xor, RoundDown2, RoundUp2, Crosses, Aligned, Sane, BlockHeads, NoGood, ToInt,
         Stuck, NoStuck, MayStart;
    SaneFits(w);
    StateStart(w);
    var m := w.start;
    var run: int := -1;
    var len: nat := 0;
    while m < w.end && len < w.n
      invariant State(w, m, run, len)
      decreases w.end - m
    {
      StateRun(w, m, run, len);
      if len == 0 {
        if m + w.n > w.end {
          break;
        }
        var pa := Pa(m);
        AlignTurn(w, m);
        if And(pa, w.alignment - 1) != 0 {
          m := m + ToInt((RoundUp2(pa, w.alignment) - pa) / PAGE_SIZE);
          continue;
        }
        BoundaryTurn(w, m);
        if RoundDown2(Xor(pa, pa + Pa(w.n) - 1), w.boundary) != 0 {
          var inc := ToInt((RoundUp2(pa, w.boundary) - pa) / PAGE_SIZE);
          if inc == 0 {
            StateStuck(w, m);
            return Stays(m);
          }
          m := m + inc;
          continue;
        }
        StartHere(w, m);
      }
      var ext := Ext(w.frames[m]);
      if ext > 0 {
        ExtendTurn(w, m, run, len);
        if len == 0 {
          run := m;
        }
        len := len + ext;
        m := m + ext;
      } else {
        ResetTurn(w, m, run, len);
        if len > 0 {
          run, len := -1, 0;
        }
        m := m + 1;
      }
    }
    StateEnd(w, m, run, len);
    r := if len >= w.n then Run(run) else NoRun;
  }

  lemma StateStuck(w: Want, m: nat)
    requires State(w, m, -1, 0)
    ensures w.start <= m && NoStuck(w, w.start, m)
  {
  }

  lemma StartHere(w: Want, m: nat)
    requires w.n > 0 && w.alignment > 0 && m + w.n <= w.end && Aligned(m, w.alignment) && !Crosses(m, w.n, w.boundary)
    ensures MayStart(w, m)
  {
  }

  lemma SaneFits(w: Want)
    requires Sane(w)
    ensures 0 < w.n && w.start <= w.end <= |w.frames|
  {
  }

  lemma StateStart(w: Want)
    ensures State(w, w.start, -1, 0)
  {
  }

  lemma StateRun(w: Want, m: nat, run: int, len: nat)
    requires State(w, m, run, len)
    ensures len == 0 <==> run < 0
    ensures len == 0 ==> State(w, m, -1, 0)
  {
  }

  /** Out of frames, out of room, or done. */
  lemma StateEnd(w: Want, m: nat, run: int, len: nat)
    requires Sane(w) && State(w, m, run, len)
    requires m >= w.end || len >= w.n || (len == 0 && m + w.n > w.end)
    ensures len >= w.n ==> run >= w.start && Good(w, run)
    ensures len >= w.n && BlockHeads(w.frames) ==> NoGood(w, w.start, run)
    ensures len < w.n && BlockHeads(w.frames) ==> NoGood(w, w.start, w.end)
    ensures NoStuck(w, w.start, w.end)
  {
    hide BlockHeads, Crosses, Aligned, Behind;
    if len >= w.n {
      StartNotStuck(w, run, w.start, w.end);
    }
  }
}
