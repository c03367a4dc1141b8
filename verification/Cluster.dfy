/**
 Growing a cluster of pages to launder around a page, first down to an alignment boundary, then up,
 then down again.
 */
module Cluster {
  import opened Prelude
  import opened Arith

  /** What the cluster code reads of a resident page; `modified` is what the hardware knows and `dirty` may not yet. */
  datatype Pg = Pg(busied: bool, dirty: bool, modified: bool, inLaundry: bool, hold: nat)

  type Pages = map<nat, Pg>

  /** Resident at `i`, dirty, not busy, not held, and in the laundry queue. */
  predicate Eligible(pages: Pages, i: int) {
    i >= 0 && i in pages && !pages[i].busied && (pages[i].dirty || pages[i].modified) && pages[i].inLaundry
      && pages[i].hold == 0
  }

  /** How many eligible pages stand directly below index `m`. */
  function Back(pages: Pages, m: nat): (n: nat)
    ensures n <= m && forall j :: m - n <= j < m ==> Eligible(pages, j)
    ensures !Eligible(pages, m - n - 1)
  {
    if Eligible(pages, m - 1) then 1 + Back(pages, m - 1) else 0
  }

  /** How many eligible pages stand directly above it, below the object's size. */
  function Ahead(pages: Pages, size: nat, m: nat): (n: nat)
    ensures (n > 0 ==> m + n < size) && forall j :: m < j <= m + n ==> Eligible(pages, j)
    ensures !(m + n + 1 < size && Eligible(pages, m + n + 1))
    decreases size - m
  {
    if m + 1 < size && Eligible(pages, m + 1) then 1 + Ahead(pages, size, m + 1) else 0
  }

  /** Pages below: first down to the boundary, or as far as a full cluster if the page stands on one. */
  function FirstBack(pages: Pages, m: nat, n: nat): nat
    requires n > 0
  {
    Min(Back(pages, m), if m % n == 0 then n - 1 else m % n)
  }

  /** Pages above: whatever room that leaves. */
  function UpTo(pages: Pages, size: nat, m: nat, n: nat): int
    requires n > 0
  {
    Min(Ahead(pages, size, m), n - 1 - FirstBack(pages, m, n))
  }

  /** Pages below in the end: whatever room is left then, boundary or not. */
  function DownTo(pages: Pages, size: nat, m: nat, n: nat): int
    requires n > 0
  {
    Min(Back(pages, m), n - 1 - UpTo(pages, size, m, n))
  }

  // ----- lengths, step by step -----

  lemma {:induction false} BackAt(pages: Pages, m: nat, k: nat)
    requires k <= Back(pages, m)
    ensures k < Back(pages, m) <==> Eligible(pages, m - k - 1)
  {
  }

  lemma {:induction false} AheadAt(pages: Pages, size: nat, m: nat, f: nat)
    requires f <= Ahead(pages, size, m)
    ensures f < Ahead(pages, size, m) <==> m + f + 1 < size && Eligible(pages, m + f + 1)
  {
  }

  predicate Boundary(m: nat, j: nat, n: nat)
    requires n > 0
  {
    j <= m && (m - j) % n == 0
  }

  /** A page `k` below `m`, less than a cluster away, stands on a boundary just when `k` is `m`'s distance from it. */
  lemma BoundaryIs(m: nat, k: nat, n: nat)
    requires 0 < k < n && k <= m
    ensures Boundary(m, k, n) <==> k == m % n
  {
    var q, r := Quotient(m, n);
    if (m - k) % n == 0 {
      var s, t := Quotient(m - k, n);
      DivUnique(m, s, k, n);
    }
    if k == m % n {
      DivUnique(m - k, q, 0, n);
    }
  }

  ghost predicate SameEligible(a: Pages, b: Pages) {
    a.Keys == b.Keys && forall i :: Eligible(a, i) <==> Eligible(b, i)
  }

  /** Slot `n + j` of the array holds page `m + j`, from `k` below to `f` above. */
  ghost predicate Run(mc: seq<int>, n: nat, m: nat, k: nat, f: nat) {
    |mc| == 2 * n && k + f < n && forall x :: n - k <= x <= n + f ==> mc[x] == m + x - n
  }

  lemma FirstBackIs(pages: Pages, m: nat, n: nat, k: nat)
    requires n > 0 && k <= Back(pages, m) && k < n
    requires k == Back(pages, m) || k == n - 1 || (k > 0 && Boundary(m, k, n))
    requires forall j :: 0 < j < k ==> !Boundary(m, j, n)
    ensures k == FirstBack(pages, m, n)
  {
    hide Back;
    var a := m % n;
    if 0 < a < k {
      BoundaryIs(m, a, n);
    }
    if k > 0 {
      BoundaryIs(m, k, n);
    }
  }

  lemma RunFits(mc: seq<int>, n: nat, m: nat, k: nat, f: nat)
    requires Run(mc, n, m, k, f)
    ensures |mc| == 2 * n && k + f < n
  {
  }

  lemma RunDown(mc: seq<int>, n: nat, m: nat, k: nat, f: nat)
    requires Run(mc, n, m, k, f) && k + f + 1 < n
    ensures Run(mc[n - k - 1 := m - k - 1], n, m, k + 1, f)
  {
  }

  lemma RunUp(mc: seq<int>, n: nat, m: nat, k: nat, f: nat)
    requires Run(mc, n, m, k, f) && k + f + 1 < n
    ensures Run(mc[n + f + 1 := m + f + 1], n, m, k, f + 1)
  {
  }

  class Object {
    var pages: Pages
    const size: nat

    constructor (pages: Pages, size: nat)
      ensures this.pages == pages && this.size == size
    {
      this.pages, this.size := pages, size;
    }

    /** The tests one page goes through; the dirty bits are refreshed on the way. */
    method Grab(p: int) returns (ok: bool)
      modifies this`pages
      ensures ok <==> Eligible(old(pages), p)
      ensures SameEligible(old(pages), pages)
    {
      if p < 0 || p !in pages || pages[p].busied {
        return false;
      }
      pages := pages[p := pages[p].(dirty := pages[p].dirty || pages[p].modified)];
      if !pages[p].dirty {
        return false;
      }
      return pages[p].inLaundry && pages[p].hold == 0;
    }

    /** The reverse scan: down to a boundary, to a full cluster, or to the first page that cannot go. */
    method Reverse(m: nat, n: nat, mc: array<int>, ghost k: nat, ghost f: nat, back: nat, base: nat, count: nat)
      returns (back': nat, base': nat, count': nat, ghost k': nat)
      requires n > 0 && Run(mc[..], n, m, k, f) && base == n - k && count == 1 + k + f
      requires k <= Back(pages, m) && if back == 0 then k == Back(pages, m) else back == k + 1
      modifies this`pages, mc
      ensures SameEligible(old(pages), pages)
      ensures Run(mc[..], n, m, k', f) && base' == n - k' && count' == 1 + k' + f <= n
      ensures k <= k' <= Back(old(pages), m)
      ensures back' == 0 ==> k' == Back(old(pages), m)
      ensures back' != 0 ==> back' == k' + 1 && (count' == n || (k' > k && Boundary(m, k', n)))
      ensures forall j :: k < j < k' ==> !Boundary(m, j, n)
    {
      hide Back, Run, Eligible, Boundary;
      ghost var was := pages;
      back', base', count', k' := back, base, count, k;
      RunFits(mc[..], n, m, k, f);
      while back' != 0 && count' < n
        invariant SameEligible(was, pages)
        invariant mc.Length == 2 * n && k' + f < n && Run(mc[..], n, m, k', f) && base' == n - k'
                  && count' == 1 + k' + f
        invariant k <= k' <= Back(was, m)
        invariant if back' == 0 then k' == Back(was, m) else back' == k' + 1
        invariant forall j :: k < j <= k' ==> !Boundary(m, j, n)
        decreases back' != 0, n - count'
      {
        if back' > m {
          back' := 0;
          break;
        }
        BackAt(was, m, k');
        var p := m - back';
        var ok := Grab(p);
        if !ok {
          back' := 0;
          break;
        }
        RunDown(mc[..], n, m, k', f);
        base' := base' - 1;
        mc[base'] := p;
        count' := count' + 1;
        back' := back' + 1;
        k' := k' + 1;
        if Boundary(m, back' - 1, n) {
          break;
        }
      }
    }

    /** The forward scan: to a full cluster, the object's end, or the first page that cannot go. */
    method Forward(m: nat, n: nat, mc: array<int>, ghost k: nat, ahead: nat, base: nat, count: nat)
        returns (ahead': nat, count': nat)
      requires n > 0 && 0 < ahead && Run(mc[..], n, m, k, ahead - 1) && base == n - k && count == k + ahead
      requires ahead - 1 <= Ahead(pages, size, m)
      modifies this`pages, mc
      ensures SameEligible(old(pages), pages)
      ensures 0 < ahead' && Run(mc[..], n, m, k, ahead' - 1) && count' == k + ahead' <= n
      ensures ahead' - 1 == Min(Ahead(old(pages), size, m), n - 1 - k)
    {
      hide Ahead, Run, Eligible;
      ghost var was := pages;
      ahead', count' := ahead, count;
      RunFits(mc[..], n, m, k, ahead - 1);
      while count' < n && m + ahead' < size
        invariant SameEligible(was, pages)
        invariant mc.Length == 2 * n && count' <= n && 0 < ahead' && Run(mc[..], n, m, k, ahead' - 1)
                  && count' == k + ahead'
        invariant ahead' - 1 <= Ahead(was, size, m)
      {
        AheadAt(was, size, m, ahead' - 1);
        var p := m + ahead';
        var ok := Grab(p);
        if !ok {
          return;
        }
        RunUp(mc[..], n, m, k, ahead' - 1);
        mc[base + count'] := p;
        count' := count' + 1;
        ahead' := ahead' + 1;
      }
      AheadAt(was, size, m, ahead' - 1);
    }

    /**
     vm_pageout_cluster, up to the flush: the pages `mc[base..base + count]`, in index order and
     the given one among them.
     */
    method Gather(m: nat, n: nat) returns (mc: array<int>, base: nat, count: nat)
      requires n > 0
      modifies this`pages
      ensures fresh(mc) && SameEligible(old(pages), pages)
      ensures var down, up := DownTo(old(pages), size, m, n), UpTo(old(pages), size, m, n);
              && base == n - down && count == 1 + down + up <= n && base + count <= mc.Length == 2 * n
              && (forall x :: base <= x < base + count ==> mc[x] == m + x - n)
    {
      hide Back, Ahead, Run, Eligible, FirstBack, SameEligible, Boundary;
      ghost var was := pages;
      mc := new int[2 * n](_ => -1);
      mc[n] := m;
      count, base := 1, n;
      var back: nat, ahead: nat := 1, 1;
      ghost var k: nat := 0;
      OneRun(mc[..], n, m);
      SameSelf(was);
      back, base, count, k := Reverse(m, n, mc, k, 0, back, base, count);
      FirstBackIs(was, m, n, k);
      SameLengths(was, pages, size, m);
      ghost var middle := pages;
      ahead, count := Forward(m, n, mc, k, ahead, base, count);
      SameThrough(was, middle, pages);
      ghost var up := ahead - 1;
      while back != 0 && count < n
        invariant SameEligible(was, pages)
        invariant Run(mc[..], n, m, k, up) && base == n - k && count == 1 + k + up && ahead == up + 1
        invariant up == UpTo(was, size, m, n) && k <= Back(was, m)
        invariant if back == 0 then k == Back(was, m) else back == k + 1
        invariant count < n ==> up == Ahead(was, size, m)
        decreases back != 0, n - count
      {
        SameLengths(was, pages, size, m);
        ghost var between := pages;
        back, base, count, k := Reverse(m, n, mc, k, up, back, base, count);
        SameThrough(was, between, pages);
        SameLengths(was, pages, size, m);
        between := pages;
        ahead, count := Forward(m, n, mc, k, ahead, base, count);
        SameThrough(was, between, pages);
      }
      RunSlots(mc[..], n, m, k, up);
    }
  }

  lemma SameSelf(a: Pages)
    ensures SameEligible(a, a)
  {
  }

  lemma SameThrough(a: Pages, b: Pages, c: Pages)
    requires SameEligible(a, b) && SameEligible(b, c)
    ensures SameEligible(a, c)
  {
    hide Eligible;
  }

  lemma OneRun(mc: seq<int>, n: nat, m: nat)
    requires |mc| == 2 * n && n > 0 && mc[n] == m
    ensures Run(mc, n, m, 0, 0)
  {
  }

  lemma RunSlots(mc: seq<int>, n: nat, m: nat, k: nat, f: nat)
    requires Run(mc, n, m, k, f)
    ensures |mc| == 2 * n && k + f < n && forall x :: n - k <= x < n + f + 1 ==> mc[x] == m + x - n
  {
  }

  /** Refreshed dirty bits change no count. */
  lemma {:induction false} SameBack(a: Pages, b: Pages, m: nat)
    requires SameEligible(a, b)
    ensures Back(a, m) == Back(b, m)
  {
    if Eligible(a, m - 1) {
      SameBack(a, b, m - 1);
    }
  }

  lemma {:induction false} SameAhead(a: Pages, b: Pages, size: nat, m: nat)
    requires SameEligible(a, b)
    ensures Ahead(a, size, m) == Ahead(b, size, m)
    decreases size - m
  {
    if m + 1 < size && Eligible(a, m + 1) {
      SameAhead(a, b, size, m + 1);
    }
  }

  lemma SameLengths(a: Pages, b: Pages, size: nat, m: nat)
    requires SameEligible(a, b)
    ensures Back(a, m) == Back(b, m) && Ahead(a, size, m) == Ahead(b, size, m)
  {
    hide SameEligible, Back, Ahead;
    SameBack(a, b, m);
    SameAhead(a, b, size, m);
  }

  // ----- what the cluster is -----

  /** What keeps index `i` out: no page, or one that is busy, clean, held or not in the laundry. */
  predicate Barred(pages: Pages, i: int) {
    || i < 0 || i !in pages || pages[i].busied || (!pages[i].dirty && !pages[i].modified)
    || pages[i].hold > 0 || !pages[i].inLaundry
  }

  lemma BarredIff(pages: Pages, i: int)
    ensures Barred(pages, i) <==> !Eligible(pages, i)
  {
  }

  /** Every page gathered around the given one could go. */
  lemma GatheredAreEligible(pages: Pages, size: nat, m: nat, n: nat, i: nat)
    requires n > 0
    requires m - DownTo(pages, size, m, n) <= i <= m + UpTo(pages, size, m, n) && i != m
    ensures i in pages && !pages[i].busied && (pages[i].dirty || pages[i].modified)
    ensures pages[i].inLaundry && pages[i].hold == 0 && (i > m ==> i < size)
  {
    var back, ahead := Back(pages, m), Ahead(pages, size, m);
    assert m - back <= i <= m + ahead;
    assert Eligible(pages, i);
  }

  /** A cluster that is not full could not have grown either way. */
  lemma ShortIsMaximal(pages: Pages, size: nat, m: nat, n: nat)
    requires n > 0 && 1 + DownTo(pages, size, m, n) + UpTo(pages, size, m, n) < n
    ensures Barred(pages, m - DownTo(pages, size, m, n) - 1)
    ensures m + UpTo(pages, size, m, n) + 1 >= size || Barred(pages, m + UpTo(pages, size, m, n) + 1)
  {
    hide Eligible, Barred;
    BarredIff(pages, m - DownTo(pages, size, m, n) - 1);
    BarredIff(pages, m + UpTo(pages, size, m, n) + 1);
  }

  /** A cluster is the given page alone exactly when neither neighbour can go, or one page is a cluster. */
  lemma AloneIff(pages: Pages, size: nat, m: nat, n: nat)
    requires n > 1
    ensures DownTo(pages, size, m, n) + UpTo(pages, size, m, n) == 0
       <==> Barred(pages, m - 1) && (m + 1 >= size || Barred(pages, m + 1))
  {
    hide Eligible, Barred;
    BarredIff(pages, m - 1);
    BarredIff(pages, m + 1);
    BackAt(pages, m, 0);
    AheadAt(pages, size, m, 0);
  }

  /**
   Alignment: if the pages down to the boundary can all go and enough pages above can, the
   cluster starts on the boundary.
   */
  lemma FullIsAligned(pages: Pages, size: nat, m: nat, n: nat)
    requires n > 0 && 0 < m % n <= Back(pages, m) && Ahead(pages, size, m) >= n - 1 - m % n
    ensures DownTo(pages, size, m, n) == m % n && (m - DownTo(pages, size, m, n)) % n == 0
    ensures 1 + DownTo(pages, size, m, n) + UpTo(pages, size, m, n) == n
  {
    hide Back, Ahead;
    BoundaryIs(m, m % n, n);
  }
}
