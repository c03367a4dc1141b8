/**
 Truncating a file, as changes to the disk value, and exactly when the result is what the
 design promises: a chain long enough for the size, and zeros beyond the old end.
 */
module AofsTruncate {
  import opened Prelude
  import opened AofsDisk
  import opened AofsWrite

  /** Whether truncating from `was` to `size` bytes crosses a block boundary downwards. */
  predicate Cuts(was: nat, size: nat) {
    size < was && was / BLOCK_DATA != size / BLOCK_DATA
  }

  /** What a truncate that finds the file and does not run out of blocks does to it. */
  ghost predicate TruncateResult(d: Disk, files: Files, d': Disk, files': Files, f: string, size: nat)
    requires Holds(d, files) && Holds(d', files') && f in files
  {
    var c, st := files[f], FileSize(d, files[f]);
    && f in files' && FileSize(d', files'[f]) == size
    && OthersKept(d, files, d', files', f)
    && (if Cuts(st, size) then
          var keep := size / BLOCK_DATA + 1;
          && keep <= |c| && files'[f] == c[..keep] && size <= |Content(d, c)|
          && Content(d', files'[f]) == Content(d, c)[..size] + Zeros(keep * BLOCK_DATA - size)
          && FreeBlocks(d') == FreeBlocks(d) + Set(c[keep..])
        else
          var more := if size > st then size / BLOCK_DATA - st / BLOCK_DATA else 0;
          && c <= files'[f] && |files'[f]| == |c| + more
          && Content(d', files'[f]) == Content(d, c) + Zeros(more * BLOCK_DATA)
          && Set(files'[f][|c|..]) <= FreeBlocks(d)
          && FreeBlocks(d') == FreeBlocks(d) - Set(files'[f][|c|..]))
  }

  /** What is left when the disk fills up: the file keeps its size and bytes, with every free block chained to it. */
  ghost predicate TruncateFailed(d: Disk, files: Files, d': Disk, files': Files, f: string, size: nat)
    requires Holds(d, files) && Holds(d', files') && f in files
  {
    var c, st := files[f], FileSize(d, files[f]);
    && size > st && |FreeBlocks(d)| < size / BLOCK_DATA - st / BLOCK_DATA
    && f in files' && FileSize(d', files'[f]) == st && c <= files'[f]
    && |files'[f]| == |c| + |FreeBlocks(d)| && FreeBlocks(d') == {}
    && Content(d', files'[f]) == Content(d, c) + Zeros(|FreeBlocks(d)| * BLOCK_DATA)
    && OthersKept(d, files, d', files', f)
  }

  // ----- growing -----

  /** The growing loop is a write loop that writes nothing. */
  ghost predicate Growing(d: Disk, f: string, c: seq<int>, d': Disk, cc: seq<int>)
    requires Shaped(d) && Shaped(d') && Linked(d, f, c)
  {
    Writing(d, f, c, FileSize(d, c), [], d', cc, 0)
  }

  lemma GrowBegin(d: Disk, f: string, c: seq<int>)
    requires Shaped(d) && Linked(d, f, c)
    ensures Growing(d, f, c, d, c)
  {
    assert Content(d, c) + Zeros(0) == Content(d, c);
    assert c[|c|..] == [] && Set([]) == {};
  }

  /** One more block at the end, blank but for its name. */
  lemma GrowOne(d: Disk, f: string, c: seq<int>, d': Disk, cc: seq<int>, n: int)
    requires Shaped(d) && Shaped(d') && Linked(d, f, c) && Growing(d, f, c, d', cc)
    requires IsIndex(n) && !d'.used[n]
    ensures var last := cc[|cc| - 1];
            var linked := Written(Allocated(d', n), last, d'.blocks[last].(next := n));
            Growing(d, f, c, Written(linked, n, Blank().(filename := f)), cc + [n])
  {
    var last := cc[|cc| - 1];
    var linked := Written(Allocated(d', n), last, d'.blocks[last].(next := n));
    assert d'.used[last];
    assert linked.blocks[n] == Blank();
    hide Linked, WritingLinks, WritingSpace;
    WriteGrow(d, f, c, FileSize(d, c), [], d', cc, 0, n);
    Renamed(d, f, c, linked, cc + [n], f);
  }

  lemma Renamed(d: Disk, f: string, c: seq<int>, d': Disk, cc: seq<int>, name: string)
    requires Shaped(d) && Shaped(d') && Linked(d, f, c) && Growing(d, f, c, d', cc) && |cc| > 1
    ensures var n := cc[|cc| - 1];
            Growing(d, f, c, Written(d', n, d'.blocks[n].(filename := name)), cc)
  {
    var k := |cc| - 1;
    var block := d'.blocks[cc[k]].(filename := name);
    FillLinks(d, f, c, d', cc, k, block);
    ContentSame(d', Written(d', cc[k], block), cc);
  }

  /** Growing leaves a well-formed disk even when it stops half way. */
  lemma GrowHolds(d: Disk, files: Files, f: string, d': Disk, cc: seq<int>)
    requires Holds(d, files) && f in files && Shaped(d') && Growing(d, f, files[f], d', cc)
    ensures Holds(d', files[f := cc]) && OthersKept(d, files, d', files[f := cc], f)
    ensures Rewrites(d, files, d', f, cc)
    ensures Set(cc[|files[f]|..]) <= FreeBlocks(d)
  {
    WriteRewrites(d, files, f, d', cc);
    FreshAreFree(d, files[f], cc);
    FileChanged(d, files, d', f, cc);
  }

  // ----- recording the size -----

  lemma Resized(d: Disk, files: Files, f: string, d': Disk, cc: seq<int>, size: nat)
    requires Holds(d, files) && Shaped(d') && Linked(d', f, cc) && Rewrites(d, files, d', f, cc)
    requires |cc| >= size / BLOCK_DATA
    ensures var d'' := Written(d', cc[0], d'.blocks[cc[0]].(size := size));
            && Holds(d'', files[f := cc]) && OthersKept(d, files, d'', files[f := cc], f)
            && FileSize(d'', cc) == size && Content(d'', cc) == Content(d', cc) && FreeBlocks(d'') == FreeBlocks(d')
  {
    var block := d'.blocks[cc[0]].(size := size);
    var d'' := Written(d', cc[0], block);
    LinkedRewrite(d', f, cc, 0, block);
    ContentSame(d', d'', cc);
    SameUsedSameFree(d'', d');
    assert cc[0] in Set(cc);
    assert Rewrites(d, files, d'', f, cc);
    FileChanged(d, files, d'', f, cc);
  }

  lemma KeptRewrites(d: Disk, files: Files, f: string)
    requires Holds(d, files) && f in files
    ensures Rewrites(d, files, d, f, files[f])
  {
    forall b | b in files[f] ensures IsIndex(b) {
    }
  }

  // ----- cutting -----

  /** After block `k`: the rest freed, the link cut, and block `k` zeroed from byte `o` on. */
  ghost function CutAt(d: Disk, c: seq<int>, k: nat, o: nat): (d': Disk)
    requires Shaped(d) && InRange(c) && k < |c| && o <= BLOCK_DATA
    ensures Shaped(d')
  {
    var block := d.blocks[c[k]];
    Written(Freed(d, Set(c[k + 1..])), c[k], block.(next := -1, data := Splice(block.data, o, Zeros(BLOCK_DATA - o))))
  }

  /** In a list without repetitions, a block is in the tail from `k` on exactly when its place is. */
  lemma InTail(c: seq<int>, k: nat)
    requires k <= |c| && forall i, j :: 0 <= i < j < |c| ==> c[i] != c[j]
    ensures forall i :: 0 <= i < |c| ==> (c[i] in Set(c[k..]) <==> i >= k)
    ensures forall i :: 0 <= i < |c| ==> (c[i] in c[..k] <==> i < k)
  {
    forall i | 0 <= i < |c| ensures c[i] in Set(c[k..]) <==> i >= k {
      if i >= k { assert c[i] == c[k..][i - k]; }
    }
    forall i | 0 <= i < |c| ensures c[i] in c[..k] <==> i < k {
      if i < k { assert c[i] == c[..k][i]; }
    }
  }

  lemma CutLinked(d: Disk, f: string, c: seq<int>, k: nat, o: nat)
    requires Shaped(d) && Linked(d, f, c) && k < |c| && o <= BLOCK_DATA
    ensures Linked(CutAt(d, c, k, o), f, c[..k + 1])
  {
    CutSame(d, c, k, o);
    InTail(c, k + 1);
    LinkedCut(d, CutAt(d, c, k, o), f, c, k);
  }

  lemma CutFrees(d: Disk, f: string, c: seq<int>, k: nat, o: nat)
    requires Shaped(d) && Linked(d, f, c) && k < |c| && o <= BLOCK_DATA
    ensures forall b :: b in c[..k + 1] ==> IsIndex(b) && b in c
    ensures forall b :: b in c && b !in c[..k + 1] ==> !CutAt(d, c, k, o).used[b]
    ensures SameOutside(d, CutAt(d, c, k, o), Set(c[..k + 1]) + Set(c))
  {
    var d' := CutAt(d, c, k, o);
    CutSame(d, c, k, o);
    InTail(c, k + 1);
    forall b | b in c && b !in c[..k + 1] ensures !d'.used[b] {
      var i :| 0 <= i < |c| && c[i] == b;
      assert c[i] in Set(c[k + 1..]);
    }
  }

  lemma CutRewrites(d: Disk, files: Files, f: string, k: nat, o: nat)
    requires Holds(d, files) && f in files && k < |files[f]| && o <= BLOCK_DATA
    ensures InRange(files[f]) && Rewrites(d, files, CutAt(d, files[f], k, o), f, files[f][..k + 1])
  {
    HeldChain(d, files, f);
    hide Holds, Linked, SameOutside, CutAt;
    CutFrees(d, f, files[f], k, o);
  }

  lemma CutSame(d: Disk, c: seq<int>, k: nat, o: nat)
    requires Shaped(d) && InRange(c) && k < |c| && o <= BLOCK_DATA
    ensures SameOutside(d, CutAt(d, c, k, o), Set(c[k..])) && SameOutside(d, CutAt(d, c, k, o), Set(c))
  {
    assert c[k] == c[k..][0];
    forall b | b in c[k + 1..] ensures b in c[k..] && b in c {
      var i :| 0 <= i < |c[k + 1..]| && c[k + 1..][i] == b;
      assert c[k..][i + 1] == b && c[k + 1 + i] == b;
    }
  }

  lemma CutBytes(d: Disk, f: string, c: seq<int>, k: nat, o: nat)
    requires Shaped(d) && Linked(d, f, c) && k < |c| && o <= BLOCK_DATA
    ensures var d' := CutAt(d, c, k, o);
            && k * BLOCK_DATA + o <= |Content(d, c)|
            && Content(d', c[..k + 1]) == Content(d, c)[..k * BLOCK_DATA + o] + Zeros(BLOCK_DATA - o)
  {
    var d', keep := CutAt(d, c, k, o), c[..k + 1];
    forall i | 0 <= i < k ensures d'.blocks[keep[i]].data == d.blocks[keep[i]].data {
      assert c[i] !in c[k + 1..];
    }
    ContentPrefix(d, c, k + 1);
    ContentSplice(d, d', keep, k, o, Zeros(BLOCK_DATA - o));
    var s, at := Content(d, c)[..(k + 1) * BLOCK_DATA], k * BLOCK_DATA + o;
    assert Splice(s, at, Zeros(BLOCK_DATA - o)) == s[..at] + Zeros(BLOCK_DATA - o);
    assert s[..at] == Content(d, c)[..at];
  }

  lemma CutSpace(d: Disk, c: seq<int>, k: nat, o: nat)
    requires Shaped(d) && InRange(c) && k < |c| && o <= BLOCK_DATA
    ensures FreeBlocks(CutAt(d, c, k, o)) == FreeBlocks(d) + Set(c[k + 1..])
  {
    SameUsedSameFree(CutAt(d, c, k, o), Freed(d, Set(c[k + 1..])));
    forall b | b in c[k + 1..] ensures b in AllIndices() {
      var i :| 0 <= i < |c[k + 1..]| && c[k + 1..][i] == b;
      assert IsIndex(c[k + 1 + i]);
    }
    FreedIsFree(d, Set(c[k + 1..]));
  }

  lemma FreedIsFree(d: Disk, s: set<int>)
    requires Shaped(d) && s <= AllIndices()
    ensures FreeBlocks(Freed(d, s)) == FreeBlocks(d) + s
  {
    var d' := Freed(d, s);
    forall b: int ensures b in FreeBlocks(d') <==> b in FreeBlocks(d) || b in s {
      assert IsIndex(b) ==> d'.used[b] == (b !in s && d.used[b]);
    }
  }

  // ----- the whole truncate -----

  ghost function WithSize(d: Disk, b: int, size: nat): (d': Disk)
    requires Shaped(d) && IsIndex(b)
    ensures Shaped(d')
  {
    Written(d, b, d.blocks[b].(size := size))
  }

  lemma CutResult(d: Disk, files: Files, f: string, size: nat)
    requires Holds(d, files) && f in files && Cuts(FileSize(d, files[f]), size)
    ensures var c, k := files[f], size / BLOCK_DATA;
            && InRange(c) && k < |c|
            && var d'' := WithSize(CutAt(d, c, k, size % BLOCK_DATA), c[0], size);
               Holds(d'', files[f := c[..k + 1]]) && TruncateResult(d, files, d'', files[f := c[..k + 1]], f, size)
  {
    hide Holds, OthersKept, Linked, Rewrites, CutAt, Content, FreeBlocks, Set, Zeros, Shaped, InRange, SameOutside,
         Writing, AllIndices;
    HeldChain(d, files, f);
    var c, k, o := files[f], size / BLOCK_DATA, size % BLOCK_DATA;
    assert |c| >= FileSize(d, c) / BLOCK_DATA > k;
    CutLinked(d, f, c, k, o);
    CutRewrites(d, files, f, k, o);
    CutBytes(d, f, c, k, o);
    CutSpace(d, c, k, o);
    assert c[..k + 1][0] == c[0];
    Resized(d, files, f, CutAt(d, c, k, o), c[..k + 1], size);
  }

  lemma NothingFresh(c: seq<int>)
    ensures Set(c[|c|..]) == {}
  {
    assert c[|c|..] == [];
  }

  lemma SameResult(d: Disk, files: Files, f: string, size: nat)
    requires Holds(d, files) && f in files
    requires size / BLOCK_DATA == FileSize(d, files[f]) / BLOCK_DATA
    ensures var d'' := WithSize(d, files[f][0], size);
            Holds(d'', files) && TruncateResult(d, files, d'', files, f, size)
  {
    hide Holds, OthersKept, Linked, Rewrites, CutAt, Content, FreeBlocks, Set, Zeros, Shaped, InRange, SameOutside,
         Writing, AllIndices;
    HeldChain(d, files, f);
    var c := files[f];
    assert files[f := c] == files;
    NothingFresh(c);
    KeptRewrites(d, files, f);
    Resized(d, files, f, d, c, size);
    assert Content(d, c) + Zeros(0) == Content(d, c);
  }

  lemma GrowResult(d: Disk, files: Files, f: string, size: nat, d': Disk, cc: seq<int>)
    requires Holds(d, files) && f in files && Shaped(d') && Growing(d, f, files[f], d', cc)
    requires size > FileSize(d, files[f])
    requires |cc| == |files[f]| + size / BLOCK_DATA - FileSize(d, files[f]) / BLOCK_DATA
    ensures var d'' := WithSize(d', files[f][0], size);
            Holds(d'', files[f := cc]) && TruncateResult(d, files, d'', files[f := cc], f, size)
  {
    hide Growing, Holds, OthersKept, Linked, Rewrites, CutAt, Content, FreeBlocks, Set, Zeros, Shaped, InRange,
         SameOutside, Writing, AllIndices;
    HeldChain(d, files, f);
    GrowingFacts(d, f, files[f], d', cc);
    GrowHolds(d, files, f, d', cc);
    Resized(d, files, f, d', cc, size);
  }

  lemma GrowingFacts(d: Disk, f: string, c: seq<int>, d': Disk, cc: seq<int>)
    requires Shaped(d) && Shaped(d') && Linked(d, f, c) && Growing(d, f, c, d', cc)
    ensures Linked(d', f, cc) && c <= cc && |c| > 0 && cc[0] == c[0] && InRange(c) && InRange(cc)
    ensures Content(d', cc) == Content(d, c) + Zeros((|cc| - |c|) * BLOCK_DATA)
    ensures FreeBlocks(d') == FreeBlocks(d) - Set(cc[|c|..])
    ensures |FreeBlocks(d')| == |FreeBlocks(d)| - (|cc| - |c|)
  {
  }

  lemma GrowFailed(d: Disk, files: Files, f: string, size: nat, d': Disk, cc: seq<int>)
    requires Holds(d, files) && f in files && Shaped(d') && Growing(d, f, files[f], d', cc)
    requires size > FileSize(d, files[f])
    requires |cc| < |files[f]| + size / BLOCK_DATA - FileSize(d, files[f]) / BLOCK_DATA
    requires FreeBlocks(d') == {}
    ensures Holds(d', files[f := cc]) && TruncateFailed(d, files, d', files[f := cc], f, size)
  {
    hide Growing, Holds, OthersKept, Linked, Rewrites, Content, Set, Zeros, SameOutside;
    HeldChain(d, files, f);
    GrowingFacts(d, f, files[f], d', cc);
    GrowHolds(d, files, f, d', cc);
    GrowSizes(d, f, files[f], d', cc);
  }

  lemma GrowSizes(d: Disk, f: string, c: seq<int>, d': Disk, cc: seq<int>)
    requires Shaped(d) && Shaped(d') && Linked(d, f, c) && Growing(d, f, c, d', cc)
    ensures |cc| > 0 && InRange(cc) && FileSize(d', cc) == FileSize(d, c)
  {
  }

  // ----- when the result is what the design promises -----

  /**
   After a truncate the chain is long enough for the size exactly when the truncate cut
   the chain, or the chain had a block beyond the whole blocks of the old size, or the
   new size is a whole number of blocks.
   */
  lemma TruncateFits(d: Disk, files: Files, d': Disk, files': Files, f: string, size: nat)
    requires Holds(d, files) && Holds(d', files') && f in files
    requires TruncateResult(d, files, d', files', f, size)
    ensures var c, st := files[f], FileSize(d, files[f]);
            Fits(d', files'[f]) <==> Cuts(st, size) || |c| > st / BLOCK_DATA || size % BLOCK_DATA == 0
  {
    hide Holds, OthersKept, Content, FreeBlocks, Linked, Set;
    HeldChain(d', files', f);
    HeldChain(d, files, f);
    var n := |files'[f]|;
    FitsArithmetic(n, size);
  }

  lemma FitsArithmetic(n: nat, size: nat)
    ensures size <= n * BLOCK_DATA <==> n > size / BLOCK_DATA || (n == size / BLOCK_DATA && size % BLOCK_DATA == 0)
  {
  }

  ghost predicate ZeroFrom(s: seq<Byte>, lo: nat, hi: nat) {
    forall i :: lo <= i < hi && i < |s| ==> s[i] == 0
  }

  /**
   Shrinking leaves zeros in the rest of the chain exactly when it crosses a block
   boundary, or the bytes given up in the last block were zero already.
   */
  lemma ShrinkZeroes(d: Disk, files: Files, d': Disk, files': Files, f: string, size: nat)
    requires Holds(d, files) && Holds(d', files') && f in files
    requires TruncateResult(d, files, d', files', f, size) && size < FileSize(d, files[f])
    ensures ZeroFrom(Content(d', files'[f]), size, |files'[f]| * BLOCK_DATA)
            <==> Cuts(FileSize(d, files[f]), size) || ZeroFrom(Content(d, files[f]), size, |files[f]| * BLOCK_DATA)
    ensures size <= |Content(d', files'[f])| && size <= |Content(d, files[f])|
            ==> Content(d', files'[f])[..size] == Content(d, files[f])[..size]
  {
    hide Holds, OthersKept, Content, FreeBlocks, Linked, Set;
    HeldChain(d, files, f);
    HeldChain(d', files', f);
    var before, after := Content(d, files[f]), Content(d', files'[f]);
    if !Cuts(FileSize(d, files[f]), size) {
      assert after == before;
    }
  }

  /**
   After growing, the bytes between the old and the new size read as zeros exactly when
   the bytes of the old chain beyond the old size did: stale bytes come back.
   */
  lemma GrowPads(d: Disk, files: Files, d': Disk, files': Files, f: string, size: nat)
    requires Holds(d, files) && Holds(d', files') && f in files
    requires TruncateResult(d, files, d', files', f, size) && size > FileSize(d, files[f])
    ensures ZeroFrom(Content(d', files'[f]), FileSize(d, files[f]), size)
            <==> ZeroFrom(Content(d, files[f]), FileSize(d, files[f]), size)
    ensures Content(d, files[f]) <= Content(d', files'[f])
  {
    hide Holds, OthersKept, Content, FreeBlocks, Linked, Set;
    HeldChain(d, files, f);
    HeldChain(d', files', f);
    var st, before, after := FileSize(d, files[f]), Content(d, files[f]), Content(d', files'[f]);
    forall i | st <= i < size && i < |before| ensures after[i] == before[i] {
    }
    forall i | |before| <= i < |after| ensures after[i] == 0 {
    }
  }
}
