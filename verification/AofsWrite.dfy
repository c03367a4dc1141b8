/**
 Writing to a file, as changes to the disk value: what each turn of the write loop keeps,
 and what the whole write amounts to.
 */
module AofsWrite {
  import opened Prelude
  import opened AofsDisk

  /** The number of blocks that `n` bytes need. */
  function BlocksFor(n: nat): nat { (n + BLOCK_DATA - 1) / BLOCK_DATA }

  ghost function ChainOf(files: Files, f: string): seq<int> {
    if f in files then files[f] else []
  }

  /** Where a write at `offset` starts: no further than the end of the file. */
  ghost function WriteStart(d: Disk, files: Files, f: string, offset: nat): nat
    requires Holds(d, files)
  {
    if f in files then Min(offset, FileSize(d, files[f])) else 0
  }

  /** The length of the chain after writing `size` bytes at `start` of a chain of `len` blocks. */
  function NewLength(len: nat, start: nat, size: nat): nat {
    if size == 0 then Max(1, len) else Max(Max(1, len), BlocksFor(start + size))
  }

  /**
   The start lies in the chain, and there is room for the new blocks: without either the source
   goes on with block number -1.
   */
  ghost predicate MayWrite(d: Disk, files: Files, f: string, size: nat, offset: nat)
    requires Holds(d, files)
  {
    var len, start := |ChainOf(files, f)|, WriteStart(d, files, f, offset);
    && (size > 0 ==> start <= Max(1, len) * BLOCK_DATA)
    && |FreeBlocks(d)| >= NewLength(len, start, size) - len
  }

  /**
   A write is a splice: the bytes of the chain, extended by zeroed blocks as far as needed,
   with `buf` at `start`.  The old blocks stay first in the chain, exactly the blocks added
   to it are no longer free, and no other file changes.
   */
  ghost predicate WriteResult(d: Disk, files: Files, d': Disk, files': Files, f: string, buf: seq<Byte>, offset: nat)
    requires Holds(d, files) && Holds(d', files')
  {
    var c, start := ChainOf(files, f), WriteStart(d, files, f, offset);
    && f in files' && c <= files'[f]
    && |files'[f]| == NewLength(|c|, start, |buf|)
    && FileSize(d', files'[f]) == start + |buf|
    && (buf == [] || start + |buf| <= |files'[f]| * BLOCK_DATA)
    && Content(d', files'[f]) == Splice(Content(d, c) + Zeros((|files'[f]| - |c|) * BLOCK_DATA), start, buf)
    && Set(files'[f][|c|..]) <= FreeBlocks(d)
    && FreeBlocks(d') == FreeBlocks(d) - Set(files'[f][|c|..])
    && OthersKept(d, files, d', files', f)
  }

  /** The write loop so far: `d` was the disk before it, `cc` is the chain now, with fresh blocks at its end. */
  ghost predicate WritingLinks(d: Disk, f: string, c: seq<int>, d': Disk, cc: seq<int>)
    requires Shaped(d) && Shaped(d')
  {
    && Linked(d, f, c) && Linked(d', f, cc) && c <= cc
    && SameOutside(d, d', Set(cc))
    && (forall i :: |c| <= i < |cc| ==> !d.used[cc[i]])
  }

  /** ... the first `written` bytes are in place, and the new size is recorded ... */
  ghost predicate WritingBytes(d: Disk, c: seq<int>, start: nat, buf: seq<Byte>, d': Disk, cc: seq<int>, written: nat)
    requires Shaped(d) && Shaped(d') && InRange(c) && InRange(cc) && 0 < |cc| && |c| <= |cc|
  {
    && written <= |buf| && (buf == [] || start + written <= |cc| * BLOCK_DATA)
    && Content(d', cc) == Splice(Content(d, c) + Zeros((|cc| - |c|) * BLOCK_DATA), start, buf[..written])
    && FileSize(d', cc) == start + |buf|
  }

  /** ... and only the fresh blocks were taken from the free ones. */
  ghost predicate WritingSpace(d: Disk, c: seq<int>, d': Disk, cc: seq<int>)
    requires Shaped(d) && Shaped(d') && |c| <= |cc|
  {
    && FreeBlocks(d') == FreeBlocks(d) - Set(cc[|c|..])
    && |FreeBlocks(d')| == |FreeBlocks(d)| - (|cc| - |c|)
  }

  ghost predicate Writing(d: Disk, f: string, c: seq<int>, start: nat, buf: seq<Byte>, d': Disk, cc: seq<int>,
                          written: nat)
    requires Shaped(d) && Shaped(d')
  {
    WritingLinks(d, f, c, d', cc) && WritingBytes(d, c, start, buf, d', cc, written) && WritingSpace(d, c, d', cc)
  }

  /** Recording the new size starts the loop. */
  lemma WriteBegin(d: Disk, f: string, c: seq<int>, start: nat, buf: seq<Byte>)
    requires Shaped(d) && Linked(d, f, c) && (buf == [] || start <= |c| * BLOCK_DATA)
    ensures var d' := Written(d, c[0], d.blocks[c[0]].(size := |buf| + start));
            Writing(d, f, c, start, buf, d', c, 0)
  {
    var d' := Written(d, c[0], d.blocks[c[0]].(size := |buf| + start));
    LinkedRewrite(d, f, c, 0, d.blocks[c[0]].(size := |buf| + start));
    ContentSame(d, d', c);
    assert Content(d, c) + Zeros(0) == Content(d, c);
    assert c[|c|..] == [] && Set([]) == {};
    SameUsedSameFree(d', d);
  }

  /** A block to be written back in place of block `x`: the same links and size. */
  predicate SameMeta(block: Block, x: Block) {
    block.next == x.next && block.head == x.head && block.size == x.size && |block.data| == |x.data|
  }

  lemma FillLinks(d: Disk, f: string, c: seq<int>, d': Disk, cc: seq<int>, k: nat, block: Block)
    requires Shaped(d) && Shaped(d') && WritingLinks(d, f, c, d', cc)
    requires k < |cc| && SameMeta(block, d'.blocks[cc[k]]) && (block.filename == d'.blocks[cc[k]].filename || k > 0)
    ensures BlockOk(block) && WritingLinks(d, f, c, Written(d', cc[k], block), cc)
    ensures WritingSpace(d, c, d', cc) ==> WritingSpace(d, c, Written(d', cc[k], block), cc)
  {
    var d'' := Written(d', cc[k], block);
    LinkedRewrite(d', f, cc, k, block);
    SameUsedSameFree(d'', d');
    assert cc[k] in Set(cc);
  }

  lemma FillBytes(d: Disk, c: seq<int>, start: nat, buf: seq<Byte>, d': Disk, cc: seq<int>, written: nat,
                  k: nat, o: nat, wr: nat, block: Block)
    requires Shaped(d) && Shaped(d') && InRange(c) && InRange(cc) && 0 < |cc| && |c| <= |cc|
    requires forall i, j :: 0 <= i < j < |cc| ==> cc[i] != cc[j]
    requires WritingBytes(d, c, start, buf, d', cc, written) && buf != []
    requires k < |cc| && k * BLOCK_DATA + o == start + written && o + wr <= BLOCK_DATA && written + wr <= |buf|
    requires SameMeta(block, d'.blocks[cc[k]]) && BlockOk(block)
    requires block.data == Splice(d'.blocks[cc[k]].data, o, buf[written..written + wr])
    ensures WritingBytes(d, c, start, buf, Written(d', cc[k], block), cc, written + wr)
  {
    hide Content, Splice, Zeros;
    var d'' := Written(d', cc[k], block);
    var base := Content(d, c) + Zeros((|cc| - |c|) * BLOCK_DATA);
    var p, q := buf[..written], buf[written..written + wr];
    ContentSplice(d', d'', cc, k, o, q);
    SpliceMore(base, start, p, q);
    assert p + q == buf[..written + wr];
    assert Content(d'', cc) == Splice(Splice(base, start, p), start + written, q);
  }

  /** Filling block `k` from byte `o` on writes the next bytes. */
  lemma WriteFill(d: Disk, f: string, c: seq<int>, start: nat, buf: seq<Byte>, d': Disk, cc: seq<int>, written: nat,
                  k: nat, o: nat, wr: nat, block: Block)
    requires Shaped(d) && Shaped(d') && Writing(d, f, c, start, buf, d', cc, written) && buf != []
    requires k < |cc| && k * BLOCK_DATA + o == start + written && o + wr <= BLOCK_DATA && written + wr <= |buf|
    requires SameMeta(block, d'.blocks[cc[k]]) && (block.filename == d'.blocks[cc[k]].filename || k > 0)
    requires block.data == Splice(d'.blocks[cc[k]].data, o, buf[written..written + wr])
    ensures BlockOk(block) && Writing(d, f, c, start, buf, Written(d', cc[k], block), cc, written + wr)
  {
    FillLinks(d, f, c, d', cc, k, block);
    FillBytes(d, c, start, buf, d', cc, written, k, o, wr, block);
  }

  lemma GrowLinks(d: Disk, f: string, c: seq<int>, d': Disk, cc: seq<int>, b: int, d'': Disk)
    requires Shaped(d) && Shaped(d') && WritingLinks(d, f, c, d', cc) && IsIndex(b) && !d'.used[b]
    requires d'' == Written(Allocated(d', b), cc[|cc| - 1], d'.blocks[cc[|cc| - 1]].(next := b))
    ensures WritingLinks(d, f, c, d'', cc + [b])
  {
    LinkedAppend(d', d'', f, cc, b);
    forall x | 0 <= x < BLOCK_NUM && x !in Set(cc + [b])
      ensures d''.used[x] == d.used[x] && d''.blocks[x] == d.blocks[x]
    {
      assert x !in cc && x != b;
      assert cc[|cc| - 1] in cc;
    }
    assert b !in cc;
    assert d.used[b] == d'.used[b];
  }

  lemma GrowBytes(d: Disk, c: seq<int>, start: nat, buf: seq<Byte>, d': Disk, cc: seq<int>, written: nat, b: int,
                  d'': Disk)
    requires Shaped(d) && Shaped(d') && InRange(c) && InRange(cc) && 0 < |cc| && |c| <= |cc| && IsIndex(b) && b !in cc
    requires WritingBytes(d, c, start, buf, d', cc, written)
    requires d'' == Written(Allocated(d', b), cc[|cc| - 1], d'.blocks[cc[|cc| - 1]].(next := b))
    ensures InRange(cc + [b]) && WritingBytes(d, c, start, buf, d'', cc + [b], written)
  {
    var base, pad := Content(d, c), Zeros((|cc| - |c|) * BLOCK_DATA);
    ContentSame(d', d'', cc);
    ContentAppend(d'', cc, b);
    SplicePad(base + pad, start, buf[..written], Zeros(BLOCK_DATA));
    ZerosAdd((|cc| - |c|) * BLOCK_DATA, BLOCK_DATA);
    assert base + pad + Zeros(BLOCK_DATA) == base + Zeros((|cc + [b]| - |c|) * BLOCK_DATA);
  }

  lemma SetMinusTwice(s: set<int>, t: set<int>, b: int)
    ensures s - t - {b} == s - (t + {b})
  {
  }

  lemma GrowSpace(d: Disk, c: seq<int>, d': Disk, cc: seq<int>, b: int, d'': Disk)
    requires Shaped(d) && Shaped(d') && 0 < |cc| && |c| <= |cc| && InRange(cc) && IsIndex(b) && !d'.used[b]
    requires WritingSpace(d, c, d', cc)
    requires d'' == Written(Allocated(d', b), cc[|cc| - 1], d'.blocks[cc[|cc| - 1]].(next := b))
    ensures WritingSpace(d, c, d'', cc + [b])
  {
    AllocationTakesOne(d', b);
    SameUsedSameFree(d'', Allocated(d', b));
    assert (cc + [b])[|c|..] == cc[|c|..] + [b];
    SetAppend(cc[|c|..], b);
    SetMinusTwice(FreeBlocks(d), Set(cc[|c|..]), b);
  }

  /** Linking a newly allocated block after the last one extends the chain by zeros. */
  lemma WriteGrow(d: Disk, f: string, c: seq<int>, start: nat, buf: seq<Byte>, d': Disk, cc: seq<int>, written: nat,
                  b: int)
    requires Shaped(d) && Shaped(d') && Writing(d, f, c, start, buf, d', cc, written)
    requires IsIndex(b) && !d'.used[b]
    ensures var last := cc[|cc| - 1];
            Writing(d, f, c, start, buf, Written(Allocated(d', b), last, d'.blocks[last].(next := b)),
                    cc + [b], written)
  {
    var last := cc[|cc| - 1];
    var d'' := Written(Allocated(d', b), last, d'.blocks[last].(next := b));
    GrowLinks(d, f, c, d', cc, b, d'');
    GrowBytes(d, c, start, buf, d', cc, written, b, d'');
    GrowSpace(d, c, d', cc, b, d'');
  }

  /** On a full disk there is no room for a new file. */
  lemma NoRoomForHead(d: Disk, files: Files, f: string, size: nat, offset: nat)
    requires Holds(d, files) && f !in files && FreeBlocks(d) == {}
    ensures !MayWrite(d, files, f, size, offset)
  {
    hide Holds, FreeBlocks, NewLength;
    HeadLength(size);
  }

  lemma HeldChain(d: Disk, files: Files, f: string)
    requires Holds(d, files) && f in files
    ensures Shaped(d) && Linked(d, f, files[f]) && InRange(files[f]) && |files[f]| > 0
    ensures |files[f]| >= FileSize(d, files[f]) / BLOCK_DATA
  {
  }

  /** When every byte is written, the disk holds the file on its new chain, and the write was a splice. */
  lemma WriteEnd(d: Disk, files: Files, f: string, start: nat, offset: nat, buf: seq<Byte>, d': Disk, cc: seq<int>)
    requires Holds(d, files) && f in files && Shaped(d') && start == WriteStart(d, files, f, offset)
    requires Writing(d, f, files[f], start, buf, d', cc, |buf|)
    requires |cc| == NewLength(|files[f]|, start, |buf|)
    ensures Holds(d', files[f := cc]) && WriteResult(d, files, d', files[f := cc], f, buf, offset)
  {
    hide Holds, Content, Splice, Zeros, Linked, FreeBlocks, OthersKept, Rewrites, SameOutside, NewLength;
    var c := files[f];
    HeldChain(d, files, f);
    LinkedInRange(d', f, cc);
    NewLengthFits(|c|, FileSize(d, c), start, |buf|);
    WriteRewrites(d, files, f, d', cc);
    FileChanged(d, files, d', f, cc);
    assert buf[..|buf|] == buf;
    FreshAreFree(d, c, cc);
  }

  lemma NewLengthFits(len: nat, size: nat, start: nat, n: nat)
    requires len > 0 && len >= size / BLOCK_DATA && start <= size
    ensures NewLength(len, start, n) >= (start + n) / BLOCK_DATA
    ensures n > 0 ==> start + n <= NewLength(len, start, n) * BLOCK_DATA
  {
    if n > 0 {
      var b := BlocksFor(start + n);
      assert start + n <= b * BLOCK_DATA;
    }
  }

  lemma WriteRewrites(d: Disk, files: Files, f: string, d': Disk, cc: seq<int>)
    requires Holds(d, files) && f in files && Shaped(d')
    requires WritingLinks(d, f, files[f], d', cc)
    ensures Rewrites(d, files, d', f, cc)
  {
    hide Linked, SameOutside, OthersKept, ChainOk;
    var c := files[f];
    HeldChain(d, files, f);
    OldOrFresh(d, f, c, d', cc);
    assert Set(cc) + Set(c) == Set(cc);
  }

  lemma OldOrFresh(d: Disk, f: string, c: seq<int>, d': Disk, cc: seq<int>)
    requires Shaped(d) && Shaped(d') && WritingLinks(d, f, c, d', cc)
    ensures forall b :: b in cc ==> IsIndex(b) && (!d.used[b] || b in c)
    ensures forall b :: b in c ==> b in cc
  {
    hide SameOutside;
    forall b | b in cc ensures IsIndex(b) && (!d.used[b] || b in c) {
      var i :| 0 <= i < |cc| && cc[i] == b;
      assert i < |c| ==> c[i] == cc[i];
    }
    forall b | b in c ensures b in cc {
      var i :| 0 <= i < |c| && c[i] == b;
      assert cc[i] == b;
    }
  }

  lemma FreshAreFree(d: Disk, c: seq<int>, cc: seq<int>)
    requires Shaped(d) && InRange(cc) && |c| <= |cc| && forall i :: |c| <= i < |cc| ==> !d.used[cc[i]]
    ensures Set(cc[|c|..]) <= FreeBlocks(d)
  {
    forall b | b in cc[|c|..] ensures b in FreeBlocks(d) {
      var i :| 0 <= i < |cc[|c|..]| && cc[|c|..][i] == b;
      assert !d.used[cc[|c| + i]];
    }
  }

  lemma FilledFromEmpty(b: int, c: seq<int>, start: nat, buf: seq<Byte>, space: set<int>)
    requires [b] <= c
    ensures Zeros(BLOCK_DATA) + Zeros((|c| - 1) * BLOCK_DATA) == [] + Zeros(|c| * BLOCK_DATA)
    ensures c[0..] == c && Set(c) == {b} + Set(c[1..])
    ensures space - {b} - Set(c[1..]) == space - Set(c)
  {
    ZerosAdd(BLOCK_DATA, (|c| - 1) * BLOCK_DATA);
    assert c == [b] + c[1..];
  }

  /** Creating the file first and then writing to it is still one splice, of an empty file. */
  lemma WriteAfterCreate(d: Disk, files: Files, d1: Disk, b: int, f: string, d': Disk, files': Files, buf: seq<Byte>,
                         offset: nat)
    requires Shaped(d) && Shaped(d1) && Shaped(d')
    requires Holds(d, files) && f !in files && b in FreeBlocks(d)
    requires Holds(d1, files[f := [b]]) && Holds(d', files')
    requires OthersKept(d, files, d1, files[f := [b]], f)
    requires FreeBlocks(d1) == FreeBlocks(d) - {b} && FileSize(d1, [b]) == 0 && Content(d1, [b]) == Zeros(BLOCK_DATA)
    requires WriteResult(d1, files[f := [b]], d', files', f, buf, offset)
    ensures WriteResult(d, files, d', files', f, buf, offset)
  {
    hide OthersKept, Holds, FreeBlocks, Content, FileSize, Linked, ChainOk, Set, Kept, Shaped, BlocksFor, Splice, Zeros;
    OthersKeptTwice(d, files, d1, files[f := [b]], d', files', f);
    assert ChainOf(files[f := [b]], f) == [b] && ChainOf(files, f) == [];
    assert WriteStart(d1, files[f := [b]], f, offset) == 0;
    FilledFromEmpty(b, files'[f], 0, buf, FreeBlocks(d));
    assert Content(d, []) == [];
    assert [b] <= files'[f];
    FreeInOne(FreeBlocks(d), b, Set(files'[f][1..]));
  }

  lemma FreeInOne(free: set<int>, b: int, s: set<int>)
    requires b in free && s <= free - {b}
    ensures {b} + s <= free
  {
  }

  // ----- one turn of the loop -----

  /** The loop's variables: `k` is the place in the chain of the block in hand, `o` the offset left. */
  ghost predicate AtBlock(d': Disk, f: string, cc: seq<int>, start: nat, written: nat, k: int, o: nat, b: int,
                          block: Block)
    requires Shaped(d') && InRange(cc)
  {
    && 0 <= k < |cc| && b == cc[k] && k * BLOCK_DATA + o == start + written
    && BlockOk(block) && block.(filename := d'.blocks[b].filename) == d'.blocks[b]
    && (k == 0 ==> block == d'.blocks[b])
    && (o > BLOCK_DATA ==> written == 0)
  }

  /** Passing over a whole block: the link leads to the next block of the chain. */
  lemma TurnSeek(d: Disk, f: string, c: seq<int>, start: nat, buf: seq<Byte>, d': Disk, cc: seq<int>, written: nat,
                 k: int, o: nat, b: int, block: Block)
    requires Shaped(d) && Shaped(d') && Writing(d, f, c, start, buf, d', cc, written) && buf != []
    requires AtBlock(d', f, cc, start, written, k, o, b, block) && o > BLOCK_DATA
    ensures IsIndex(block.next)
    ensures AtBlock(d', f, cc, start, written, k + 1, o - BLOCK_DATA, block.next, d'.blocks[block.next])
  {
    assert k + 1 < |cc|;
    assert d'.blocks[cc[k]].next == cc[k + 1];
  }

  /** A start beyond the chain is sought in block after block, up to the link that ends the chain. */
  lemma TurnSeekBeyond(d': Disk, f: string, c: seq<int>, start: nat, k: int, o: nat, b: int, block: Block)
    requires Shaped(d') && InRange(c) && Linked(d', f, c) && start > |c| * BLOCK_DATA
    requires AtBlock(d', f, c, start, 0, k, o, b, block)
    ensures o > BLOCK_DATA && 0 <= k < |c| && (block.next == -1 <==> k + 1 == |c|)
    ensures block.next != -1 ==> IsIndex(block.next)
                                 && AtBlock(d', f, c, start, 0, k + 1, o - BLOCK_DATA, block.next,
                                            d'.blocks[block.next])
  {
    assert d'.blocks[c[k]].next == if k + 1 < |c| then c[k + 1] else -1;
  }

  /** What WriteToBlock makes of the block in hand. */
  ghost predicate Filled(block: Block, o: nat, buf: seq<Byte>, written: nat, wr: nat, blk: Block)
    requires BlockOk(block) && written <= |buf|
  {
    && o <= BLOCK_DATA && wr == Min(|buf| - written, BLOCK_DATA - o)
    && blk == block.(data := Splice(block.data, o, buf[written..written + wr]))
  }

  lemma TurnFill(d: Disk, f: string, c: seq<int>, start: nat, buf: seq<Byte>, d': Disk, cc: seq<int>, written: nat,
                 k: int, o: nat, b: int, block: Block, wr: nat, blk: Block)
    requires Shaped(d) && Shaped(d') && Writing(d, f, c, start, buf, d', cc, written) && written < |buf|
    requires AtBlock(d', f, cc, start, written, k, o, b, block) && Filled(block, o, buf, written, wr, blk)
    ensures BlockOk(blk) && Writing(d, f, c, start, buf, Written(d', b, blk), cc, written + wr)
    ensures blk.next == if k + 1 < |cc| then cc[k + 1] else -1
    ensures d'.used[b] && written + wr <= |buf| && Linked(d', f, cc)
    ensures written + wr < |buf| ==> (k + 1) * BLOCK_DATA == start + written + wr
    ensures written + wr == |buf| ==> k + 1 >= BlocksFor(start + |buf|)
  {
    WriteFill(d, f, c, start, buf, d', cc, written, k, o, wr, blk);
  }

  /** The next block of the chain is taken up at its beginning. */
  lemma TurnNext(d: Disk, f: string, c: seq<int>, start: nat, buf: seq<Byte>, d': Disk, cc: seq<int>, written: nat,
                 k: int, b: int, blk: Block)
    requires Shaped(d) && Shaped(d') && Linked(d', f, cc) && 0 <= k < |cc| && b == cc[k] && BlockOk(blk)
    requires k + 1 < |cc| && blk.next == cc[k + 1] && (k + 1) * BLOCK_DATA == start + written
    ensures AtBlock(Written(d', b, blk), f, cc, start, written, k + 1, 0, blk.next, d'.blocks[blk.next])
  {
  }

  /** A fresh block is linked and taken up; its name is written to the disk with its data. */
  lemma TurnGrow(d: Disk, f: string, c: seq<int>, start: nat, buf: seq<Byte>, d': Disk, cc: seq<int>, written: nat,
                 k: int, b: int, blk: Block, n: int)
    requires Shaped(d) && Shaped(d') && InRange(cc) && 0 <= k && k + 1 == |cc| && b == cc[k] && BlockOk(blk)
    requires Writing(d, f, c, start, buf, Written(d', b, blk), cc, written)
    requires (k + 1) * BLOCK_DATA == start + written && IsIndex(n) && !d'.used[n] && d'.used[b]
    ensures InRange(cc + [n])
    ensures var d'' := Written(Allocated(d', n), b, blk.(next := n));
            && Writing(d, f, c, start, buf, d'', cc + [n], written)
            && AtBlock(d'', f, cc + [n], start, written, k + 1, 0, n, Blank().(filename := f))
  {
    hide Linked, SameOutside, WritingBytes, WritingSpace;
    var d'' := Written(Allocated(d', n), b, blk.(next := n));
    WriteGrow(d, f, c, start, buf, Written(d', b, blk), cc, written, n);
    assert Written(Allocated(Written(d', b, blk), n), b, blk.(next := n)) == d'';
  }

  /** While bytes are left past the last block, one more block is not too many ... */
  lemma OneMoreBlock(len: nat, start: nat, written: nat, size: nat)
    requires written < size && len * BLOCK_DATA == start + written
    ensures len + 1 <= BlocksFor(start + size)
  {
  }

  /** ... and if there is none, there was not room for all at the beginning. */
  lemma NoRoom(d: Disk, f: string, c: seq<int>, start: nat, buf: seq<Byte>, d': Disk, cc: seq<int>, written: nat)
    requires Shaped(d) && Shaped(d') && Writing(d, f, c, start, buf, d', cc, written) && FreeBlocks(d') == {} && |c| > 0
    requires written < |buf| && |cc| * BLOCK_DATA == start + written
    ensures |FreeBlocks(d)| < NewLength(|c|, start, |buf|) - |c|
  {
    hide WritingLinks, WritingBytes, FreeBlocks, BlocksFor;
    OneMoreBlock(|cc|, start, written, |buf|);
  }

  lemma HadRoom(d: Disk, f: string, c: seq<int>, start: nat, buf: seq<Byte>, d': Disk, cc: seq<int>, written: nat)
    requires Shaped(d) && Shaped(d') && Writing(d, f, c, start, buf, d', cc, written)
    requires |cc| == NewLength(|c|, start, |buf|)
    ensures |FreeBlocks(d)| >= NewLength(|c|, start, |buf|) - |c|
  {
    hide WritingLinks, WritingBytes, FreeBlocks, NewLength;
  }

  /** A write that goes astray has not touched the other files. */
  ghost predicate OthersIntact(d: Disk, files: Files, d': Disk, f: string)
    requires Shaped(d) && Shaped(d')
  {
    forall g :: g in files && g != f ==> Kept(d, d', g, files[g])
  }

  lemma IntactSoFar(d: Disk, files: Files, f: string, d': Disk, cc: seq<int>)
    requires Holds(d, files) && f in files && Shaped(d') && WritingLinks(d, f, files[f], d', cc)
    ensures OthersIntact(d, files, d', f)
  {
    hide Holds, Kept, Rewrites, WritingLinks;
    HeldShape(d, files);
    WriteRewrites(d, files, f, d', cc);
    OthersOk(d, files, d', f, cc);
  }

  lemma WritingHas(d: Disk, f: string, c: seq<int>, start: nat, buf: seq<Byte>, d': Disk, cc: seq<int>, written: nat)
    requires Shaped(d) && Shaped(d') && Writing(d, f, c, start, buf, d', cc, written)
    ensures WritingLinks(d, f, c, d', cc)
  {
  }

  lemma NothingTouched(d: Disk, files: Files, f: string)
    requires Holds(d, files)
    ensures Shaped(d) && OthersIntact(d, files, d, f)
  {
    hide Content, Linked;
  }

  /** Only the size in the head block has changed. */
  lemma HeadTouched(d: Disk, files: Files, f: string, d': Disk, block: Block)
    requires Holds(d, files) && f in files && BlockOk(block) && d' == Written(d, files[f][0], block)
    requires SameLinks(block, d.blocks[files[f][0]])
    ensures Shaped(d') && OthersIntact(d, files, d', f)
  {
    hide Holds, Kept, SameOutside, OthersIntact;
    HeldChain(d, files, f);
    LinkedRewrite(d, f, files[f], 0, block);
    HeadLinks(d, f, files[f], d', block);
    IntactSoFar(d, files, f, d', files[f]);
  }

  predicate SameLinks(block: Block, x: Block) {
    block.next == x.next && block.head == x.head && block.filename == x.filename
  }

  lemma HeadLinks(d: Disk, f: string, c: seq<int>, d': Disk, block: Block)
    requires Shaped(d) && Linked(d, f, c) && BlockOk(block) && d' == Written(d, c[0], block) && Linked(d', f, c)
    ensures WritingLinks(d, f, c, d', c)
  {
    assert c[0] in Set(c);
  }

  /** With a chain to write to, the two conditions are on the chain and on the free blocks. */
  lemma MayWriteIs(d: Disk, files: Files, f: string, size: nat, offset: nat, start: nat)
    requires Holds(d, files) && f in files && |files[f]| > 0 && start == WriteStart(d, files, f, offset)
    ensures MayWrite(d, files, f, size, offset)
       <==> size == 0 || (start <= |files[f]| * BLOCK_DATA
                          && |FreeBlocks(d)| >= NewLength(|files[f]|, start, size) - |files[f]|)
  {
    hide Holds, FreeBlocks, BlocksFor;
  }

  lemma IntactTwice(d: Disk, files: Files, d1: Disk, files1: Files, d': Disk, f: string)
    requires Shaped(d) && Shaped(d1) && Shaped(d')
    requires OthersKept(d, files, d1, files1, f) && OthersIntact(d1, files1, d', f)
    ensures OthersIntact(d, files, d', f)
  {
    hide ChainOk, Content, FileSize;
  }

  /** Creating the file first leaves room for the rest of the write exactly when there was room for all. */
  lemma RoomKept(d: Disk, files: Files, d1: Disk, b: int, f: string, size: nat, offset: nat)
    requires Holds(d, files) && f !in files && b in FreeBlocks(d)
    requires Holds(d1, files[f := [b]]) && IsIndex(b) && FreeBlocks(d1) == FreeBlocks(d) - {b} && FileSize(d1, [b]) == 0
    ensures MayWrite(d1, files[f := [b]], f, size, offset) <==> MayWrite(d, files, f, size, offset)
  {
    hide Holds, NewLength, FileSize, FreeBlocks;
    HeldShape(d, files);
    HeadLength(size);
    LessOne(FreeBlocks(d), b);
    assert WriteStart(d1, files[f := [b]], f, offset) == 0;
  }

  /** The length the loop leaves: blocks were added only as far as needed, and far enough. */
  lemma LengthReached(len: nat, now: nat, start: nat, size: nat)
    requires 0 < len <= now && (now > len ==> now <= BlocksFor(start + size))
    requires if size == 0 then now == len else now >= BlocksFor(start + size)
    ensures now == NewLength(len, start, size)
  {
  }

  lemma HeadLength(size: nat)
    ensures NewLength(0, 0, size) == NewLength(1, 0, size) >= 1
  {
  }

  lemma LessOne(s: set<int>, b: int)
    requires b in s
    ensures |s - {b}| == |s| - 1
  {
  }

  lemma AtBlockMeans(d': Disk, f: string, cc: seq<int>, start: nat, written: nat, k: int, o: nat, b: int, block: Block)
    requires Shaped(d') && InRange(cc) && AtBlock(d', f, cc, start, written, k, o, b, block)
    ensures 0 <= k < |cc| && b == cc[k] && IsIndex(b) && BlockOk(block)
  {
  }

  lemma AtStart(d': Disk, f: string, cc: seq<int>, start: nat)
    requires Shaped(d') && InRange(cc) && |cc| > 0
    ensures AtBlock(d', f, cc, start, 0, 0, start, cc[0], d'.blocks[cc[0]])
  {
  }

  /**
   A write leaves the greater of the old size and its own end exactly when it does not end inside
   the file: else it cuts the file.
   */
  lemma WriteKeepsSizeIff(d: Disk, files: Files, d': Disk, files': Files, f: string, buf: seq<Byte>, offset: nat)
    requires Holds(d, files) && Holds(d', files') && WriteResult(d, files, d', files', f, buf, offset) && f in files
    ensures |files[f]| > 0 && IsIndex(files[f][0]) && f in files' && |files'[f]| > 0 && IsIndex(files'[f][0])
    ensures var end := WriteStart(d, files, f, offset) + |buf|;
            FileSize(d', files'[f]) == Max(FileSize(d, files[f]), end) <==> end >= FileSize(d, files[f])
  {
    hide Holds, OthersKept, Content, FreeBlocks, Set, Linked, Splice, NewLength, Zeros;
    HeldChain(d, files, f);
    HeldChain(d', files', f);
  }

  // ----- a write, by its offset -----

  /** The bytes of the chain from `at` on are `buf`; the others are the old ones, and zeros on blocks added. */
  ghost predicate PutAt(was: seq<Byte>, now: seq<Byte>, at: nat, buf: seq<Byte>) {
    && (buf != [] ==> at + |buf| <= |now| && now[at..at + |buf|] == buf)
    && |was| <= |now|
    && (forall i :: 0 <= i < |now| && !(at <= i < at + |buf|) ==> now[i] == if i < |was| then was[i] else 0)
  }

  lemma SplicePuts(was: seq<Byte>, zeros: nat, at: nat, buf: seq<Byte>)
    requires buf == [] || at + |buf| <= |was| + zeros
    ensures PutAt(was, Splice(was + Zeros(zeros), at, buf), at, buf)
  {
  }

  /** A write at an offset inside the file, or at its end, puts the bytes there and ends the file with them. */
  lemma WriteInside(d: Disk, files: Files, d': Disk, files': Files, f: string, buf: seq<Byte>, offset: nat)
    requires Holds(d, files) && Holds(d', files') && WriteResult(d, files, d', files', f, buf, offset)
    requires f in files && InRange(files[f]) && |files[f]| > 0 && offset <= FileSize(d, files[f])
    ensures f in files' && InRange(files'[f]) && |files'[f]| > 0
    ensures FileSize(d', files'[f]) == offset + |buf|
    ensures PutAt(Content(d, files[f]), Content(d', files'[f]), offset, buf)
  {
    hide Holds, Linked, OthersKept, Content, FreeBlocks, NewLength, Splice, Zeros, Set, PutAt;
    HeldShape(d, files);
    HeldChain(d', files', f);
    SplicePuts(Content(d, files[f]), (|files'[f]| - |files[f]|) * BLOCK_DATA, offset, buf);
  }

  /** A write at an offset beyond the end of the file puts the bytes at the end. */
  lemma WriteBeyond(d: Disk, files: Files, d': Disk, files': Files, f: string, buf: seq<Byte>, offset: nat)
    requires Holds(d, files) && Holds(d', files') && WriteResult(d, files, d', files', f, buf, offset)
    requires f in files && InRange(files[f]) && |files[f]| > 0 && offset > FileSize(d, files[f])
    ensures f in files' && InRange(files'[f]) && |files'[f]| > 0
    ensures FileSize(d', files'[f]) == FileSize(d, files[f]) + |buf|
    ensures PutAt(Content(d, files[f]), Content(d', files'[f]), FileSize(d, files[f]), buf)
  {
    hide Holds, Linked, OthersKept, Content, FreeBlocks, NewLength, Splice, Zeros, Set, PutAt;
    HeldShape(d, files);
    HeldChain(d', files', f);
    SplicePuts(Content(d, files[f]), (|files'[f]| - |files[f]|) * BLOCK_DATA, FileSize(d, files[f]), buf);
  }

  /** A write to a file that was not there makes one of just these bytes, whatever the offset. */
  lemma WriteNew(d: Disk, files: Files, d': Disk, files': Files, f: string, buf: seq<Byte>, offset: nat)
    requires Holds(d, files) && Holds(d', files') && WriteResult(d, files, d', files', f, buf, offset) && f !in files
    ensures f in files' && InRange(files'[f]) && |files'[f]| > 0
    ensures FileSize(d', files'[f]) == |buf| && PutAt([], Content(d', files'[f]), 0, buf)
  {
    hide Holds, Linked, OthersKept, FreeBlocks, NewLength, Splice, Zeros, Set, PutAt;
    HeldChain(d', files', f);
    SplicePuts([], |files'[f]| * BLOCK_DATA, 0, buf);
    HeldShape(d, files);
    assert Content(d, []) == [];
  }
}
