/**
 The AOFS disk image: the bitmap of the superblock and the array of blocks, changed in
 place by the file operations.  `files` is the abstract state, which files there are and
 on which blocks; `Holds` ties it to what is on the disk.
 */
module Aofs {
  import opened Prelude
  import opened AofsDisk
  import opened AofsBitmap
  import opened AofsRead
  import opened AofsTruncate
  import opened AofsWrite
  import Words

  const ENOENT := 2

  class Image {
    const bits: array<Byte>
    const blocks: array<Block>
    ghost var files: Files

    ghost predicate Ready()
      reads blocks
    {
      && bits.Length == BITMAP_SIZE && blocks.Length == BLOCK_NUM
      && forall b :: 0 <= b < BLOCK_NUM ==> BlockOk(blocks[b])
    }

    ghost function Value(): (d: Disk)
      reads bits, blocks
      requires Ready()
      ensures Shaped(d) && d.blocks == blocks[..]
    {
      Disk(UsedBits(bits[..]), blocks[..])
    }

    ghost predicate Valid()
      reads this, bits, blocks
    {
      Ready() && Holds(Value(), files)
    }

    /** init_fs: an empty bitmap and blank blocks. */
    constructor ()
      ensures Valid() && files == map[]
      ensures fresh(bits) && fresh(blocks)
      ensures FreeBlocks(Value()) == AllIndices()
    {
      bits := new Byte[BITMAP_SIZE];
      blocks := new Block[BLOCK_NUM](_ => Blank());
      files := map[];
      new;
      for i := 0 to BITMAP_SIZE
        invariant forall j :: 0 <= j < i ==> bits[j] == 0
        invariant forall b :: 0 <= b < BLOCK_NUM ==> blocks[b] == Blank()
        invariant files == map[]
      {
        bits[i] := 0;
      }
      for i := 0 to BLOCK_NUM
        invariant forall j :: 0 <= j < BITMAP_SIZE ==> bits[j] == 0
        invariant forall b :: 0 <= b < BLOCK_NUM ==> blocks[b] == Blank()
        invariant files == map[]
      {
        blocks[i] := Blank();
      }
      ghost var d := Value();
      forall b | 0 <= b < BLOCK_NUM ensures !d.used[b] {
        Words.ZeroBits(b % 8);
      }
      EmptyDisk(d);
    }

    // ----- whole-record access -----

    method ReadBlock(b: int) returns (block: Block)
      requires Ready() && IsIndex(b)
      ensures block == Value().blocks[b]
    {
      block := blocks[b];
    }

    method WriteBlock(b: int, block: Block)
      requires Ready() && IsIndex(b) && BlockOk(block)
      modifies blocks
      ensures Ready() && Value() == Written(old(Value()), b, block)
    {
      blocks[b] := block;
    }

    method ReadSuperBlock() returns (copy: array<Byte>)
      requires Ready()
      ensures fresh(copy) && copy[..] == bits[..]
    {
      copy := new Byte[BITMAP_SIZE];
      for i := 0 to BITMAP_SIZE
        invariant copy[..i] == bits[..i]
      {
        copy[i] := bits[i];
      }
    }

    method WriteSuperBlock(copy: array<Byte>)
      requires Ready() && copy.Length == BITMAP_SIZE && copy != bits
      modifies bits
      ensures Ready() && bits[..] == copy[..]
      ensures blocks[..] == old(blocks[..])
    {
      for i := 0 to BITMAP_SIZE
        invariant bits[..i] == copy[..i] && copy[..] == old(copy[..])
        invariant blocks[..] == old(blocks[..])
      {
        bits[i] := copy[i];
      }
    }

    // ----- allocation -----

    /** Takes the first free block, marks it used and blanks it; -1 when the disk is full. */
    method AllocateBlock() returns (n: int)
      requires Ready()
      modifies bits, blocks
      ensures Ready()
      ensures n == -1 <==> forall b :: 0 <= b < BLOCK_NUM ==> old(Value()).used[b]
      ensures n == -1 ==> Value() == old(Value())
      ensures n != -1 ==> IsIndex(n) && !old(Value()).used[n] && (forall b :: 0 <= b < n ==> old(Value()).used[b])
                          && Value() == Allocated(old(Value()), n)
      ensures n != -1 ==> Value().used == old(Value()).used[n := true]
                          && Value().blocks == old(Value()).blocks[n := Blank()]
    {
      ghost var d := Value();
      var bitmap := ReadSuperBlock();
      assert Value() == d;
      n := FindFreeBit(bitmap, BLOCK_NUM);
      if n == -1 {
        forall b | 0 <= b < BLOCK_NUM ensures d.used[b] {
          assert BitAt(bitmap[..], b);
        }
        return;
      }
      var r := SetBit(bitmap, n);
      WriteSuperBlock(bitmap);
      assert Value().used == d.used[n := true];
      WriteBlock(n, Blank());
    }

    /** Frees and blanks a block and returns its link; a negative number is handed back. */
    method DeallocateBlock(b: int) returns (next: int)
      requires Ready() && b < BLOCK_NUM
      modifies bits, blocks
      ensures Ready()
      ensures b < 0 ==> next == b && Value() == old(Value())
      ensures b >= 0 ==> next == old(Value()).blocks[b].next && Value() == Freed(old(Value()), {b})
      ensures b >= 0 ==> Value().used == old(Value()).used[b := false]
                         && Value().blocks == old(Value()).blocks[b := Blank()]
    {
      if b < 0 {
        return b;
      }
      var bitmap := ReadSuperBlock();
      var r := ClearBit(bitmap, b);
      var block := ReadBlock(b);
      next := block.next;
      WriteBlock(b, Blank());
      WriteSuperBlock(bitmap);
      assert Value().used == Freed(old(Value()), {b}).used;
    }

    /**
     Frees every block met from `b` on.  It stops on any disk whose links are in range,
     even on a cyclic chain, because a freed block's link is reset.
     */
    method DeleteChain(b: int)
      requires Ready() && (b == -1 || IsIndex(b))
      modifies bits, blocks
      ensures Ready()
      ensures Value() == Freed(old(Value()), Set(Walk(old(Value()), b, {})))
    {
      ghost var d := Value();
      ghost var seen: set<int> := {};
      var idx := b;
      FreedNothing(d);
      while idx != -1
        invariant Ready() && (idx == -1 || IsIndex(idx))
        invariant Value() == Freed(d, seen) && seen <= AllIndices()
        invariant Set(Walk(d, b, {})) == seen + Set(Walk(d, idx, seen))
        decreases AllIndices() - seen, if idx == -1 then 0 else 1
      {
        ghost var at := idx;
        idx := DeallocateBlock(idx);
        FreedMore(d, seen, at);
        if at !in seen {
          seen := seen + {at};
        }
      }
    }

    // ----- files -----

    /** Looks for the head block of `name` in block order; -1 when there is no such file. */
    method FindFileHead(name: string) returns (b: int, block: Block)
      requires Valid()
      ensures b == -1 <==> name !in files
      ensures b == if name in files then files[name][0] else -1
      ensures b != -1 ==> IsIndex(b) && block == Value().blocks[b]
    {
      hide Holds;
      ghost var d := Value();
      var bitmap := ReadSuperBlock();
      block := Blank();
      for i := 0 to BLOCK_NUM
        invariant Value() == d && forall j :: 0 <= j < i ==> !IsHeadOf(d, j, name)
        invariant bitmap[..] == bits[..]
      {
        TestBitIsBit(bitmap[i / 8], i % 8);
        if TestBit(bitmap[i / 8], i % 8) {
          var found := ReadBlock(i);
          if found.head && found.filename == name {
            HeadFound(d, files, i, name);
            return i, found;
          }
        }
        assert d.used[i] == BitAt(bits[..], i);
      }
      HeadMissing(d, files, name);
      b := -1;
    }

    /**
     Creates an empty file on one block; -1 when the disk is full.  It does not look whether the
     name is taken: a second file of a name leaves a disk on which no set of files is held.
     */
    method CreateFile(name: string) returns (b: int)
      requires Valid()
      modifies this`files, bits, blocks
      ensures Ready() && (b == -1 <==> FreeBlocks(old(Value())) == {})
      ensures Valid() <==> b == -1 || name !in old(files)
      ensures b == -1 ==> Value() == old(Value()) && files == old(files)
      ensures b != -1 ==> b in FreeBlocks(old(Value())) && IsIndex(b)
                          && Value() == WithHead(old(Value()), b, name)
                          && (forall x: Files :: Holds(Value(), x) ==> name !in old(files))
      ensures b != -1 && name !in old(files) ==>
                && files == old(files)[name := [b]]
                && FreeBlocks(Value()) == FreeBlocks(old(Value())) - {b}
                && FileSize(Value(), [b]) == 0 && Content(Value(), [b]) == Zeros(BLOCK_DATA)
                && OthersKept(old(Value()), old(files), Value(), files, name)
    {
      hide Holds, WithHead, Content, OthersKept, Zeros;
      ghost var d := Value();
      b := AllocateBlock();
      if b == -1 {
        assert FreeBlocks(d) == {};
        return;
      }
      assert b in FreeBlocks(d);
      WriteBlock(b, Blank().(filename := name, head := true));
      HeadMade(d, b, name);
      if name in files {
        TwoHeads(d, files, b, name);
      } else {
        Created(d, files, b, name);
        files := files[name := [b]];
      }
    }

    /** Removes a file and frees its blocks; -ENOENT when there is no such file. */
    method DeleteFile(name: string) returns (r: int)
      requires Valid()
      modifies this`files, bits, blocks
      ensures Valid()
      ensures name !in old(files) ==> r == -ENOENT && Value() == old(Value()) && files == old(files)
      ensures name in old(files) ==>
                && r == 0 && files == old(files) - {name}
                && FreeBlocks(Value()) == FreeBlocks(old(Value())) + Set(old(files)[name])
                && OthersKept(old(Value()), old(files), Value(), files, name)
    {
      var b, block := FindFileHead(name);
      if b < 0 {
        return -ENOENT;
      }
      Deleted(Value(), files, name);
      DeleteChain(b);
      files := files - {name};
      r := 0;
    }

    /**
     Copies into one block as much of `buf` as is asked for and fits from `offset` on, and
     returns how much that was; an offset beyond the block passes it over.
     */
    static method WriteToBlock(buf: seq<Byte>, block: Block, toWrite: nat, offset: int)
        returns (wr: nat, changed: Block)
      requires BlockOk(block) && toWrite <= |buf|
      ensures offset > BLOCK_DATA ==> wr == BLOCK_DATA && changed == block
      ensures offset <= BLOCK_DATA ==>
                var o := if offset < 0 then 0 else offset;
                wr == Min(toWrite, BLOCK_DATA - o) && changed == block.(data := Splice(block.data, o, buf[..wr]))
    {
      if offset > BLOCK_DATA {
        return BLOCK_DATA, block;
      }
      var o := if offset < 0 then 0 else offset;
      wr := toWrite;
      if wr + o > BLOCK_DATA {
        wr := BLOCK_DATA - o;
      }
      changed := block.(data := block.data[..o] + buf[..wr] + block.data[o + wr..]);
      assert changed.data == Splice(block.data, o, buf[..wr]);
    }

    /** The head block of `name`, of a new file if there is none; -1 if there is no block for one. */
    method FindOrCreate(name: string) returns (b: int, block: Block)
      requires Valid()
      modifies this`files, bits, blocks
      ensures Valid() && (b == -1 <==> name !in old(files) && FreeBlocks(old(Value())) == {})
      ensures b == -1 ==> Value() == old(Value()) && files == old(files)
      ensures b != -1 ==> name in files && b == files[name][0] && block == Value().blocks[b]
      ensures name in old(files) ==> files == old(files) && Value() == old(Value())
      ensures name !in old(files) && b != -1 ==>
                && b in FreeBlocks(old(Value())) && files == old(files)[name := [b]]
                && FreeBlocks(Value()) == FreeBlocks(old(Value())) - {b}
                && FileSize(Value(), [b]) == 0 && Content(Value(), [b]) == Zeros(BLOCK_DATA)
                && OthersKept(old(Value()), old(files), Value(), files, name)
    {
      hide Holds, WithHead, Content, OthersKept, Zeros;
      b, block := FindFileHead(name);
      if b < 0 {
        b := CreateFile(name);
        if b != -1 {
          block := ReadBlock(b);
        }
      }
    }

    /**
     What follows a filled block: the next one of the chain, or a fresh one while bytes are left.
     `full` says that there is none, where the source goes on with block number -1.
     */
    method LinkNext(name: string, buf: seq<Byte>, start: nat, toWrite: nat, b: int, blk: Block, ghost d: Disk,
                    ghost c: seq<int>, ghost cc: seq<int>, ghost written: nat, ghost k: int)
        returns (full: bool, block: Block, next: Block, ghost cc': seq<int>)
      requires Ready() && Shaped(d) && InRange(c) && InRange(cc) && 0 < |c| <= |cc| && BlockOk(blk)
      requires 0 <= k < |cc| && b == cc[k] && Value().used[b] && Linked(Value(), name, cc)
      requires blk.next == if k + 1 < |cc| then cc[k + 1] else -1
      requires Writing(d, name, c, start, buf, Written(Value(), b, blk), cc, written)
      requires toWrite == |buf| - written && (toWrite > 0 ==> (k + 1) * BLOCK_DATA == start + written)
      modifies bits, blocks
      ensures Ready() && BlockOk(block) && InRange(cc') && |cc| <= |cc'|
      ensures Writing(d, name, c, start, buf, Written(Value(), b, block), cc', written)
      ensures toWrite > 0 && !full ==>
                AtBlock(Written(Value(), b, block), name, cc', start, written, k + 1, 0, block.next, next)
      ensures full ==> toWrite > 0 && cc' == cc && k + 1 == |cc| && FreeBlocks(Value()) == {}
      ensures toWrite == 0 ==> cc' == cc
      ensures |cc'| > |cc| ==> |cc'| <= BlocksFor(start + |buf|)
    {
      hide Linked, SameOutside, WritingLinks, WritingBytes, WritingSpace, Content, FreeBlocks, FileSize, BlocksFor,
           Splice,
           AtBlock;
      ghost var d' := Value();
      full, block, next, cc' := false, blk, Blank(), cc;
      if toWrite > 0 && blk.next == -1 {
        OneMoreBlock(|cc|, start, written, |buf|);
        var n := AllocateBlock();
        if n == -1 {
          NoneFree(d');
          full := true;
          return;
        }
        TurnGrow(d, name, c, start, buf, d', cc, written, k, b, blk, n);
        block := blk.(next := n);
        next := ReadBlock(n);
        next := next.(filename := name);
        cc' := cc + [n];
      } else if blk.next != -1 {
        if toWrite > 0 { TurnNext(d, name, c, start, buf, d', cc, written, k, b, blk); }
        next := ReadBlock(blk.next);
      }
    }

    /** A turn of the write loop that writes: fills the block in hand, links the next one and stores it. */
    method FillBlock(name: string, buf: seq<Byte>, rest: seq<Byte>, start: nat, o: nat, b: int, block: Block,
                     ghost d: Disk, ghost c: seq<int>, ghost cc: seq<int>, ghost written: nat, ghost k: int)
        returns (full: bool, wr: nat, nextNum: int, next: Block, ghost cc': seq<int>)
      requires Ready() && Shaped(d) && InRange(c) && InRange(cc) && 0 < |c| <= |cc|
      requires Writing(d, name, c, start, buf, Value(), cc, written) && written < |buf| && rest == buf[written..]
      requires AtBlock(Value(), name, cc, start, written, k, o, b, block) && o <= BLOCK_DATA
      modifies bits, blocks
      ensures Ready() && InRange(cc') && |cc| <= |cc'| && 0 <= wr <= |rest| && (o == BLOCK_DATA || wr > 0)
      ensures Writing(d, name, c, start, buf, Value(), cc', written + wr)
      ensures wr < |rest| && !full ==> AtBlock(Value(), name, cc', start, written + wr, k + 1, 0, nextNum, next)
      ensures full ==> wr < |rest| && |cc'| * BLOCK_DATA == start + written + wr && FreeBlocks(Value()) == {}
      ensures wr == |rest| ==> |cc'| == |cc| >= BlocksFor(start + |buf|)
      ensures |cc'| > |cc| ==> |cc'| <= BlocksFor(start + |buf|)
    {
      hide Linked, Writing, AtBlock, FreeBlocks, BlocksFor, Splice;
      ghost var d' := Value();
      AtBlockMeans(d', name, cc, start, written, k, o, b, block);
      var blk;
      wr, blk := WriteToBlock(rest, block, |rest|, o);
      assert rest[..wr] == buf[written..written + wr];
      TurnFill(d, name, c, start, buf, d', cc, written, k, o, b, block, wr, blk);
      full, blk, next, cc' := LinkNext(name, buf, start, |rest| - wr, b, blk, d, c, cc, written + wr, k);
      SameUsedSameFree(Written(Value(), b, blk), Value());
      WriteBlock(b, blk);
      nextNum := blk.next;
    }

    /**
     The loop of a write: from the head block, find the block of `start`, then fill block after
     block.  `lost` says that it came to block number -1: the start was beyond the chain, or there
     was no free block left; it stops there, where the source does not.
     */
    method WriteBlocks(name: string, buf: seq<Byte>, start: nat, head: int, headBlock: Block, ghost d: Disk,
                       ghost c: seq<int>)
        returns (lost: bool, written: nat, ghost cc: seq<int>)
      requires Ready() && Shaped(d) && Linked(d, name, c) && InRange(c) && |c| > 0 && head == c[0]
      requires headBlock == Value().blocks[head] && Linked(Value(), name, c)
      requires buf == [] || start <= |c| * BLOCK_DATA ==> Writing(d, name, c, start, buf, Value(), c, 0)
      modifies bits, blocks
      ensures Ready()
      ensures lost <==> buf != [] && (start > |c| * BLOCK_DATA || |FreeBlocks(d)| < NewLength(|c|, start, |buf|) - |c|)
      ensures !lost ==> written == |buf| && Writing(d, name, c, start, buf, Value(), cc, |buf|)
      ensures !lost ==> |cc| == NewLength(|c|, start, |buf|)
      ensures lost && start > |c| * BLOCK_DATA ==> Value() == old(Value()) && written == 0
      ensures lost && start <= |c| * BLOCK_DATA ==>
                && written < |buf| && |cc| * BLOCK_DATA == start + written && FreeBlocks(Value()) == {}
                && Writing(d, name, c, start, buf, Value(), cc, written)
    {
      hide Linked, Writing, AtBlock, FreeBlocks, BlocksFor, Splice, NewLength;
      ghost var k, was, inside := 0, Value(), buf == [] || start <= |c| * BLOCK_DATA;
      cc := c;
      var b, block := head, headBlock;
      var toWrite, rest := |buf|, buf;
      var o: nat := start;
      lost, written := false, 0;
      AtStart(Value(), name, c, start);
      while toWrite > 0
        invariant Ready() && !lost && 0 <= toWrite == |buf| - written && rest == buf[written..]
        invariant InRange(cc) && 0 < |c| <= |cc|
        invariant inside ==> Writing(d, name, c, start, buf, Value(), cc, written)
        invariant !inside ==> Value() == was && cc == c && written == 0
        invariant toWrite > 0 ==> AtBlock(Value(), name, cc, start, written, k, o, b, block)
        invariant |cc| > |c| ==> |cc| <= BlocksFor(start + |buf|)
        invariant buf == [] ==> cc == c
        invariant toWrite == 0 ==> |buf| > 0 ==> |cc| >= BlocksFor(start + |buf|)
        decreases toWrite, o
      {
        ghost var d' := Value();
        AtBlockMeans(d', name, cc, start, written, k, o, b, block);
        if !inside { TurnSeekBeyond(d', name, c, start, k, o, b, block); }
        if o > BLOCK_DATA {
          if inside { TurnSeek(d, name, c, start, buf, d', cc, written, k, o, b, block); }
          o := o - BLOCK_DATA;
          b := block.next;
          if b == -1 {
            lost := true;
            return;
          }
          block := ReadBlock(b);
          k := k + 1;
          continue;
        }
        var full, wr;
        full, wr, b, block, cc := FillBlock(name, buf, rest, start, o, b, block, d, c, cc, written, k);
        toWrite, rest, written, o := toWrite - wr, rest[wr..], written + wr, 0;
        if full {
          NoRoom(d, name, c, start, buf, Value(), cc, written);
          lost := true;
          return;
        }
        k := k + 1;
      }
      LengthReached(|c|, |cc|, start, |buf|);
      HadRoom(d, name, c, start, buf, Value(), cc, written);
    }

    /**
     Writes `buf` at `offset`, creating the file if need be; returns the number of bytes written.
     `lost` says that the write came to block number -1, up to which it has kept the other files.
     */
    method WriteFile(name: string, buf: seq<Byte>, offset: nat) returns (lost: bool, written: nat)
      requires Valid()
      modifies this`files, bits, blocks
      ensures Ready() && (lost <==> !MayWrite(old(Value()), old(files), name, |buf|, offset))
      ensures !lost ==> Valid() && written == |buf|
      ensures !lost ==> WriteResult(old(Value()), old(files), Value(), files, name, buf, offset)
      ensures lost ==> OthersIntact(old(Value()), old(files), Value(), name)
    {
      hide Linked, OthersKept, WriteResult, Holds, Content, FreeBlocks, NewLength, Set, Zeros, OthersIntact, MayWrite;
      ghost var d0, files0 := Value(), files;
      var b, block := FindOrCreate(name);
      if b == -1 {
        NoRoomForHead(d0, files0, name, |buf|, offset);
        NothingTouched(d0, files0, name);
        return true, 0;
      }
      ghost var d, files1 := Value(), files;
      HeldChain(d, files1, name);
      if name !in files0 { RoomKept(d0, files0, d, b, name, |buf|, offset); }
      lost, written := WriteFound(name, buf, offset, b, block);
      if name !in files0 {
        if lost {
          IntactTwice(d0, files0, d, files1, Value(), name);
        } else {
          WriteAfterCreate(d0, files0, d, b, name, Value(), files, buf, offset);
        }
      }
    }

    /** The write to a file whose head block has been found. */
    method WriteFound(name: string, buf: seq<Byte>, offset: nat, head: int, headBlock: Block)
        returns (lost: bool, written: nat)
      requires Valid() && name in files && head == files[name][0] && headBlock == Value().blocks[head]
      modifies this`files, bits, blocks
      ensures Ready() && (lost <==> !MayWrite(old(Value()), old(files), name, |buf|, offset))
      ensures !lost ==> Valid() && written == |buf|
      ensures !lost ==> WriteResult(old(Value()), old(files), Value(), files, name, buf, offset)
      ensures lost ==> OthersIntact(old(Value()), old(files), Value(), name)
    {
      hide Linked, Writing, WriteResult, Holds, Content, FreeBlocks, NewLength, Set, Splice, Zeros, OthersIntact;
      ghost var d, c := Value(), files[name];
      HeldChain(d, files, name);
      var start := if offset > headBlock.size then headBlock.size else offset;
      MayWriteIs(d, files, name, |buf|, offset, start);
      var block := headBlock.(size := |buf| + start);
      WriteBlock(head, block);
      ghost var d1 := Value();
      LinkedRewrite(d, name, c, 0, block);
      if buf == [] || start <= |c| * BLOCK_DATA { WriteBegin(d, name, c, start, buf); }
      ghost var cc;
      lost, written, cc := WriteBlocks(name, buf, start, head, block, d, c);
      if !lost {
        WriteEnd(d, files, name, start, offset, buf, Value(), cc);
        files := files[name := cc];
      } else if start > |c| * BLOCK_DATA {
        HeadTouched(d, files, name, d1, block);
      } else {
        WritingHas(d, name, c, start, buf, Value(), cc, written);
        IntactSoFar(d, files, name, Value(), cc);
      }
    }

    /** Truncation to fewer blocks: keeps `keep` + 1 blocks and zeroes the last of them from `o` on. */
    method ShrinkChain(name: string, head: int, headBlock: Block, keep: nat, o: nat)
      requires Valid() && name in files && head == files[name][0] && headBlock == Value().blocks[head]
      requires keep < |files[name]| && o <= BLOCK_DATA
      modifies bits, blocks
      ensures Ready() && InRange(old(files)[name])
      ensures Value() == CutAt(old(Value()), old(files)[name], keep, o)
    {
      hide Holds, CutAt, Linked, Freed, Walk, Set, Splice;
      ghost var d, c := Value(), files[name];
      HeldChain(d, files, name);
      var prev, block := head, headBlock;
      for i := 0 to keep
        invariant Ready() && Value() == d && prev == c[i] && block == d.blocks[prev]
      {
        LinkAt(d, name, c, i);
        prev := block.next;
        block := ReadBlock(block.next);
      }
      LinkAt(d, name, c, keep);
      WalkIsChain(d, name, c, keep + 1, {});
      DeleteChain(block.next);
      block := block.(next := -1, data := block.data[..o] + Zeros(BLOCK_DATA - o));
      SpliceEnd(d.blocks[prev].data, o);
      FreedElsewhere(d, name, c, keep);
      WriteBlock(prev, block);
      CutIs(d, c, keep, o);
    }

    /** Truncation to more blocks: adds `more` zeroed blocks at the end of the chain; -1 when the disk fills up. */
    method GrowChain(name: string, head: int, headBlock: Block, more: nat) returns (r: int, ghost cc: seq<int>)
      requires Valid() && name in files && head == files[name][0] && headBlock == Value().blocks[head]
      modifies bits, blocks
      ensures Ready() && (r == 0 || r == -1)
      ensures Linked(old(Value()), name, old(files)[name]) && Growing(old(Value()), name, old(files)[name], Value(), cc)
      ensures r == 0 ==> |cc| == |old(files)[name]| + more
      ensures r == -1 ==> |cc| < |old(files)[name]| + more && FreeBlocks(Value()) == {}
    {
      hide Holds, WritingLinks, WritingBytes, WritingSpace, FreeBlocks, Linked, Growing;
      ghost var d, c := Value(), files[name];
      HeldChain(d, files, name);
      var prev, block := head, headBlock;
      ghost var k := 0;
      while block.next != -1
        invariant Ready() && Value() == d && 0 <= k < |c| && prev == c[k] && block == d.blocks[prev]
        decreases |c| - k
      {
        LinkAt(d, name, c, k);
        prev := block.next;
        block := ReadBlock(prev);
        k := k + 1;
      }
      LinkAt(d, name, c, k);
      cc := c;
      GrowBegin(d, name, c);
      for i := 0 to more
        invariant Ready() && Growing(d, name, c, Value(), cc) && |cc| == |c| + i && |c| > 0 && InRange(cc)
        invariant prev == cc[|cc| - 1] && block == Value().blocks[prev]
      {
        ghost var d' := Value();
        var n := AllocateBlock();
        if n == -1 {
          NoneFree(d');
          return -1, cc;
        }
        GrowOne(d, name, c, d', cc, n);
        LastUsed(d, name, c, d', cc);
        block := block.(next := n);
        WriteBlock(prev, block);
        prev := n;
        block := ReadBlock(prev);
        block := Blank().(filename := name);
        WriteBlock(prev, block);
        cc := cc + [n];
      }
      r := 0;
    }

    /** Sets the size of a file; -ENOENT when there is none, -1 when the disk fills up while it grows. */
    method TruncateFile(name: string, size: nat) returns (r: int)
      requires Valid()
      modifies this`files, bits, blocks
      ensures Valid()
      ensures name !in old(files) ==> r == -ENOENT && Value() == old(Value()) && files == old(files)
      ensures name in old(files) ==>
                && (r == 0 || r == -1)
                && (r == 0 ==> TruncateResult(old(Value()), old(files), Value(), files, name, size))
                && (r == -1 ==> TruncateFailed(old(Value()), old(files), Value(), files, name, size))
    {
      hide Holds, Linked, OthersKept, CutAt, Growing, TruncateResult, TruncateFailed, FreeBlocks, InRange, Set;
      var head, block := FindFileHead(name);
      if head == -1 {
        return -ENOENT;
      }
      ghost var d, c, cc := Value(), files[name], files[name];
      HeldChain(d, files, name);
      var was := block.size;
      var curBlocks, newBlocks, o := was / BLOCK_DATA, size / BLOCK_DATA, size % BLOCK_DATA;
      if size < was {
        if curBlocks - newBlocks != 0 {
          CutResult(d, files, name, size);
          ShrinkChain(name, head, block, newBlocks, o);
          cc := c[..newBlocks + 1];
        } else {
          SameResult(d, files, name, size);
        }
      } else if size > was {
        if newBlocks - curBlocks != 0 {
          r, cc := GrowChain(name, head, block, newBlocks - curBlocks);
          if r == -1 {
            GrowFailed(d, files, name, size, Value(), cc);
            files := files[name := cc];
            return;
          }
          GrowResult(d, files, name, size, Value(), cc);
        } else {
          SameResult(d, files, name, size);
        }
      } else {
        SameResult(d, files, name, size);
      }
      block := ReadBlock(head);
      WriteBlock(head, block.(size := size));
      assert files[name := files[name]] == files;
      files := files[name := cc];
      r := 0;
    }

    /** memcpy into the caller's buffer. */
    static method CopyInto(buf: array<Byte>, at: nat, bytes: seq<Byte>)
      requires at + |bytes| <= buf.Length
      modifies buf
      ensures buf[..] == Splice(old(buf[..]), at, bytes)
    {
      for i := 0 to |bytes|
        invariant buf[..] == Splice(old(buf[..]), at, bytes[..i])
      {
        buf[at + i] := bytes[i];
      }
      assert bytes[..|bytes|] == bytes;
    }

    /** The copying of a read, from the block in which the range starts. */
    method CopyRange(name: string, ghost c: seq<int>, block0: Block, buf: array<Byte>, size: nat, offset: nat)
        returns (r: int)
      requires Ready() && buf != bits && Askable(|c|, offset, size) && buf.Length >= Room(|c|, offset, size)
      requires Linked(Value(), name, c) && InRange(c) && StartBlock(offset) < |c|
      requires block0 == Value().blocks[c[StartBlock(offset)]]
      modifies buf
      ensures Ready() && Value() == old(Value()) && r == BytesRead(|c|, offset, size)
      ensures buf[..] == ReadImage(Content(Value(), c), |c|, old(buf[..]), offset, size)
    {
      hide Linked, Content, Middles, BlockBytes, ReadImage, BytesRead, MoreBlocks, FirstSize, LastSize, StartBlock,
           BlockOffset, Splice, Room, Askable;
      ghost var d, was, s, len := Value(), buf[..], Content(Value(), c), |c|;
      var startBlock, blockOffset, more := StartBlock(offset), BlockOffset(offset), MoreBlocks(offset, size);
      var first, last := FirstSize(offset, size), LastSize(offset, size);
      var block := block0;
      FirstBytes(d, name, c, offset, size);
      MiddlesZero(s, len, was, offset, size);
      CopyInto(buf, 0, block.data[blockOffset..blockOffset + first]);
      r := first;

      var i := 0;
      while i < more - 1
        invariant Ready() && Value() == d && 0 <= i && startBlock + i < len && block == d.blocks[c[startBlock + i]]
        invariant i == 0 || i < more
        invariant buf[..] == Middles(s, len, was, offset, size, i) && r == first + i * BLOCK_DATA
      {
        LinkAt(d, name, c, startBlock + i);
        if block.next < 0 {
          ReadEndsEarly(s, len, was, offset, size, i);
          return;
        }
        block := ReadBlock(block.next);
        BlockBytesAt(d, name, c, startBlock + i + 1);
        MiddlesNext(s, len, was, offset, size, i + 1);
        CopyInto(buf, blockOffset + BLOCK_DATA * i, block.data);
        r := r + BLOCK_DATA;
        i := i + 1;
      }
      if more > 0 {
        LinkAt(d, name, c, startBlock + more - 1);
        if block.next < 0 {
          ReadEndsEarly(s, len, was, offset, size, more - 1);
          return;
        }
        ReadEndsInLast(s, len, was, offset, size);
        block := ReadBlock(block.next);
        BlockBytesAt(d, name, c, startBlock + more);
        CopyInto(buf, blockOffset + BLOCK_DATA * more, block.data[..last]);
        r := r + last;
      } else {
        ReadEndsInFirst(s, len, was, offset, size);
      }
    }

    /**
     Copies up to `size` bytes of a file from `offset` on into `buf` and returns how many;
     -ENOENT when there is no such file.  The disk keeps its files (only the access time,
     which is not modelled, changes).
     */
    method ReadFile(name: string, buf: array<Byte>, size: nat, offset: nat) returns (r: int)
      requires Valid() && buf != bits
      requires name in files ==> buf.Length >= Room(|files[name]|, offset, size)
      modifies blocks, buf
      ensures Valid() && Value() == old(Value()) && files == old(files)
      ensures name !in files ==> r == -ENOENT && buf[..] == old(buf[..])
      ensures name in files ==>
                && InRange(files[name]) && |files[name]| <= BLOCK_NUM && r == BytesRead(|files[name]|, offset, size)
                && buf[..] == ReadImage(Content(Value(), files[name]), |files[name]|, old(buf[..]), offset, size)
    {
      hide Holds, Linked, Content, Middles, BlockBytes, Following, MoreBlocks, MiddleCount;
      var head, block := FindFileHead(name);
      if head == -1 {
        return -ENOENT;
      }
      ghost var d, c, was := Value(), files[name], buf[..];
      HeldChain(d, files, name);
      ChainIsShort(d, name, c);
      WriteBlock(head, block);
      assert d.blocks[head := block] == d.blocks;
      var startBlock := offset / BLOCK_DATA;
      for i := 0 to startBlock
        invariant Ready() && Value() == d && buf[..] == was && i < |c| && block == d.blocks[c[i]]
      {
        LinkAt(d, name, c, i);
        if block.next < 0 {
          return 0;
        }
        block := ReadBlock(block.next);
      }
      r := CopyRange(name, c, block, buf, size, offset);
    }
  }

  /** Block `b` is in use and is the head block of a file named `name`. */
  ghost predicate IsHeadOf(d: Disk, b: int, name: string)
    requires Shaped(d) && IsIndex(b)
  {
    d.used[b] && d.blocks[b].head && d.blocks[b].filename == name
  }

  lemma HeadFound(d: Disk, files: Files, b: int, name: string)
    requires Holds(d, files) && IsIndex(b) && IsHeadOf(d, b, name)
    ensures name in files && files[name][0] == b
  {
    assert Owned(files, b);
    var g :| g in files && b in files[g];
    var i :| 0 <= i < |files[g]| && files[g][i] == b;
    assert i == 0;
  }

  lemma HeadMissing(d: Disk, files: Files, name: string)
    requires Holds(d, files) && forall b :: 0 <= b < BLOCK_NUM ==> !IsHeadOf(d, b, name)
    ensures name !in files
  {
    if name in files {
      var c := files[name];
      assert IsIndex(c[0]) && d.used[c[0]] && d.blocks[c[0]].head;
      assert IsHeadOf(d, c[0], name);
    }
  }

  /** The disk with a free block made the head of an empty file. */
  ghost function WithHead(d: Disk, b: int, name: string): (d': Disk)
    requires Shaped(d) && IsIndex(b)
    ensures Shaped(d')
  {
    Written(Allocated(d, b), b, Blank().(filename := name, head := true))
  }

  lemma HeadMade(d: Disk, b: int, name: string)
    requires Shaped(d) && IsIndex(b)
    ensures WithHead(d, b, name) == Written(Allocated(d, b), b, Blank().(filename := name, head := true))
  {
  }

  /** A disk that holds files has one head block of a name. */
  lemma OneHead(d: Disk, files: Files, a: int, b: int, name: string)
    requires Holds(d, files) && IsIndex(a) && IsIndex(b) && IsHeadOf(d, a, name) && IsHeadOf(d, b, name)
    ensures a == b
  {
    hide Holds, IsHeadOf;
    HeadFound(d, files, a, name);
    HeadFound(d, files, b, name);
  }

  /** Two head blocks of one name: no files are held by such a disk. */
  lemma TwoHeads(d: Disk, files: Files, b: int, name: string)
    requires Shaped(d) && Holds(d, files) && name in files && IsIndex(b) && !d.used[b]
    ensures forall x: Files :: !Holds(WithHead(d, b, name), x)
  {
    hide Holds;
    HeadBlock(d, files, name);
    var d', a := WithHead(d, b, name), files[name][0];
    assert a != b && IsHeadOf(d', a, name) && IsHeadOf(d', b, name);
    forall x: Files ensures !Holds(d', x) {
      if Holds(d', x) {
        OneHead(d', x, a, b, name);
      }
    }
  }

  lemma HeadBlock(d: Disk, files: Files, name: string)
    requires Holds(d, files) && name in files
    ensures Shaped(d) && |files[name]| > 0 && IsIndex(files[name][0]) && IsHeadOf(d, files[name][0], name)
  {
  }

  lemma Created(d: Disk, files: Files, b: int, name: string)
    requires Holds(d, files) && name !in files && IsIndex(b) && !d.used[b]
    ensures var d' := WithHead(d, b, name);
            && Holds(d', files[name := [b]]) && OthersKept(d, files, d', files[name := [b]], name)
            && Content(d', [b]) == Zeros(BLOCK_DATA) && FileSize(d', [b]) == 0
            && FreeBlocks(d') == FreeBlocks(d) - {b}
  {
    hide Holds, OthersKept, ChainOk, Linked, FreeBlocks;
    HeldShape(d, files);
    HeadContent(d, b, name);
    HeadRewrites(d, files, b, name);
    FileChanged(d, files, WithHead(d, b, name), name, [b]);
  }

  lemma HeadContent(d: Disk, b: int, name: string)
    requires Shaped(d) && IsIndex(b) && !d.used[b]
    ensures var d' := WithHead(d, b, name);
            && Content(d', [b]) == Zeros(BLOCK_DATA) && FileSize(d', [b]) == 0 && ChainOk(d', name, [b])
            && FreeBlocks(d') == FreeBlocks(d) - {b}
  {
    hide ChainOk, FreeBlocks;
    var d' := WithHead(d, b, name);
    AllocationTakesOne(d, b);
    SameUsedSameFree(d', Allocated(d, b));
    ContentAppend(d', [], b);
    assert [] + [b] == [b];
    assert Content(d', []) == [];
    OneBlock(d', name, b);
  }

  lemma HeadRewrites(d: Disk, files: Files, b: int, name: string)
    requires Holds(d, files) && name !in files && IsIndex(b) && !d.used[b]
    ensures Rewrites(d, files, WithHead(d, b, name), name, [b])
  {
  }

  lemma OneBlock(d: Disk, name: string, b: int)
    requires Shaped(d) && IsIndex(b) && d.used[b] && d.blocks[b] == Blank().(filename := name, head := true)
    ensures ChainOk(d, name, [b])
  {
  }

  lemma Deleted(d: Disk, files: Files, name: string)
    requires Holds(d, files) && name in files
    ensures Set(Walk(d, files[name][0], {})) == Set(files[name])
    ensures var d' := Freed(d, Set(files[name]));
            && Holds(d', files - {name}) && OthersKept(d, files, d', files - {name}, name)
            && FreeBlocks(d') == FreeBlocks(d) + Set(files[name])
  {
    hide Holds, Walk, OthersKept, FreeBlocks;
    var c := files[name];
    HeldChain(d, files, name);
    WalkIsChain(d, name, c, 0, {});
    assert c[0..] == c;
    var d' := Freed(d, Set(c));
    FileRemoved(d, files, d', name);
    FreedIsFree(d, Set(c));
  }

  lemma SpliceEnd(s: seq<Byte>, o: nat)
    requires |s| == BLOCK_DATA && o <= BLOCK_DATA
    ensures s[..o] + Zeros(BLOCK_DATA - o) == Splice(s, o, Zeros(BLOCK_DATA - o))
  {
  }

  lemma FreedElsewhere(d: Disk, f: string, c: seq<int>, k: nat)
    requires Shaped(d) && Linked(d, f, c) && k < |c|
    ensures Freed(d, Set(c[k + 1..])).blocks[c[k]] == d.blocks[c[k]]
  {
    InTail(c, k + 1);
  }

  /** A block's data are the bytes of its place in the file. */
  lemma BlockBytesAt(d: Disk, f: string, c: seq<int>, k: nat)
    requires Shaped(d) && Linked(d, f, c) && k < |c|
    ensures InRange(c) && (k + 1) * BLOCK_DATA <= |Content(d, c)|
    ensures IsIndex(c[k]) && d.blocks[c[k]].data == BlockBytes(Content(d, c), k)
  {
    forall i | 0 <= i < BLOCK_DATA ensures d.blocks[c[k]].data[i] == BlockBytes(Content(d, c), k)[i] {
      Decompose(k * BLOCK_DATA + i, k);
    }
  }

  lemma FirstBytes(d: Disk, f: string, c: seq<int>, offset: nat, size: nat)
    requires Shaped(d) && Linked(d, f, c) && StartBlock(offset) < |c|
    ensures InRange(c) && offset + FirstSize(offset, size) <= |Content(d, c)|
    ensures IsIndex(c[StartBlock(offset)]) && BlockOffset(offset) + FirstSize(offset, size) <= BLOCK_DATA
    ensures d.blocks[c[StartBlock(offset)]].data[BlockOffset(offset)..BlockOffset(offset) + FirstSize(offset, size)]
            == Content(d, c)[offset..offset + FirstSize(offset, size)]
  {
    Spans(offset, size);
    BlockBytesAt(d, f, c, StartBlock(offset));
  }

  lemma CutIs(d: Disk, c: seq<int>, k: nat, o: nat)
    requires Shaped(d) && InRange(c) && k < |c| && o <= BLOCK_DATA
    ensures var block := d.blocks[c[k]].(next := -1, data := Splice(d.blocks[c[k]].data, o, Zeros(BLOCK_DATA - o)));
            CutAt(d, c, k, o) == Written(Freed(d, Set(c[k + 1..])), c[k], block)
  {
  }

  lemma NoneFree(d: Disk)
    requires Shaped(d) && forall b :: 0 <= b < BLOCK_NUM ==> d.used[b]
    ensures FreeBlocks(d) == {}
  {
  }

  lemma LastUsed(d: Disk, f: string, c: seq<int>, d': Disk, cc: seq<int>)
    requires Shaped(d) && Shaped(d') && Linked(d, f, c) && Growing(d, f, c, d', cc)
    ensures |cc| > 0 && InRange(cc) && d'.used[cc[|cc| - 1]]
  {
  }

  lemma EmptyDisk(d: Disk)
    requires Shaped(d) && forall b :: 0 <= b < BLOCK_NUM ==> !d.used[b]
    ensures Holds(d, map[]) && FreeBlocks(d) == AllIndices()
  {
    forall b: int ensures b in AllIndices() <==> b in FreeBlocks(d) {
      assert IsIndex(b) ==> !d.used[b];
    }
  }

  lemma FreedNothing(d: Disk)
    requires Shaped(d)
    ensures Freed(d, {}) == d
  {
  }

  /** Freeing one more block, and what the walk has left after it. */
  lemma FreedMore(d: Disk, seen: set<int>, b: int)
    requires Shaped(d) && IsIndex(b) && seen <= AllIndices()
    ensures Freed(Freed(d, seen), {b}) == Freed(d, seen + {b})
    ensures b in seen ==> Freed(d, seen).blocks[b].next == -1 && seen + {b} == seen && Walk(d, b, seen) == []
    ensures b !in seen ==> Freed(d, seen).blocks[b].next == d.blocks[b].next
                           && b in AllIndices() - seen
                           && Set(Walk(d, b, seen)) == {b} + Set(Walk(d, d.blocks[b].next, seen + {b}))
  {
    assert Freed(Freed(d, seen), {b}).used == Freed(d, seen + {b}).used;
    assert Freed(Freed(d, seen), {b}).blocks == Freed(d, seen + {b}).blocks;
    if b !in seen {
      assert Walk(d, b, seen) == [b] + Walk(d, d.blocks[b].next, seen + {b});
    }
  }
}
