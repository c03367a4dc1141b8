/**
 Reading from a file.  The copy loop places each block at its own position of the caller's
 buffer; `ReadImage` is the buffer it leaves, and `ReadIsRight` says exactly for which
 ranges that buffer holds the bytes of the file in order.
 */
module AofsRead {
  import opened Prelude
  import opened AofsDisk
  import opened AofsWrite

  /** The block of the chain in which a read at `offset` starts, and the offset inside it. */
  function StartBlock(offset: nat): nat { offset / BLOCK_DATA }
  function BlockOffset(offset: nat): nat { offset % BLOCK_DATA }

  /** No bytes asked for, at the start of a block. */
  predicate IsEmpty(offset: nat, size: nat) {
    size == 0 && BlockOffset(offset) == 0
  }

  /** (2^64 - 1) / BLOCK_DATA as an int: 0 + 0 - 1 is taken in size_t. */
  const EMPTY_MORE: nat := 1_358_705_153

  lemma EmptyMore()
    ensures 0xFFFF_FFFF_FFFF_FFFF / BLOCK_DATA % 0x1_0000_0000 == EMPTY_MORE < 0x8000_0000
  {
  }

  /** The chains of an image are far too short for the blocks an empty range counts. */
  predicate Askable(len: nat, offset: nat, size: nat) {
    IsEmpty(offset, size) ==> len <= EMPTY_MORE
  }

  /** How many more blocks the range is taken to touch. */
  function MoreBlocks(offset: nat, size: nat): nat {
    if IsEmpty(offset, size) then EMPTY_MORE else (BlockOffset(offset) + size - 1) / BLOCK_DATA
  }

  function FirstSize(offset: nat, size: nat): nat {
    if MoreBlocks(offset, size) == 0 then size else BLOCK_DATA - BlockOffset(offset)
  }

  function LastSize(offset: nat, size: nat): int {
    var nb := MoreBlocks(offset, size);
    if nb == 0 then 0 else size - (FirstSize(offset, size) + (nb - 1) * BLOCK_DATA)
  }

  /** The blocks after the first that a chain of `len` blocks really has for the range. */
  function Following(len: nat, offset: nat, size: nat): nat
    requires StartBlock(offset) < len
  {
    Min(MoreBlocks(offset, size), len - 1 - StartBlock(offset))
  }

  /** The number of bytes reported: all of them, or those of the blocks there were. */
  function BytesRead(len: nat, offset: nat, size: nat): nat
  {
    if StartBlock(offset) >= len then 0
    else if Following(len, offset, size) == MoreBlocks(offset, size) then size
    else BLOCK_DATA - BlockOffset(offset) + Following(len, offset, size) * BLOCK_DATA
  }

  /** How far into the buffer the copying reaches: one more than the last place written, or 0. */
  function Room(len: nat, offset: nat, size: nat): nat
  {
    if StartBlock(offset) >= len then 0
    else
      var m, nb, bo := Following(len, offset, size), MoreBlocks(offset, size), BlockOffset(offset);
      if m == nb then (if nb == 0 then size else size + 2 * bo)
      else if m == 0 then BLOCK_DATA - bo
      else bo + m * BLOCK_DATA
  }

  lemma Spans(offset: nat, size: nat)
    ensures var nb, bo := MoreBlocks(offset, size), BlockOffset(offset);
      && bo < BLOCK_DATA && offset == StartBlock(offset) * BLOCK_DATA + bo && FirstSize(offset, size) <= BLOCK_DATA - bo
      && (nb == 0 ==> bo + size <= BLOCK_DATA)
      && (nb > 0 && !IsEmpty(offset, size)
          ==> && 1 <= LastSize(offset, size) <= BLOCK_DATA
              && bo + nb * BLOCK_DATA + LastSize(offset, size) == size + 2 * bo
              && LastSize(offset, size) == bo + size - nb * BLOCK_DATA)
  {
  }

  /**
   The copying stays within the `size` bytes the caller asked for exactly when the file ends
   before the range, or the range is not empty and lies in one block, starts on a block, or goes
   on far enough beyond the end of the chain.
   */
  lemma StaysWithinIff(len: nat, offset: nat, size: nat)
    requires Askable(len, offset, size)
    ensures Room(len, offset, size) <= size
       <==> StartBlock(offset) >= len
            || var m, nb, bo := Following(len, offset, size), MoreBlocks(offset, size), BlockOffset(offset);
               !IsEmpty(offset, size) &&
               (m == 0 || (m == nb && bo == 0) || (m < nb && bo + m * BLOCK_DATA <= size))
  {
    if StartBlock(offset) < len {
      Spans(offset, size);
    }
  }

  /**
   One block's worth of bytes read from byte 1 of a file of two blocks reaches two bytes beyond as
   many bytes of buffer.
   */
  lemma OverrunWitness()
    ensures Room(2, 1, BLOCK_DATA) == BLOCK_DATA + 2
  {
  }

  function BlockBytes(s: seq<Byte>, k: nat): (b: seq<Byte>)
    requires (k + 1) * BLOCK_DATA <= |s|
    ensures |b| == BLOCK_DATA
  {
    s[k * BLOCK_DATA..(k + 1) * BLOCK_DATA]
  }

  /** The buffer after the first block and `n` whole blocks: whole block i goes to offset + BLOCK_DATA * (i - 1). */
  function Middles(s: seq<Byte>, len: nat, buf: seq<Byte>, offset: nat, size: nat, n: nat): (b: seq<Byte>)
    requires Askable(len, offset, size) && |s| == len * BLOCK_DATA && StartBlock(offset) + n < len
    requires n == 0 || n < MoreBlocks(offset, size)
    requires |buf| >= Room(len, offset, size)
    ensures |b| == |buf|
  {
    Spans(offset, size);
    if n == 0 then
      Splice(buf, 0, s[offset..offset + FirstSize(offset, size)])
    else
      Splice(Middles(s, len, buf, offset, size, n - 1), BlockOffset(offset) + (n - 1) * BLOCK_DATA,
             BlockBytes(s, StartBlock(offset) + n))
  }

  /** The number of whole blocks copied after the first. */
  function MiddleCount(len: nat, offset: nat, size: nat): nat
    requires StartBlock(offset) < len
  {
    Min(Following(len, offset, size), Max(MoreBlocks(offset, size) - 1, 0))
  }

  /** The buffer a read leaves, given the bytes `s` of the chain. */
  function ReadImage(s: seq<Byte>, len: nat, buf: seq<Byte>, offset: nat, size: nat): (b: seq<Byte>)
    requires Askable(len, offset, size) && |s| == len * BLOCK_DATA && |buf| >= Room(len, offset, size)
    ensures |b| == |buf|
  {
    if StartBlock(offset) >= len then buf
    else
      var nb := MoreBlocks(offset, size);
      var copied := Middles(s, len, buf, offset, size, MiddleCount(len, offset, size));
      if nb > 0 && Following(len, offset, size) == nb then
        Spans(offset, size);
        Splice(copied, BlockOffset(offset) + nb * BLOCK_DATA,
               BlockBytes(s, StartBlock(offset) + nb)[..LastSize(offset, size)])
      else copied
  }

  /** The ranges whose bytes land in order: the guard a caller can check. */
  predicate ReadIsRight(len: nat, offset: nat, size: nat)
  {
    StartBlock(offset) >= len ||
    var m, nb, bo := Following(len, offset, size), MoreBlocks(offset, size), BlockOffset(offset);
    || m == 0
    || (m == 1 && nb == 1 && bo == 0)
    || (m < nb && 2 * bo == BLOCK_DATA)
  }

  /** The buffer begins with the bytes the count promises. */
  ghost predicate InOrder(s: seq<Byte>, len: nat, buf: seq<Byte>, offset: nat, size: nat)
    requires Askable(len, offset, size) && |s| == len * BLOCK_DATA && |buf| >= Room(len, offset, size)
  {
    var r := BytesRead(len, offset, size);
    r > 0 ==> r <= |buf| && offset + r <= |s| && ReadImage(s, len, buf, offset, size)[..r] == s[offset..offset + r]
  }

  /** The chain ended after `m` blocks following the first. */
  lemma ReadEndsEarly(s: seq<Byte>, len: nat, buf: seq<Byte>, offset: nat, size: nat, m: nat)
    requires Askable(len, offset, size) && |s| == len * BLOCK_DATA && |buf| >= Room(len, offset, size)
    requires StartBlock(offset) + m + 1 == len && m < MoreBlocks(offset, size)
    ensures ReadImage(s, len, buf, offset, size) == Middles(s, len, buf, offset, size, m)
    ensures BytesRead(len, offset, size) == FirstSize(offset, size) + m * BLOCK_DATA
  {
  }

  /** The whole range lay in its first block. */
  lemma ReadEndsInFirst(s: seq<Byte>, len: nat, buf: seq<Byte>, offset: nat, size: nat)
    requires Askable(len, offset, size) && |s| == len * BLOCK_DATA && |buf| >= Room(len, offset, size)
    requires MoreBlocks(offset, size) == 0 && StartBlock(offset) < len
    ensures BytesRead(len, offset, size) == size == FirstSize(offset, size)
    ensures ReadImage(s, len, buf, offset, size) == Middles(s, len, buf, offset, size, 0)
  {
  }

  /** The last block of the range was there too. */
  lemma ReadEndsInLast(s: seq<Byte>, len: nat, buf: seq<Byte>, offset: nat, size: nat)
    requires Askable(len, offset, size) && |s| == len * BLOCK_DATA && |buf| >= Room(len, offset, size)
    requires MoreBlocks(offset, size) > 0 && StartBlock(offset) + MoreBlocks(offset, size) < len
    ensures BytesRead(len, offset, size) == size
    ensures var nb := MoreBlocks(offset, size);
            && (StartBlock(offset) + nb + 1) * BLOCK_DATA <= |s| && 0 <= LastSize(offset, size) <= BLOCK_DATA
            && BlockOffset(offset) + nb * BLOCK_DATA + LastSize(offset, size) <= |buf|
            && size == FirstSize(offset, size) + (nb - 1) * BLOCK_DATA + LastSize(offset, size)
            && ReadImage(s, len, buf, offset, size)
               == Splice(Middles(s, len, buf, offset, size, nb - 1), BlockOffset(offset) + nb * BLOCK_DATA,
                         BlockBytes(s, StartBlock(offset) + nb)[..LastSize(offset, size)])
  {
    hide Middles, Splice, BlockBytes;
    Spans(offset, size);
    assert MiddleCount(len, offset, size) == MoreBlocks(offset, size) - 1;
  }

  /** The copying, piece by piece. */
  lemma MiddlesZero(s: seq<Byte>, len: nat, buf: seq<Byte>, offset: nat, size: nat)
    requires Askable(len, offset, size) && |s| == len * BLOCK_DATA && StartBlock(offset) < len
             && |buf| >= Room(len, offset, size)
    ensures offset + FirstSize(offset, size) <= |s| && FirstSize(offset, size) <= |buf|
    ensures Middles(s, len, buf, offset, size, 0) == Splice(buf, 0, s[offset..offset + FirstSize(offset, size)])
  {
    Spans(offset, size);
  }

  lemma MiddlesNext(s: seq<Byte>, len: nat, buf: seq<Byte>, offset: nat, size: nat, n: nat)
    requires Askable(len, offset, size) && |s| == len * BLOCK_DATA && StartBlock(offset) + n < len
             && 0 < n < MoreBlocks(offset, size)
    requires |buf| >= Room(len, offset, size)
    ensures BlockOffset(offset) + (n - 1) * BLOCK_DATA + BLOCK_DATA <= |buf|
            && (StartBlock(offset) + n + 1) * BLOCK_DATA <= |s|
    ensures Middles(s, len, buf, offset, size, n)
            == Splice(Middles(s, len, buf, offset, size, n - 1), BlockOffset(offset) + (n - 1) * BLOCK_DATA,
                      BlockBytes(s, StartBlock(offset) + n))
  {
    Spans(offset, size);
  }

  // ----- the ranges that are right -----

  lemma {:induction false} HalfwayMiddles(s: seq<Byte>, len: nat, buf: seq<Byte>, offset: nat, size: nat, n: nat)
    requires Askable(len, offset, size) && |s| == len * BLOCK_DATA && StartBlock(offset) + n < len
             && n < MoreBlocks(offset, size)
    requires |buf| >= Room(len, offset, size) && 2 * BlockOffset(offset) == BLOCK_DATA
    ensures var r := BlockOffset(offset) + n * BLOCK_DATA;
            r <= |buf| && offset + r <= |s| && Middles(s, len, buf, offset, size, n)[..r] == s[offset..offset + r]
    decreases n
  {
    hide Middles, Splice, Room, MoreBlocks;
    Spans(offset, size);
    if n == 0 {
      MiddlesZero(s, len, buf, offset, size);
      SplicePrefix(buf, 0, s[offset..offset + FirstSize(offset, size)]);
    } else {
      HalfwayMiddles(s, len, buf, offset, size, n - 1);
      MiddlesNext(s, len, buf, offset, size, n);
      var r := BlockOffset(offset) + (n - 1) * BLOCK_DATA;
      SplicePrefix(Middles(s, len, buf, offset, size, n - 1), r, BlockBytes(s, StartBlock(offset) + n));
      Adjoin(s, offset, offset + r, StartBlock(offset) + n);
    }
  }

  lemma Adjoin(s: seq<Byte>, lo: nat, mid: nat, k: nat)
    requires lo <= mid == k * BLOCK_DATA && mid + BLOCK_DATA <= |s|
    ensures s[lo..mid] + BlockBytes(s, k) == s[lo..mid + BLOCK_DATA]
  {
  }

  lemma SplicePrefix(b: seq<Byte>, at: nat, p: seq<Byte>)
    requires at + |p| <= |b|
    ensures Splice(b, at, p)[..at + |p|] == b[..at] + p
  {
  }

  lemma FirstInOrder(s: seq<Byte>, len: nat, buf: seq<Byte>, offset: nat, size: nat)
    requires Askable(len, offset, size) && |s| == len * BLOCK_DATA && |buf| >= Room(len, offset, size)
    requires StartBlock(offset) < len && Following(len, offset, size) == 0
    ensures InOrder(s, len, buf, offset, size)
  {
    hide Middles, ReadImage, MoreBlocks, Splice, Room;
    Spans(offset, size);
    MiddlesZero(s, len, buf, offset, size);
    if MoreBlocks(offset, size) == 0 {
      ReadEndsInFirst(s, len, buf, offset, size);
    } else {
      ReadEndsEarly(s, len, buf, offset, size, 0);
    }
    SplicePrefix(buf, 0, s[offset..offset + FirstSize(offset, size)]);
  }

  lemma AlignedInOrder(s: seq<Byte>, len: nat, buf: seq<Byte>, offset: nat, size: nat)
    requires Askable(len, offset, size) && |s| == len * BLOCK_DATA && |buf| >= Room(len, offset, size)
    requires StartBlock(offset) < len && Following(len, offset, size) == 1 == MoreBlocks(offset, size)
    requires BlockOffset(offset) == 0
    ensures InOrder(s, len, buf, offset, size)
  {
    hide Middles, ReadImage, Splice, Room, MoreBlocks;
    Spans(offset, size);
    MiddlesZero(s, len, buf, offset, size);
    ReadEndsInLast(s, len, buf, offset, size);
    var block, last := s[offset..offset + BLOCK_DATA], BlockBytes(s, StartBlock(offset) + 1)[..LastSize(offset, size)];
    SplicePrefix(buf, 0, block);
    SplicePrefix(Splice(buf, 0, block), BLOCK_DATA, last);
    assert last == s[offset + BLOCK_DATA..offset + size];
    assert block + last == s[offset..offset + size];
  }

  lemma HalfwayInOrder(s: seq<Byte>, len: nat, buf: seq<Byte>, offset: nat, size: nat)
    requires Askable(len, offset, size) && |s| == len * BLOCK_DATA && |buf| >= Room(len, offset, size)
    requires StartBlock(offset) < len && 0 < Following(len, offset, size) < MoreBlocks(offset, size)
    requires 2 * BlockOffset(offset) == BLOCK_DATA
    ensures InOrder(s, len, buf, offset, size)
  {
    hide Middles, ReadImage, Splice, Room, MoreBlocks, BlockBytes;
    var m := Following(len, offset, size);
    HalfwayMiddles(s, len, buf, offset, size, m);
    ReadEndsEarly(s, len, buf, offset, size, m);
    Spans(offset, size);
  }

  lemma RightIsInOrder(s: seq<Byte>, len: nat, buf: seq<Byte>, offset: nat, size: nat)
    requires Askable(len, offset, size) && |s| == len * BLOCK_DATA && |buf| >= Room(len, offset, size)
    requires ReadIsRight(len, offset, size)
    ensures InOrder(s, len, buf, offset, size)
  {
    hide ReadImage, Room, MoreBlocks, Askable, Splice, InOrder;
    if StartBlock(offset) >= len {
      NothingInOrder(s, len, buf, offset, size);
    } else {
      var m, nb := Following(len, offset, size), MoreBlocks(offset, size);
      if m == 0 {
        FirstInOrder(s, len, buf, offset, size);
      } else if m < nb {
        HalfwayInOrder(s, len, buf, offset, size);
      } else {
        AlignedInOrder(s, len, buf, offset, size);
      }
    }
  }

  lemma NothingInOrder(s: seq<Byte>, len: nat, buf: seq<Byte>, offset: nat, size: nat)
    requires Askable(len, offset, size) && |s| == len * BLOCK_DATA && |buf| >= Room(len, offset, size)
    requires StartBlock(offset) >= len
    ensures InOrder(s, len, buf, offset, size)
  {
  }

  // ----- the ranges that are not -----

  function Ones(n: nat): (o: seq<Byte>)
    ensures |o| == n && forall i :: 0 <= i < n ==> o[i] == 1
  {
    seq(n, _ => 1)
  }

  /** With a whole block to copy, its first byte ends up at the block offset. */
  lemma {:induction false} MiddleByte(s: seq<Byte>, len: nat, buf: seq<Byte>, offset: nat, size: nat, n: nat)
    requires Askable(len, offset, size) && |s| == len * BLOCK_DATA && StartBlock(offset) + n < len
             && 0 < n < MoreBlocks(offset, size)
    requires |buf| >= Room(len, offset, size)
    ensures BlockOffset(offset) < |buf| && (StartBlock(offset) + 1) * BLOCK_DATA < |s|
    ensures Middles(s, len, buf, offset, size, n)[BlockOffset(offset)] == s[(StartBlock(offset) + 1) * BLOCK_DATA]
    decreases n
  {
    hide Middles, Splice, Room, MoreBlocks;
    Spans(offset, size);
    MiddlesNext(s, len, buf, offset, size, n);
    var b, at := Middles(s, len, buf, offset, size, n - 1), BlockOffset(offset) + (n - 1) * BLOCK_DATA;
    if n == 1 {
      SpliceStart(b, at, BlockBytes(s, StartBlock(offset) + 1));
    } else {
      MiddleByte(s, len, buf, offset, size, n - 1);
      SpliceBefore(b, at, BlockBytes(s, StartBlock(offset) + n), BlockOffset(offset));
    }
  }

  lemma SpliceStart(b: seq<Byte>, at: nat, q: seq<Byte>)
    requires |q| > 0 && at + |q| <= |b|
    ensures Splice(b, at, q)[at] == q[0]
  {
  }

  lemma SpliceBefore(b: seq<Byte>, at: nat, q: seq<Byte>, p: nat)
    requires p < at && at + |q| <= |b|
    ensures Splice(b, at, q)[p] == b[p]
  {
  }

  /** Nothing is written between the end of the whole blocks and the place of the last one. */
  lemma {:induction false} GapByte(s: seq<Byte>, len: nat, buf: seq<Byte>, offset: nat, size: nat, n: nat, p: nat)
    requires Askable(len, offset, size) && |s| == len * BLOCK_DATA && StartBlock(offset) + n < len
    requires n == 0 || n < MoreBlocks(offset, size)
    requires |buf| >= Room(len, offset, size)
    requires FirstSize(offset, size) <= p < |buf| && (n > 0 ==> p >= BlockOffset(offset) + n * BLOCK_DATA)
    ensures Middles(s, len, buf, offset, size, n)[p] == buf[p]
    decreases n
  {
    hide Splice, Room;
    Spans(offset, size);
    if n == 0 {
      MiddlesZero(s, len, buf, offset, size);
      SpliceBeyond(buf, 0, s[offset..offset + FirstSize(offset, size)], p);
    } else {
      MiddlesNext(s, len, buf, offset, size, n);
      SpliceBeyond(Middles(s, len, buf, offset, size, n - 1), BlockOffset(offset) + (n - 1) * BLOCK_DATA,
                   BlockBytes(s, StartBlock(offset) + n), p);
      GapByte(s, len, buf, offset, size, n - 1, p);
    }
  }

  lemma SpliceBeyond(b: seq<Byte>, at: nat, q: seq<Byte>, p: nat)
    requires at + |q| <= p < |b|
    ensures Splice(b, at, q)[p] == b[p]
  {
  }

  lemma DiffersAt(b: seq<Byte>, s: seq<Byte>, offset: nat, r: nat, p: nat)
    requires p < r <= |b| && offset + r <= |s| && b[p] != s[offset + p]
    ensures b[..r] != s[offset..offset + r]
  {
    assert b[..r][p] != s[offset..offset + r][p];
  }

  /** A file and a buffer for which a range that is not right comes out wrong. */
  lemma WrongIsOutOfOrder(len: nat, offset: nat, size: nat) returns (s: seq<Byte>, buf: seq<Byte>)
    requires Askable(len, offset, size) && !ReadIsRight(len, offset, size)
    ensures |s| == len * BLOCK_DATA && |buf| >= Room(len, offset, size) && !InOrder(s, len, buf, offset, size)
  {
    Spans(offset, size);
    var m, nb, bo, n := Following(len, offset, size), MoreBlocks(offset, size), BlockOffset(offset),
      MiddleCount(len, offset, size);
    if n > 0 && 2 * bo != BLOCK_DATA {
      s, buf := MisplacedMiddle(len, offset, size);
    } else {
      s, buf := Zeros(len * BLOCK_DATA), Ones(Max(size, Room(len, offset, size)));
      StaleByte(s, len, buf, offset, size);
    }
  }

  lemma MisplacedMiddle(len: nat, offset: nat, size: nat) returns (s: seq<Byte>, buf: seq<Byte>)
    requires Askable(len, offset, size) && StartBlock(offset) < len && MiddleCount(len, offset, size) > 0
    requires 2 * BlockOffset(offset) != BLOCK_DATA
    ensures |s| == len * BLOCK_DATA && |buf| >= Room(len, offset, size) && !InOrder(s, len, buf, offset, size)
  {
    hide ReadImage, Middles, Splice, Room, Zeros, MiddleCount, MoreBlocks, Following, BytesRead;
    Spans(offset, size);
    MiddleReported(len, offset, size);
    var bo, n, at := BlockOffset(offset), MiddleCount(len, offset, size), (StartBlock(offset) + 1) * BLOCK_DATA;
    s, buf := Zeros(len * BLOCK_DATA)[at := 1], Zeros(Max(size, Room(len, offset, size)));
    MiddleByte(s, len, buf, offset, size, n);
    MiddleStays(s, len, buf, offset, size);
    var image, r := ReadImage(s, len, buf, offset, size), BytesRead(len, offset, size);
    assert image[bo] == 1;
    assert offset + bo != at && bo < r;
    if offset + r <= |s| && r <= |buf| { DiffersAt(image, s, offset, r, bo); }
  }

  /** The last block leaves the bytes before it alone. */
  lemma MiddleStays(s: seq<Byte>, len: nat, buf: seq<Byte>, offset: nat, size: nat)
    requires Askable(len, offset, size) && |s| == len * BLOCK_DATA && |buf| >= Room(len, offset, size)
    requires StartBlock(offset) < len && MiddleCount(len, offset, size) > 0
    ensures BlockOffset(offset) < |buf|
    ensures ReadImage(s, len, buf, offset, size)[BlockOffset(offset)]
            == Middles(s, len, buf, offset, size, MiddleCount(len, offset, size))[BlockOffset(offset)]
  {
    hide Middles;
    Spans(offset, size);
  }

  lemma MiddleReported(len: nat, offset: nat, size: nat)
    requires Askable(len, offset, size) && StartBlock(offset) < len && MiddleCount(len, offset, size) > 0
    ensures BytesRead(len, offset, size) > BlockOffset(offset)
    ensures StartBlock(offset) + MiddleCount(len, offset, size) < len
    ensures MiddleCount(len, offset, size) < MoreBlocks(offset, size)
  {
    Spans(offset, size);
  }

  lemma StaleByte(s: seq<Byte>, len: nat, buf: seq<Byte>, offset: nat, size: nat)
    requires Askable(len, offset, size) && !ReadIsRight(len, offset, size)
    requires MiddleCount(len, offset, size) == 0 || 2 * BlockOffset(offset) == BLOCK_DATA
    requires s == Zeros(len * BLOCK_DATA) && buf == Ones(Max(size, Room(len, offset, size)))
    ensures !InOrder(s, len, buf, offset, size)
  {
    Spans(offset, size);
    var bo, n, nb := BlockOffset(offset), MiddleCount(len, offset, size), MoreBlocks(offset, size);
    var p := BLOCK_DATA - bo + n * BLOCK_DATA;
    assert Following(len, offset, size) == nb && n == nb - 1;
    GapByte(s, len, buf, offset, size, n, p);
    var image := ReadImage(s, len, buf, offset, size);
    assert image[p] == 1 && p < size;
    if offset + size <= |s| { DiffersAt(image, s, offset, size, p); }
  }

  /** A range is read in order, whatever the file and the buffer hold, exactly when it is right. */
  lemma ReadInOrderIff(len: nat, offset: nat, size: nat)
    requires Askable(len, offset, size)
    ensures ReadIsRight(len, offset, size) <==>
            forall s: seq<Byte>, buf: seq<Byte> ::
              |s| == len * BLOCK_DATA && |buf| >= Room(len, offset, size) ==> InOrder(s, len, buf, offset, size)
  {
    if ReadIsRight(len, offset, size) {
      forall s: seq<Byte>, buf: seq<Byte> | |s| == len * BLOCK_DATA && |buf| >= Room(len, offset, size)
        ensures InOrder(s, len, buf, offset, size)
      {
        RightIsInOrder(s, len, buf, offset, size);
      }
    } else {
      var s, buf := WrongIsOutOfOrder(len, offset, size);
    }
  }

  /** What was written is what a read of a right range inside it finds. */
  lemma ReadBack(d: Disk, files: Files, d': Disk, files': Files, f: string, buf: seq<Byte>, offset: nat, out: seq<Byte>,
                 from: nat, size: nat)
    requires Holds(d, files) && Holds(d', files') && WriteResult(d, files, d', files', f, buf, offset)
    requires size > 0 && |out| >= Room(|files'[f]|, from, size)
    requires WriteStart(d, files, f, offset) <= from && from + size <= WriteStart(d, files, f, offset) + |buf|
    requires ReadIsRight(|files'[f]|, from, size)
    ensures var start := WriteStart(d, files, f, offset);
            && BytesRead(|files'[f]|, from, size) == size
            && ReadImage(Content(d', files'[f]), |files'[f]|, out, from, size)[..size]
               == buf[from - start..from - start + size]
  {
    hide Holds, WriteResult, Content, ReadImage, ReadIsRight;
    WrittenBytes(d, files, d', files', f, buf, offset, from, size);
    HeldChain(d', files', f);
    var len, s := |files'[f]|, Content(d', files'[f]);
    WholeRange(len, from, size);
    RightIsInOrder(s, len, out, from, size);
  }

  /** A read of a range into `out` reports as many as were asked for, and leaves them at the start of the buffer. */
  ghost predicate Reads(s: seq<Byte>, len: nat, out: seq<Byte>, from: nat, size: nat, bytes: seq<Byte>)
    requires size > 0 && |s| == len * BLOCK_DATA && |out| >= Room(len, from, size)
  {
    BytesRead(len, from, size) == size <= |out| && ReadImage(s, len, out, from, size)[..size] == bytes
  }

  /** File `f` was there, and has `len` blocks of bytes `s` since `buf` was written to it at an offset inside it. */
  ghost predicate WrittenInside(d: Disk, files: Files, d': Disk, files': Files, f: string, buf: seq<Byte>, offset: nat,
                                len: nat, s: seq<Byte>) {
    && Holds(d, files) && Holds(d', files') && WriteResult(d, files, d', files', f, buf, offset)
    && f in files && InRange(files[f]) && |files[f]| > 0 && offset <= FileSize(d, files[f])
    && f in files' && InRange(files'[f]) && len == |files'[f]| && s == Content(d', files'[f])
  }

  /** By the offset of the write: what a write inside a file put at `offset` is read back from there. */
  lemma ReadBackAt(d: Disk, files: Files, d': Disk, files': Files, f: string, buf: seq<Byte>, offset: nat,
                   len: nat, s: seq<Byte>, out: seq<Byte>, from: nat, size: nat)
    requires WrittenInside(d, files, d', files', f, buf, offset, len, s) && |s| == len * BLOCK_DATA
    requires offset <= from && from + size <= offset + |buf|
    requires size > 0 && |out| >= Room(len, from, size) && ReadIsRight(len, from, size)
    ensures Reads(s, len, out, from, size, buf[from - offset..from - offset + size])
  {
    hide Holds, WriteResult, Content, ReadImage, ReadIsRight, FileSize, Room, PutAt;
    HeldShape(d, files);
    WriteInside(d, files, d', files', f, buf, offset);
    PutBytes(d, files, f, s, offset, buf, from, size);
    WholeRange(len, from, size);
    RightIsInOrder(s, len, out, from, size);
  }

  lemma PutBytes(d: Disk, files: Files, f: string, s: seq<Byte>, at: nat, buf: seq<Byte>, from: nat, size: nat)
    requires Shaped(d) && f in files && InRange(files[f]) && PutAt(Content(d, files[f]), s, at, buf)
    requires at <= from && from + size <= at + |buf| && size > 0
    ensures from + size <= |s| && s[from..from + size] == buf[from - at..from - at + size]
  {
    hide Content;
    var lo := from - at;
    var got, put := s[from..from + size], buf[lo..lo + size];
    forall i | 0 <= i < size ensures got[i] == put[i] {
      var j := lo + i;
      assert s[at..at + |buf|][j] == buf[j];
    }
  }

  /** The bytes written are in the file. */
  lemma WrittenBytes(d: Disk, files: Files, d': Disk, files': Files, f: string, buf: seq<Byte>, offset: nat,
                     from: nat, size: nat)
    requires Holds(d, files) && Holds(d', files') && WriteResult(d, files, d', files', f, buf, offset)
    requires size > 0
    requires WriteStart(d, files, f, offset) <= from && from + size <= WriteStart(d, files, f, offset) + |buf|
    ensures f in files' && InRange(files'[f]) && from + size <= |Content(d', files'[f])|
    ensures var start := WriteStart(d, files, f, offset);
            Content(d', files'[f])[from..from + size] == buf[from - start..from - start + size]
  {
    hide Holds, OthersKept, Content, FreeBlocks, Set, Linked, Splice, NewLength, Zeros;
    HeldChain(d', files', f);
    ChainOfInRange(d, files, f);
    var start, len := WriteStart(d, files, f, offset), |files'[f]|;
    SpliceSlice(Content(d, ChainOf(files, f)) + Zeros((len - |ChainOf(files, f)|) * BLOCK_DATA), start, buf, from,
      size);
  }

  lemma ChainOfInRange(d: Disk, files: Files, f: string)
    requires Holds(d, files)
    ensures Shaped(d) && InRange(ChainOf(files, f))
  {
  }

  lemma SpliceSlice(s: seq<Byte>, start: nat, buf: seq<Byte>, from: nat, size: nat)
    requires start + |buf| <= |s| && start <= from && from + size <= start + |buf|
    ensures Splice(s, start, buf)[from..from + size] == buf[from - start..from - start + size]
  {
  }

  lemma WholeRange(len: nat, offset: nat, size: nat)
    requires !IsEmpty(offset, size) && offset + size <= len * BLOCK_DATA
    ensures StartBlock(offset) < len && BytesRead(len, offset, size) == size
  {
    Spans(offset, size);
  }

  /** The reach is exact: of a file of ones, the last place in it gets a one. */
  lemma RoomIsWritten(len: nat, offset: nat, size: nat)
    requires Askable(len, offset, size) && Room(len, offset, size) > 0
    ensures var room := Room(len, offset, size);
            ReadImage(Ones(len * BLOCK_DATA), len, Zeros(room), offset, size)[room - 1] == 1
  {
    hide Middles, ReadImage, Ones, Zeros, Following, MoreBlocks, Room;
    RoomCases(len, offset, size);
    var s, m, nb := Ones(len * BLOCK_DATA), Following(len, offset, size), MoreBlocks(offset, size);
    var buf := Zeros(Room(len, offset, size));
    if m == nb > 0 {
      LastWritten(s, len, buf, offset, size);
    } else if m == nb {
      ReadEndsInFirst(s, len, buf, offset, size);
      FirstWritten(s, len, buf, offset, size);
    } else {
      ReadEndsEarly(s, len, buf, offset, size, m);
      if m > 0 {
        WholeWritten(s, len, buf, offset, size, m);
      } else {
        FirstWritten(s, len, buf, offset, size);
      }
    }
  }

  lemma RoomCases(len: nat, offset: nat, size: nat)
    requires Askable(len, offset, size) && Room(len, offset, size) > 0
    ensures StartBlock(offset) < len
    ensures var m, nb, room := Following(len, offset, size), MoreBlocks(offset, size), Room(len, offset, size);
            && m <= nb && (m < nb ==> StartBlock(offset) + m + 1 == len) && StartBlock(offset) + m < len
            && (m == nb > 0 ==> room == BlockOffset(offset) + nb * BLOCK_DATA + LastSize(offset, size)
                                && LastSize(offset, size) > 0)
            && (0 < m < nb ==> room == BlockOffset(offset) + m * BLOCK_DATA)
            && (m == 0 ==> room == FirstSize(offset, size) > 0)
  {
    Spans(offset, size);
  }

  ghost predicate AllOnes(s: seq<Byte>) {
    forall j :: 0 <= j < |s| ==> s[j] == 1
  }

  lemma LastWritten(s: seq<Byte>, len: nat, buf: seq<Byte>, offset: nat, size: nat)
    requires Askable(len, offset, size) && |s| == len * BLOCK_DATA && |buf| >= Room(len, offset, size) && AllOnes(s)
    requires MoreBlocks(offset, size) > 0 && StartBlock(offset) + MoreBlocks(offset, size) < len
             && LastSize(offset, size) > 0
    ensures 0 <= BlockOffset(offset) + MoreBlocks(offset, size) * BLOCK_DATA + LastSize(offset, size) - 1 < |buf|
    ensures ReadImage(s, len, buf, offset, size)
              [BlockOffset(offset) + MoreBlocks(offset, size) * BLOCK_DATA + LastSize(offset, size) - 1] == 1
  {
    hide Middles, ReadImage, Splice, BlockBytes, Room, BytesRead, LastSize, AllOnes;
    ReadEndsInLast(s, len, buf, offset, size);
    var nb := MoreBlocks(offset, size);
    var last := BlockBytes(s, StartBlock(offset) + nb)[..LastSize(offset, size)];
    OnesThere(s, StartBlock(offset) + nb, |last| - 1);
    SpliceEndsWith(Middles(s, len, buf, offset, size, nb - 1), BlockOffset(offset) + nb * BLOCK_DATA, last);
  }

  lemma WholeWritten(s: seq<Byte>, len: nat, buf: seq<Byte>, offset: nat, size: nat, m: nat)
    requires Askable(len, offset, size) && |s| == len * BLOCK_DATA && |buf| >= Room(len, offset, size) && AllOnes(s)
    requires StartBlock(offset) + m < len && 0 < m < MoreBlocks(offset, size)
    ensures 0 <= BlockOffset(offset) + m * BLOCK_DATA - 1 < |buf|
    ensures Middles(s, len, buf, offset, size, m)[BlockOffset(offset) + m * BLOCK_DATA - 1] == 1
  {
    hide Middles, Splice, BlockBytes, Room, AllOnes, MoreBlocks;
    MiddlesNext(s, len, buf, offset, size, m);
    OnesThere(s, StartBlock(offset) + m, BLOCK_DATA - 1);
    SpliceEndsWith(Middles(s, len, buf, offset, size, m - 1), BlockOffset(offset) + (m - 1) * BLOCK_DATA,
                   BlockBytes(s, StartBlock(offset) + m));
  }

  lemma FirstWritten(s: seq<Byte>, len: nat, buf: seq<Byte>, offset: nat, size: nat)
    requires Askable(len, offset, size) && |s| == len * BLOCK_DATA && |buf| >= Room(len, offset, size) && AllOnes(s)
    requires StartBlock(offset) < len && FirstSize(offset, size) > 0
    ensures FirstSize(offset, size) <= |buf| && Middles(s, len, buf, offset, size, 0)[FirstSize(offset, size) - 1] == 1
  {
    hide Middles, Splice, Room, FirstSize;
    MiddlesZero(s, len, buf, offset, size);
    SpliceEndsWith(buf, 0, s[offset..offset + FirstSize(offset, size)]);
  }

  lemma SpliceEndsWith(b: seq<Byte>, at: nat, p: seq<Byte>)
    requires |p| > 0 && at + |p| <= |b|
    ensures Splice(b, at, p)[at + |p| - 1] == p[|p| - 1]
  {
  }

  lemma OnesThere(s: seq<Byte>, k: nat, i: nat)
    requires (k + 1) * BLOCK_DATA <= |s| && i < BLOCK_DATA && AllOnes(s)
    ensures BlockBytes(s, k)[i] == 1
  {
  }

  // ----- the count -----

  /**
   The count is the range cut off at the end of the chain; the file's size plays no part in it.
   An empty range at the start of a block counts, and copies, the whole rest of the chain.
   */
  lemma BytesReadIs(len: nat, offset: nat, size: nat)
    requires Askable(len, offset, size)
    ensures BytesRead(len, offset, size)
            == if StartBlock(offset) >= len then 0
               else if IsEmpty(offset, size) then len * BLOCK_DATA - offset
               else Min(size, len * BLOCK_DATA - offset)
  {
    Spans(offset, size);
  }

  /**
   A read reports more than is left of a file of `st` bytes exactly when it asks for more, or
   is empty at the start of a block, and the chain goes on beyond both the file's end and the
   offset.
   */
  lemma ReadsPastEndIff(len: nat, st: nat, offset: nat, size: nat)
    requires Askable(len, offset, size)
    ensures BytesRead(len, offset, size) > Max(0, st - offset)
       <==> (size > Max(0, st - offset) || IsEmpty(offset, size)) && len * BLOCK_DATA > st && len * BLOCK_DATA > offset
  {
    BytesReadIs(len, offset, size);
    Spans(offset, size);
  }
}
