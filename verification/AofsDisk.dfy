/**
 The contents of an AOFS disk as a value: which blocks are in use, what each block holds,
 and what it means for a list of block numbers to be the chain of a file.
 */
module AofsDisk {

  const BLOCK_NUM := 4096
  /** Bytes of file data in a block: 4096 less the 328 bytes of metadata. */
  const BLOCK_DATA := 3768
  const BITMAP_SIZE := 4096

  type Byte = b: nat | b < 256

  /** One block: its metadata (the time stamps and ownership fields are not modelled) and its data. */
  datatype Block = Block(filename: string, next: int, head: bool, size: nat, data: seq<Byte>)

  datatype Disk = Disk(used: seq<bool>, blocks: seq<Block>)

  function Zeros(n: nat): (z: seq<Byte>)
    ensures |z| == n && forall i :: 0 <= i < n ==> z[i] == 0
  {
    seq(n, _ => 0)
  }

  /** What clear_block leaves. */
  function Blank(): Block {
    Block("", -1, false, 0, Zeros(BLOCK_DATA))
  }

  predicate IsIndex(b: int) { 0 <= b < BLOCK_NUM }

  ghost predicate Shaped(d: Disk) {
    && |d.used| == BLOCK_NUM && |d.blocks| == BLOCK_NUM
    && forall b :: 0 <= b < BLOCK_NUM ==> BlockOk(d.blocks[b])
  }

  /** A whole block's worth of data, and a link that is -1 or a block number. */
  predicate BlockOk(b: Block) {
    |b.data| == BLOCK_DATA && (b.next == -1 || IsIndex(b.next))
  }

  // ----- chains -----

  /** The blocks `c`, in order, are linked from the only head block of the file named `f`. */
  ghost predicate Linked(d: Disk, f: string, c: seq<int>)
    requires Shaped(d)
  {
    && |c| > 0
    && (forall i :: 0 <= i < |c| ==> IsIndex(c[i]) && d.used[c[i]])
    && (forall i :: 0 <= i < |c| ==> d.blocks[c[i]].next == if i + 1 < |c| then c[i + 1] else -1)
    && (forall i :: 0 <= i < |c| ==> (d.blocks[c[i]].head <==> i == 0))
    && (forall i, j :: 0 <= i < j < |c| ==> c[i] != c[j])
    && d.blocks[c[0]].filename == f
  }

  /** A chain, long enough for every whole block of the file's size. */
  ghost predicate ChainOk(d: Disk, f: string, c: seq<int>)
    requires Shaped(d)
  {
    Linked(d, f, c) && |c| >= d.blocks[c[0]].size / BLOCK_DATA
  }

  /** File names and their chains. */
  type Files = map<string, seq<int>>

  ghost predicate Disjoint(files: Files) {
    forall f, g, b :: f in files && g in files && b in files[f] && b in files[g] ==> f == g
  }

  ghost predicate Owned(files: Files, b: int) {
    exists f :: f in files && b in files[f]
  }

  /**
   The disk holds exactly `files`: every file's blocks form an acyclic chain from its only
   head, the chains are disjoint, and the blocks in use are exactly those of the chains.
   */
  ghost predicate Holds(d: Disk, files: Files) {
    && Shaped(d)
    && (forall f :: f in files ==> ChainOk(d, f, files[f]))
    && Disjoint(files)
    && (forall b :: 0 <= b < BLOCK_NUM && d.used[b] ==> Owned(files, b))
  }

  lemma HeldShape(d: Disk, files: Files)
    requires Holds(d, files)
    ensures Shaped(d)
  {
  }

  /** The bytes of a chain, block after block. */
  ghost function Content(d: Disk, c: seq<int>): (r: seq<Byte>)
    requires Shaped(d) && forall i :: 0 <= i < |c| ==> IsIndex(c[i])
    ensures |r| == |c| * BLOCK_DATA
  {
    seq(|c| * BLOCK_DATA, i requires 0 <= i < |c| * BLOCK_DATA => ByteAt(d, c, i))
  }

  ghost function ByteAt(d: Disk, c: seq<int>, i: nat): Byte
    requires Shaped(d) && (forall i :: 0 <= i < |c| ==> IsIndex(c[i])) && i < |c| * BLOCK_DATA
  {
    Quotient(i, |c|);
    var k := i / BLOCK_DATA;
    assert 0 <= k < |c|;
    assert IsIndex(c[k]);
    d.blocks[c[k]].data[i % BLOCK_DATA]
  }

  lemma Quotient(i: nat, n: nat)
    requires i < n * BLOCK_DATA
    ensures 0 <= i / BLOCK_DATA < n
  {
  }

  ghost function FileSize(d: Disk, c: seq<int>): nat
    requires Shaped(d) && |c| > 0 && IsIndex(c[0])
  {
    d.blocks[c[0]].size
  }

  /** The recorded size fits in the chain. */
  ghost predicate Fits(d: Disk, c: seq<int>)
    requires Shaped(d) && |c| > 0 && IsIndex(c[0])
  {
    FileSize(d, c) <= |c| * BLOCK_DATA
  }

  // ----- frames -----

  /** `d'` differs from `d` on the blocks of `s` only. */
  ghost predicate SameOutside(d: Disk, d': Disk, s: set<int>)
    requires Shaped(d) && Shaped(d')
  {
    forall b :: 0 <= b < BLOCK_NUM && b !in s ==> d'.used[b] == d.used[b] && d'.blocks[b] == d.blocks[b]
  }

  ghost function Set(c: seq<int>): set<int> {
    set b | b in c
  }

  /** A chain none of whose blocks changed is still the same file with the same bytes. */
  lemma ChainFrame(d: Disk, d': Disk, s: set<int>, f: string, c: seq<int>)
    requires Shaped(d) && Shaped(d') && SameOutside(d, d', s)
    requires ChainOk(d, f, c)
    requires forall i :: 0 <= i < |c| ==> c[i] !in s
    ensures ChainOk(d', f, c)
    ensures Content(d', c) == Content(d, c)
    ensures FileSize(d', c) == FileSize(d, c)
  {
  }

  /** `c` is the chain of `f` before and after, with the same size and the same bytes. */
  ghost predicate Kept(d: Disk, d': Disk, f: string, c: seq<int>)
    requires Shaped(d) && Shaped(d')
  {
    ChainOk(d, f, c) && ChainOk(d', f, c) && FileSize(d', c) == FileSize(d, c) && Content(d', c) == Content(d, c)
  }

  /** Every file but `f` keeps its chain, size and bytes, and no other file appears. */
  ghost predicate OthersKept(d: Disk, files: Files, d': Disk, files': Files, f: string)
    requires Shaped(d) && Shaped(d')
  {
    && files'.Keys - {f} == files.Keys - {f}
    && forall g :: g in files && g != f ==> g in files' && files'[g] == files[g] && Kept(d, d', g, files[g])
  }

  /**
   Changing only blocks of one file, and blocks that were free, and leaving a chain for
   that file keeps the disk well formed and the other files untouched.
   */
  lemma FileChanged(d: Disk, files: Files, d': Disk, f: string, c': seq<int>)
    requires Holds(d, files) && Shaped(d') && ChainOk(d', f, c')
    requires Rewrites(d, files, d', f, c')
    ensures Holds(d', files[f := c']) && OthersKept(d, files, d', files[f := c'], f)
  {
    OthersOk(d, files, d', f, c');
    OthersDisjoint(files, f, c');
    AllOwned(d, files, d', f, c');
    Assemble(d, files, d', f, c');
  }

  lemma Assemble(d: Disk, files: Files, d': Disk, f: string, c': seq<int>)
    requires Shaped(d) && Shaped(d') && ChainOk(d', f, c')
    requires forall g :: g in files && g != f ==> Kept(d, d', g, files[g])
    requires Disjoint(files[f := c'])
    requires forall b :: 0 <= b < BLOCK_NUM && d'.used[b] ==> Owned(files[f := c'], b)
    ensures Holds(d', files[f := c']) && OthersKept(d, files, d', files[f := c'], f)
  {
  }

  /** `d'` changes only the blocks of `f` and of `c'`, which were free or of `f`, and frees those `c'` leaves out. */
  ghost predicate Rewrites(d: Disk, files: Files, d': Disk, f: string, c': seq<int>)
    requires Holds(d, files) && Shaped(d')
  {
    && SameOutside(d, d', Set(c') + (if f in files then Set(files[f]) else {}))
    && (forall b :: b in c' ==> IsIndex(b) && (!d.used[b] || (f in files && b in files[f])))
    && (f in files ==> forall b :: b in files[f] && b !in c' ==> !d'.used[b])
  }

  lemma OthersOk(d: Disk, files: Files, d': Disk, f: string, c': seq<int>)
    requires Holds(d, files) && Shaped(d') && Rewrites(d, files, d', f, c')
    ensures forall g :: g in files && g != f ==> Kept(d, d', g, files[g])
    ensures forall g, b :: g in files && g != f && b in files[g] ==> b !in c'
  {
    hide ChainOk, SameOutside, Content;
    var s := Set(c') + (if f in files then Set(files[f]) else {});
    forall g | g in files && g != f
      ensures Kept(d, d', g, files[g]) && forall b :: b in files[g] ==> b !in c'
    {
      OtherChain(d, files, g, f, c');
      assert forall b :: b in files[g] ==> b !in s;
      assert forall i :: 0 <= i < |files[g]| ==> files[g][i] in files[g];
      ChainFrame(d, d', s, g, files[g]);
    }
  }

  lemma AllOwned(d: Disk, files: Files, d': Disk, f: string, c': seq<int>)
    requires Holds(d, files) && Shaped(d') && Rewrites(d, files, d', f, c')
    ensures forall b :: 0 <= b < BLOCK_NUM && d'.used[b] ==> Owned(files[f := c'], b)
  {
    forall b | 0 <= b < BLOCK_NUM && d'.used[b] ensures Owned(files[f := c'], b) {
      StillOwned(d, files, d', f, c', b);
    }
  }

  lemma OthersDisjoint(files: Files, f: string, c': seq<int>)
    requires Disjoint(files)
    requires forall g, b :: g in files && g != f && b in files[g] ==> b !in c'
    ensures Disjoint(files[f := c'])
  {
  }

  lemma OtherChain(d: Disk, files: Files, g: string, f: string, c': seq<int>)
    requires Holds(d, files) && g in files && g != f
    requires forall b :: b in c' ==> IsIndex(b) && (!d.used[b] || (f in files && b in files[f]))
    ensures forall b :: b in files[g] ==> b !in c' && (f in files ==> b !in files[f])
  {
    forall b | b in files[g] ensures b !in c' && (f in files ==> b !in files[f]) {
      var i :| 0 <= i < |files[g]| && files[g][i] == b;
      assert d.used[files[g][i]];
    }
  }

  lemma StillOwned(d: Disk, files: Files, d': Disk, f: string, c': seq<int>, b: int)
    requires Shaped(d) && Shaped(d') && (forall b :: 0 <= b < BLOCK_NUM && d.used[b] ==> Owned(files, b))
    requires SameOutside(d, d', Set(c') + (if f in files then Set(files[f]) else {}))
    requires IsIndex(b) && d'.used[b]
    requires f in files ==> b !in files[f] || b in c'
    ensures Owned(files[f := c'], b)
  {
    var files' := files[f := c'];
    if b in c' {
      assert f in files' && b in files'[f];
    } else {
      assert !(f in files && b in files[f]);
      assert d.used[b] && Owned(files, b);
      var g :| g in files && b in files[g];
      assert g in files' && b in files'[g];
    }
  }

  /** Freeing the whole chain of a file removes just that file. */
  lemma FileRemoved(d: Disk, files: Files, d': Disk, f: string)
    requires Holds(d, files) && Shaped(d') && f in files
    requires SameOutside(d, d', Set(files[f]))
    requires forall b :: b in files[f] ==> !d'.used[b]
    ensures Holds(d', files - {f}) && OthersKept(d, files, d', files - {f}, f)
  {
    hide ChainOk, SameOutside, Content, Owned;
    OthersLeft(d, files, d', f);
    OwnersLeft(d, files, d', f);
  }

  lemma OthersLeft(d: Disk, files: Files, d': Disk, f: string)
    requires Holds(d, files) && Shaped(d') && f in files && SameOutside(d, d', Set(files[f]))
    ensures forall g :: g in files && g != f ==> Kept(d, d', g, files[g])
  {
    hide ChainOk, SameOutside, Content;
    forall g | g in files && g != f ensures Kept(d, d', g, files[g]) {
      assert forall b :: b in files[g] ==> b !in Set(files[f]);
      assert forall i :: 0 <= i < |files[g]| ==> files[g][i] in files[g];
      ChainFrame(d, d', Set(files[f]), g, files[g]);
    }
  }

  lemma OwnersLeft(d: Disk, files: Files, d': Disk, f: string)
    requires Holds(d, files) && Shaped(d') && f in files && SameOutside(d, d', Set(files[f]))
    requires forall b :: b in files[f] ==> !d'.used[b]
    ensures forall b :: 0 <= b < BLOCK_NUM && d'.used[b] ==> Owned(files - {f}, b)
  {
    hide ChainOk;
    var files' := files - {f};
    forall b | 0 <= b < BLOCK_NUM && d'.used[b] ensures Owned(files', b) {
      var g :| g in files && b in files[g];
      assert g in files' && b in files'[g];
    }
  }

  /** The files on a disk are determined by the disk. */
  lemma FilesUnique(d: Disk, files: Files, files': Files)
    requires Holds(d, files) && Holds(d, files')
    ensures files == files'
  {
    FilesIncluded(d, files, files');
    FilesIncluded(d, files', files);
    EachInOther(files, files');
  }

  lemma EachInOther(files: Files, files': Files)
    requires forall f :: f in files ==> f in files' && files'[f] == files[f]
    requires forall f :: f in files' ==> f in files && files[f] == files'[f]
    ensures files == files'
  {
  }

  lemma FilesIncluded(d: Disk, files: Files, files': Files)
    requires Holds(d, files) && Holds(d, files')
    ensures forall f :: f in files ==> f in files' && files'[f] == files[f]
  {
    forall f | f in files ensures f in files' && files'[f] == files[f] {
      var c := files[f];
      assert d.used[c[0]];
      assert Owned(files', c[0]);
      var g :| g in files' && c[0] in files'[g];
      HeadOwner(d, f, c, g, files'[g]);
      SameFile(d, f, c, files'[f]);
    }
  }

  lemma SameFile(d: Disk, f: string, c: seq<int>, c': seq<int>)
    requires Shaped(d) && ChainOk(d, f, c) && ChainOk(d, f, c') && c[0] == c'[0]
    ensures c == c'
  {
    SameChain(d, f, c, c', |c|);
    SameChain(d, f, c', c, |c'|);
    assert c[..|c|] == c && c'[..|c'|] == c';
  }

  lemma HeadOwner(d: Disk, f: string, c: seq<int>, g: string, c': seq<int>)
    requires Shaped(d) && ChainOk(d, f, c) && ChainOk(d, g, c') && c[0] in c'
    ensures g == f && c'[0] == c[0]
  {
    var i :| 0 <= i < |c'| && c'[i] == c[0];
    assert d.blocks[c[0]].head && d.blocks[c'[i]].head;
  }

  /** The link of block `i` of a chain. */
  lemma LinkAt(d: Disk, f: string, c: seq<int>, i: nat)
    requires Shaped(d) && Linked(d, f, c) && i < |c|
    ensures IsIndex(c[i]) && d.blocks[c[i]].next == (if i + 1 < |c| then c[i + 1] else -1)
    ensures i + 1 < |c| ==> IsIndex(c[i + 1])
    ensures forall j :: 0 <= j < |c| && j != i ==> c[j] != c[i]
  {
  }

  /** Two chains of the same file agree as far as the first reaches. */
  lemma {:induction false} SameChain(d: Disk, f: string, c: seq<int>, c': seq<int>, n: nat)
    requires Shaped(d) && ChainOk(d, f, c) && ChainOk(d, f, c') && c[0] == c'[0] && n <= |c|
    ensures n <= |c'| && c[..n] == c'[..n]
    decreases n
  {
    if n > 1 {
      SameChain(d, f, c, c', n - 1);
      var i := n - 2;
      assert c[i] == c[..n - 1][i] == c'[..n - 1][i] == c'[i];
      LinkAt(d, f, c, i);
      LinkAt(d, f, c', i);
      assert c[..n] == c[..n - 1] + [c[i + 1]] && c'[..n] == c'[..n - 1] + [c'[i + 1]];
    }
  }

  // ----- bytes -----

  /** `s` with the bytes from `off` on replaced by `buf`. */
  function Splice(s: seq<Byte>, off: nat, buf: seq<Byte>): (r: seq<Byte>)
    requires buf == [] || off + |buf| <= |s|
    ensures |r| == |s|
  {
    if buf == [] then s else s[..off] + buf + s[off + |buf|..]
  }

  lemma SpliceMore(s: seq<Byte>, off: nat, p: seq<Byte>, q: seq<Byte>)
    requires off + |p| + |q| <= |s|
    ensures Splice(Splice(s, off, p), off + |p|, q) == Splice(s, off, p + q)
  {
  }

  lemma SplicePad(s: seq<Byte>, off: nat, p: seq<Byte>, z: seq<Byte>)
    requires p == [] || off + |p| <= |s|
    ensures Splice(s, off, p) + z == Splice(s + z, off, p)
  {
  }

  lemma ZerosAdd(m: nat, n: nat)
    ensures Zeros(m) + Zeros(n) == Zeros(m + n)
  {
  }

  ghost predicate InRange(c: seq<int>) {
    forall i :: 0 <= i < |c| ==> IsIndex(c[i])
  }

  lemma LinkedInRange(d: Disk, f: string, c: seq<int>)
    requires Shaped(d) && Linked(d, f, c)
    ensures InRange(c)
  {
  }

  lemma Decompose(i: nat, k: nat)
    ensures i / BLOCK_DATA == k <==> k * BLOCK_DATA <= i < (k + 1) * BLOCK_DATA
    ensures i / BLOCK_DATA == k ==> i % BLOCK_DATA == i - k * BLOCK_DATA
  {
  }

  /** Overwriting bytes inside one block overwrites the same bytes of the file. */
  lemma ContentSplice(d: Disk, d': Disk, c: seq<int>, k: nat, o: nat, piece: seq<Byte>)
    requires Shaped(d) && Shaped(d') && InRange(c) && k < |c| && o + |piece| <= BLOCK_DATA
    requires forall i :: 0 <= i < |c| && i != k ==> d'.blocks[c[i]].data == d.blocks[c[i]].data
    requires d'.blocks[c[k]].data == Splice(d.blocks[c[k]].data, o, piece)
    ensures k * BLOCK_DATA + o + |piece| <= |Content(d, c)|
    ensures Content(d', c) == Splice(Content(d, c), k * BLOCK_DATA + o, piece)
  {
    var base := k * BLOCK_DATA;
    var s, t := Content(d, c), Splice(Content(d, c), base + o, piece);
    forall i | 0 <= i < |c| * BLOCK_DATA ensures Content(d', c)[i] == t[i] {
      SpliceByte(d, d', c, k, o, piece, i);
    }
  }

  lemma SpliceByte(d: Disk, d': Disk, c: seq<int>, k: nat, o: nat, piece: seq<Byte>, i: nat)
    requires Shaped(d) && Shaped(d') && InRange(c) && k < |c| && o + |piece| <= BLOCK_DATA
    requires forall i :: 0 <= i < |c| && i != k ==> d'.blocks[c[i]].data == d.blocks[c[i]].data
    requires d'.blocks[c[k]].data == Splice(d.blocks[c[k]].data, o, piece)
    requires i < |c| * BLOCK_DATA
    ensures ByteAt(d', c, i) == (if k * BLOCK_DATA + o <= i < k * BLOCK_DATA + o + |piece|
                                 then piece[i - (k * BLOCK_DATA + o)] else ByteAt(d, c, i))
  {
    Quotient(i, |c|);
    Decompose(i, k);
  }

  /** One more block appends its data. */
  lemma ContentAppend(d: Disk, c: seq<int>, b: int)
    requires Shaped(d) && InRange(c) && IsIndex(b)
    ensures InRange(c + [b]) && Content(d, c + [b]) == Content(d, c) + d.blocks[b].data
  {
    var c' := c + [b];
    forall i | 0 <= i < |c'| * BLOCK_DATA
      ensures Content(d, c')[i] == (Content(d, c) + d.blocks[b].data)[i]
    {
      Quotient(i, |c'|);
      Decompose(i, |c|);
      if i < |c| * BLOCK_DATA { Quotient(i, |c|); }
    }
  }

  /** Keeping the first blocks keeps the first bytes. */
  lemma ContentPrefix(d: Disk, c: seq<int>, n: nat)
    requires Shaped(d) && InRange(c) && n <= |c|
    ensures InRange(c[..n]) && Content(d, c[..n]) == Content(d, c)[..n * BLOCK_DATA]
  {
    forall i | 0 <= i < n * BLOCK_DATA ensures Content(d, c[..n])[i] == Content(d, c)[i] {
      Quotient(i, n);
    }
  }

  lemma ContentSame(d: Disk, d': Disk, c: seq<int>)
    requires Shaped(d) && Shaped(d') && InRange(c)
    requires forall i :: 0 <= i < |c| ==> d'.blocks[c[i]].data == d.blocks[c[i]].data
    ensures Content(d', c) == Content(d, c)
  {
    forall i | 0 <= i < |c| * BLOCK_DATA ensures Content(d', c)[i] == Content(d, c)[i] {
      Quotient(i, |c|);
    }
  }

  // ----- allocation and freeing -----

  function Allocated(d: Disk, b: int): (d': Disk)
    requires Shaped(d) && IsIndex(b)
    ensures Shaped(d')
  {
    Disk(d.used[b := true], d.blocks[b := Blank()])
  }

  function Written(d: Disk, b: int, block: Block): (d': Disk)
    requires Shaped(d) && IsIndex(b) && BlockOk(block)
    ensures Shaped(d')
  {
    d.(blocks := d.blocks[b := block])
  }

  /** The blocks of `s` free and blank. */
  ghost function Freed(d: Disk, s: set<int>): (d': Disk)
    requires Shaped(d)
    ensures Shaped(d')
  {
    Disk(seq(BLOCK_NUM, b requires 0 <= b < BLOCK_NUM => b !in s && d.used[b]),
         seq(BLOCK_NUM, b requires 0 <= b < BLOCK_NUM => if b in s then Blank() else d.blocks[b]))
  }

  ghost function AllIndices(): set<int> {
    set b {:trigger IsIndex(b)} | 0 <= b < BLOCK_NUM && IsIndex(b)
  }

  /** The blocks met by following links from `b` until -1 or a block already seen. */
  ghost function Walk(d: Disk, b: int, seen: set<int>): (w: seq<int>)
    requires Shaped(d) && (b == -1 || IsIndex(b))
    ensures forall i :: 0 <= i < |w| ==> IsIndex(w[i])
    decreases AllIndices() - seen
  {
    if b == -1 || b in seen then []
    else
      assert b in AllIndices() - seen;
      [b] + Walk(d, d.blocks[b].next, seen + {b})
  }

  /** On a chain, the walk from any of its blocks is the rest of the chain. */
  lemma {:induction false} WalkIsChain(d: Disk, f: string, c: seq<int>, k: nat, seen: set<int>)
    requires Shaped(d) && Linked(d, f, c) && k <= |c|
    requires forall i :: k <= i < |c| ==> c[i] !in seen
    ensures Walk(d, if k < |c| then c[k] else -1, seen) == c[k..]
    decreases |c| - k
  {
    if k < |c| {
      WalkIsChain(d, f, c, k + 1, seen + {c[k]});
      assert c[k..] == [c[k]] + c[k + 1..];
    }
  }

  /** Rewriting a block of a chain without touching its links keeps the chain. */
  lemma LinkedRewrite(d: Disk, f: string, c: seq<int>, k: nat, block: Block)
    requires Shaped(d) && Linked(d, f, c) && k < |c| && BlockOk(block)
    requires block.next == d.blocks[c[k]].next && block.head == d.blocks[c[k]].head
    requires k == 0 ==> block.filename == f
    ensures Linked(Written(d, c[k], block), f, c)
  {
  }

  /** Linking a fresh block after the last one extends the chain. */
  lemma LinkedAppend(d: Disk, d': Disk, f: string, c: seq<int>, b: int)
    requires Shaped(d) && Shaped(d') && Linked(d, f, c) && IsIndex(b) && !d.used[b]
    requires SameOutside(d, d', {b, c[|c| - 1]}) && d'.used[b] && d'.used[c[|c| - 1]]
    requires d'.blocks[b].next == -1 && !d'.blocks[b].head
    requires d'.blocks[c[|c| - 1]].next == b && d'.blocks[c[|c| - 1]].head == d.blocks[c[|c| - 1]].head
    requires d'.blocks[c[|c| - 1]].filename == d.blocks[c[|c| - 1]].filename || |c| > 1
    ensures Linked(d', f, c + [b])
  {
  }

  /** Cutting the link after block `k` and freeing the rest keeps the first k + 1 blocks. */
  lemma LinkedCut(d: Disk, d': Disk, f: string, c: seq<int>, k: nat)
    requires Shaped(d) && Shaped(d') && Linked(d, f, c) && k < |c|
    requires SameOutside(d, d', Set(c[k..])) && d'.used[c[k]]
    requires d'.blocks[c[k]].next == -1 && d'.blocks[c[k]].head == d.blocks[c[k]].head
    requires d'.blocks[c[k]].filename == d.blocks[c[k]].filename
    ensures Linked(d', f, c[..k + 1])
  {
    forall i | 0 <= i < k ensures c[i] !in Set(c[k..]) {
    }
  }

  /** What is kept by two changes is kept by both together. */
  lemma OthersKeptTwice(d: Disk, files: Files, d': Disk, files': Files, d'': Disk, files'': Files, f: string)
    requires Shaped(d) && Shaped(d') && Shaped(d'')
    requires OthersKept(d, files, d', files', f) && OthersKept(d', files', d'', files'', f)
    ensures OthersKept(d, files, d'', files'', f)
  {
    forall g | g in files && g != f ensures g in files'' && files''[g] == files[g] && Kept(d, d'', g, files[g]) {
      assert g in files' && Kept(d, d', g, files[g]) && Kept(d', d'', g, files'[g]);
    }
  }

  // ----- free space -----

  ghost function FreeBlocks(d: Disk): set<int>
    requires Shaped(d)
  {
    set b {:trigger d.used[b]} | 0 <= b < BLOCK_NUM && !d.used[b]
  }

  lemma SameUsedSameFree(d: Disk, d': Disk)
    requires Shaped(d) && Shaped(d') && d.used == d'.used
    ensures FreeBlocks(d) == FreeBlocks(d')
  {
  }

  lemma SetAppend(c: seq<int>, b: int)
    ensures Set(c + [b]) == Set(c) + {b}
  {
  }

  lemma AllocationTakesOne(d: Disk, b: int)
    requires Shaped(d) && IsIndex(b) && !d.used[b]
    ensures FreeBlocks(Allocated(d, b)) == FreeBlocks(d) - {b}
    ensures |FreeBlocks(Allocated(d, b))| == |FreeBlocks(d)| - 1
  {
    assert b in FreeBlocks(d);
  }

  // ----- how long a chain can be -----

  predicate IsBelow(b: int, n: int) { 0 <= b < n }

  function Below(n: nat): set<int> {
    set b: int | 0 <= b < n && IsBelow(b, n)
  }

  lemma {:induction false} BelowSize(n: nat)
    ensures |Below(n)| == n
  {
    if n > 0 {
      BelowSize(n - 1);
      assert forall b :: IsBelow(b, n) <==> IsBelow(b, n - 1) || b == n - 1;
      assert Below(n) == Below(n - 1) + {n - 1};
    }
  }

  lemma {:induction false} SetSize(c: seq<int>)
    requires forall i, j :: 0 <= i < j < |c| ==> c[i] != c[j]
    ensures |Set(c)| == |c|
  {
    if c != [] {
      var n := |c| - 1;
      SetSize(c[..n]);
      SetAppend(c[..n], c[n]);
      assert c == c[..n] + [c[n]];
    }
  }

  lemma SubsetSize(s: set<int>, t: set<int>)
    requires s <= t
    ensures |s| <= |t|
  {
    assert t == s + (t - s);
  }

  /** A chain has no block twice, so it has no more blocks than the disk. */
  lemma ChainIsShort(d: Disk, f: string, c: seq<int>)
    requires Shaped(d) && Linked(d, f, c)
    ensures |c| <= BLOCK_NUM
  {
    SetSize(c);
    BelowSize(BLOCK_NUM);
    SubsetSize(Set(c), Below(BLOCK_NUM));
  }
}
