/** The operations of kernel/fs.c on the blocks of a file, and one transaction of filewrite. */
module FileOps {
  import opened Basics
  import opened BlockBits
  import opened FileBlocks
  import opened Options
  import opened Sets

  const IPB: nat := 8
  const MAXOPBLOCKS: nat := 10

  /** The most that filewrite puts into one transaction. */
  const CHUNK: nat := ((MAXOPBLOCKS - 1 - 1 - 2) / 2) * 512

  /** Refused is the return value -1; OutOfBlocks is a panic. */
  datatype Outcome = Done | Refused | OutOfBlocks

  ghost predicate Full(lay: Layout, bm: seq<bv8>) {
    forall b: nat :: b < lay.size ==> Used(bm, b)
  }

  // ---- What bmap may change

  /** Sizes and all other inodes stay. */
  ghost predicate Grown(s: State, s': State, i: nat) {
    && |s'.inodes| == |s.inodes| && (forall j :: 0 <= j < |s.inodes| ==> s'.inodes[j].size == s.inodes[j].size)
    && (forall j :: 0 <= j < |s.inodes| && j != i ==> s'.inodes[j] == s.inodes[j])
  }

  ghost predicate KeptBut(s: State, s': State, i: nat, n: nat) {
    forall j: nat, m: nat :: (j, m) != (i, n) ==> Kept(s, s', j, m)
  }

  /** Slot bn of inode i is filled, with a zeroed block if it was empty, and no other slot has changed. */
  ghost predicate Mapped(lay: Layout, s: State, s': State, owner': map<nat, (nat, nat)>, i: nat, bn: nat, addr: nat) {
    && Inv(lay, s', owner') && Grown(s, s', i) && KeptBut(s, s', i, bn)
    && addr != 0 && At(s', i, bn) == addr
    && (At(s, i, bn) != 0 ==> s' == s)
    && (At(s, i, bn) == 0 ==> BlockOf(s', i, bn) == Zeros())
  }

  lemma FilledMapped(lay: Layout, s: State, owner: map<nat, (nat, nat)>, i: nat, n: nat, b: nat)
    requires Inv(lay, s, owner) && Fillable(lay, s, owner, i, n, b)
    ensures Mapped(lay, s, Filled(lay, s, owner, i, n, b), owner[b := (i, n)], i, n, b)
  {
    var s' := Filled(lay, s, owner, i, n, b);
    FilledInv(lay, s, owner, i, n, b);
    forall j: nat, m: nat | (j, m) != (i, n) ensures Kept(s, s', j, m) {
      FilledKept(lay, s, owner, i, n, b, j, m);
    }
    SlottedAt(lay, s, owner, i, n, b, i, n);
    IndirectThere(lay, s, owner, i, n, b);
  }

  lemma MappedAgain(lay: Layout, s: State, s1: State, s2: State, o1: map<nat, (nat, nat)>, o2: map<nat, (nat, nat)>,
                    i: nat, n: nat, b: nat, c: nat)
    requires Mapped(lay, s, s1, o1, i, MAXFILE, b) && Mapped(lay, s1, s2, o2, i, n, c) && n < MAXFILE
      && At(s1, i, n) == 0
    ensures Mapped(lay, s, s2, o2, i, n, c)
  {
    forall j: nat, m: nat | (j, m) != (i, n) ensures Kept(s, s2, j, m) {
      if (j, m) != (i, MAXFILE) { assert Kept(s, s1, j, m); }
      assert Kept(s1, s2, j, m);
    }
    assert Kept(s, s1, i, n);
  }

  /** Without an indirect block there is nothing behind the direct ones. */
  lemma NoSlotWithout(s: State, i: nat, bn: nat)
    requires i < |s.inodes| && NDIRECT <= bn < MAXFILE && At(s, i, MAXFILE) == 0
    ensures At(s, i, bn) == 0
  {}

  /** What the indirect block lists, once it is there. */
  lemma ThroughIndirect(lay: Layout, s: State, s1: State, o1: map<nat, (nat, nat)>, i: nat, bn: nat, ind: nat)
    requires Mapped(lay, s, s1, o1, i, MAXFILE, ind) && i < |s1.inodes| && NDIRECT <= bn < MAXFILE
    requires ind < |s1.blocks| && |s1.blocks[ind]| == BSIZE
    ensures Load(s1.blocks[ind], bn - NDIRECT) == At(s1, i, bn)
    ensures At(s1, i, bn) == 0 ==> At(s, i, bn) == 0
    ensures At(s1, i, bn) != 0 ==> s1 == s
  {
    assert Kept(s, s1, i, bn);
    if At(s, i, MAXFILE) == 0 { assert s1.blocks[ind] == Zeros(); }
  }

  // ---- What one block of a write changes

  function Overlay(b: Block, o: nat, piece: seq<Byte>): (r: Block)
    requires o + |piece| <= |b|
    ensures |r| == |b|
    ensures forall x :: 0 <= x < |b| ==> r[x] == if o <= x < o + |piece| then piece[x - o] else b[x]
  {
    b[..o] + piece + b[o + |piece|..]
  }

  /** The block of the file as it was, or a zeroed one. */
  function Base(s: State, i: nat, n: nat): Block {
    if At(s, i, n) != 0 then BlockOf(s, i, n) else Zeros()
  }

  /** The piece laid over block n of the file at o, and nothing else changed. */
  ghost predicate BlockPut(s: State, s': State, i: nat, n: nat, o: nat, piece: seq<Byte>) {
    && Grown(s, s', i) && KeptBut(s, s', i, n) && At(s', i, n) != 0
    && |Base(s, i, n)| == BSIZE && o + |piece| <= BSIZE && BlockOf(s', i, n) == Overlay(Base(s, i, n), o, piece)
    && (At(s, i, n) != 0 ==> s'.inodes == s.inodes)
  }

  lemma PutBlock(lay: Layout, s: State, s1: State, owner: map<nat, (nat, nat)>, i: nat, n: nat, o: nat,
                 piece: seq<Byte>, a: nat)
    requires Mapped(lay, s, s1, owner, i, n, a) && n < MAXFILE && o + |piece| <= BSIZE
    ensures a < |s1.blocks| && |s1.blocks[a]| == BSIZE
    ensures var s2 := Written(s1, a, Overlay(s1.blocks[a], o, piece));
      && Inv(lay, s2, owner) && BlockPut(s, s2, i, n, o, piece)
      && At(s2, i, n) == a && At(s2, i, MAXFILE) == At(s1, i, MAXFILE)
  {
    InRange(lay, s1, owner, i, n);
    var blk := Overlay(s1.blocks[a], o, piece);
    var s2 := Written(s1, a, blk);
    WrittenInv(lay, s1, owner, i, n, blk);
    forall j: nat, m: nat | (j, m) != (i, n) ensures Kept(s, s2, j, m) {
      WrittenAt(lay, s1, owner, i, n, blk, j, m);
      assert Kept(s, s1, j, m);
    }
    WrittenAt(lay, s1, owner, i, n, blk, i, n);
    WrittenAt(lay, s1, owner, i, n, blk, i, MAXFILE);
    assert s1.blocks[a] == Base(s, i, n);
  }

  // ---- A write, block by block

  ghost predicate Touched(off: nat, tot: nat, m: nat) {
    tot > 0 && off / BSIZE <= m <= (off + tot - 1) / BSIZE
  }

  /** Block m is there if it was, or if the write has come to it. */
  ghost predicate Reached(s0: State, s: State, i: nat, end: nat, m: nat) {
    m < MAXFILE && (At(s0, i, m) != 0 || m * BSIZE < end) ==> At(s, i, m) != 0
  }

  /** Byte k of the file is the one written, or the one that was there. */
  ghost predicate ByteOk(s0: State, s: State, i: nat, off: nat, src: seq<Byte>, tot: nat, k: nat)
    requires i < |s0.inodes| && tot <= |src|
  {
    && (off <= k < off + tot ==> ByteAt(s, i, k) == src[k - off])
    && (k < s0.inodes[i].size && !(off <= k < off + tot) ==> ByteAt(s, i, k) == ByteAt(s0, i, k))
  }

  ghost predicate AllReached(s0: State, s: State, i: nat, end: nat) {
    forall m: nat :: Reached(s0, s, i, end, m)
  }

  ghost predicate AllBytesOk(s0: State, s: State, i: nat, off: nat, src: seq<Byte>, tot: nat)
    requires i < |s0.inodes| && tot <= |src|
  {
    forall k: nat :: ByteOk(s0, s, i, off, src, tot, k)
  }

  /** The first tot bytes of src are in place and nothing else has changed. */
  ghost predicate Progress(s0: State, s: State, i: nat, off: nat, src: seq<Byte>, tot: nat)
    requires i < |s0.inodes| && tot <= |src|
  {
    && Grown(s0, s, i)
    && (forall j: nat, m: nat :: !(j == i && Touched(off, tot, m)) ==> Kept(s0, s, j, m))
    && AllReached(s0, s, i, off + tot) && AllBytesOk(s0, s, i, off, src, tot)
    && (off + tot <= s0.inodes[i].size ==> s.inodes == s0.inodes)
  }

  lemma ProgressStart(s: State, i: nat, off: nat, src: seq<Byte>)
    requires i < |s.inodes| && off <= s.inodes[i].size && NoHole(s, i)
    ensures Progress(s, s, i, off, src, 0)
  {
    forall m: nat ensures Reached(s, s, i, off, m) {
      assert There(s, i, m);
    }
  }

  lemma ByteStep(s0: State, s: State, s': State, i: nat, off: nat, src: seq<Byte>, tot: nat, m: nat, k: nat)
    requires i < |s0.inodes| && tot + m <= |src| && off + tot + m <= MAXFILE * BSIZE
      && s0.inodes[i].size <= MAXFILE * BSIZE
    requires BlockPut(s, s', i, (off + tot) / BSIZE, (off + tot) % BSIZE, src[tot..tot + m])
    requires NoHole(s0, i) && ByteOk(s0, s, i, off, src, tot, k) && Reached(s0, s, i, off + tot, k / BSIZE)
    ensures ByteOk(s0, s', i, off, src, tot + m, k)
  {
    var n := (off + tot) / BSIZE;
    assert There(s0, i, k / BSIZE);
    assert k / BSIZE * BSIZE <= k;
    if k / BSIZE == n {
      assert k - (off + tot) == k % BSIZE - (off + tot) % BSIZE;
    } else {
      assert Kept(s, s', i, k / BSIZE);
    }
  }

  lemma ProgressStep(s0: State, s: State, s': State, i: nat, off: nat, src: seq<Byte>, tot: nat, m: nat)
    requires i < |s0.inodes| && tot + m <= |src| && off + tot + m <= MAXFILE * BSIZE
      && s0.inodes[i].size <= MAXFILE * BSIZE
    requires Progress(s0, s, i, off, src, tot)
      && BlockPut(s, s', i, (off + tot) / BSIZE, (off + tot) % BSIZE, src[tot..tot + m])
    requires 0 < m && (off + tot) % BSIZE + m <= BSIZE && NoHole(s0, i)
    ensures Progress(s0, s', i, off, src, tot + m)
  {
    var bn, tot', end := (off + tot) / BSIZE, tot + m, off + tot + m;
    forall k: nat ensures ByteOk(s0, s', i, off, src, tot', k) {
      assert ByteOk(s0, s, i, off, src, tot, k) && Reached(s0, s, i, off + tot, k / BSIZE);
      ByteStep(s0, s, s', i, off, src, tot, m, k);
    }
    forall j: nat, n: nat | !(j == i && Touched(off, tot + m, n)) ensures Kept(s0, s', j, n) {
      TouchedMore(off, tot, m, n);
      assert Kept(s0, s, j, n) && Kept(s, s', j, n);
    }
    forall n: nat ensures Reached(s0, s', i, end, n) {
      assert Reached(s0, s, i, off + tot, n);
      if n != bn { assert Kept(s, s', i, n); }
    }
    assert There(s0, i, bn) && Reached(s0, s, i, off + tot, bn);
  }

  lemma TouchedMore(off: nat, tot: nat, m: nat, n: nat)
    requires 0 < m && (off + tot) % BSIZE + m <= BSIZE
    ensures Touched(off, tot, n) ==> Touched(off, tot + m, n)
    ensures Touched(off, tot + m, (off + tot) / BSIZE)
  {}

  /** How many blocks a write of n bytes at off touches. */
  function Spanned(off: nat, n: nat): nat {
    if n == 0 then 0 else (off + n - 1) / BSIZE - off / BSIZE + 1
  }

  lemma SpannedNext(off: nat, tot: nat, m: nat)
    requires 0 < m && (off + tot) % BSIZE + m <= BSIZE && (tot > 0 ==> (off + tot) % BSIZE == 0)
    ensures Spanned(off, tot + m) == Spanned(off, tot) + 1
  {}

  /** How many bitmap blocks such a write can log: one for each block it may have to allocate. */
  function Allocations(off: nat, n: nat): nat {
    if n == 0 then 0 else Spanned(off, n) - (if off % BSIZE != 0 then 1 else 0) + 1
  }

  /** One transaction of filewrite stays within what begin_op reserves. */
  lemma ChunkFits(off: nat, n: nat)
    requires n <= CHUNK
    ensures Spanned(off, n) + 2 + Allocations(off, n) <= MAXOPBLOCKS
    ensures Spanned(off, n) + 3 <= 7
  {}

  ghost function Spliced(c: seq<Byte>, off: nat, src: seq<Byte>): seq<Byte>
    requires off <= |c|
  {
    c[..off] + src + if off + |src| < |c| then c[off + |src|..] else []
  }

  /** The size set to where the write ended. */
  function Resized(s: State, i: nat, size: nat): State
    requires i < |s.inodes|
  {
    s.(inodes := s.inodes[i := s.inodes[i].(size := size)])
  }

  lemma ResizedAt(s: State, i: nat, size: nat, j: nat, m: nat)
    requires i < |s.inodes|
    ensures At(Resized(s, i, size), j, m) == At(s, j, m) && BlockOf(Resized(s, i, size), j, m) == BlockOf(s, j, m)
  {}

  lemma ResizedInv(lay: Layout, s0: State, s: State, owner: map<nat, (nat, nat)>, i: nat, off: nat, src: seq<Byte>)
    requires i < |s0.inodes| && Progress(s0, s, i, off, src, |src|) && off + |src| <= MAXFILE * BSIZE
      && Inv(lay, s, owner)
    ensures Inv(lay, Resized(s, i, Max(s0.inodes[i].size, off + |src|)), owner)
  {
    var size := Max(s0.inodes[i].size, off + |src|);
    var s' := Resized(s, i, size);
    forall j: nat, m: nat ensures SlotOk(lay, s', owner, j, m) && There(s', j, m) {
      ResizedAt(s, i, size, j, m);
      assert SlotOk(lay, s, owner, j, m) && NoHole(s, j) && There(s, j, m) && Reached(s0, s, i, off + |src|, m);
    }
    forall b: nat ensures OwnerOk(s', owner, b) {
      assert OwnerOk(s, owner, b);
      if b in owner { ResizedAt(s, i, size, owner[b].0, owner[b].1); }
    }
  }

  lemma SplicedContents(s0: State, s: State, i: nat, off: nat, src: seq<Byte>)
    requires i < |s0.inodes| && Progress(s0, s, i, off, src, |src|) && off <= s0.inodes[i].size
    ensures Contents(Resized(s, i, Max(s0.inodes[i].size, off + |src|)), i) == Spliced(Contents(s0, i), off, src)
  {
    var s' := Resized(s, i, Max(s0.inodes[i].size, off + |src|));
    var c, c' := Spliced(Contents(s0, i), off, src), Contents(s', i);
    assert |c| == |c'|;
    forall k: nat | k < |c| ensures c'[k] == c[k] {
      ResizedAt(s, i, Max(s0.inodes[i].size, off + |src|), i, k / BSIZE);
      assert ByteOk(s0, s, i, off, src, |src|, k);
    }
  }

  lemma OtherContents(s0: State, s: State, i: nat, off: nat, src: seq<Byte>, j: nat)
    requires i < |s0.inodes| && Progress(s0, s, i, off, src, |src|) && j < |s0.inodes| && j != i
    requires NoHole(s0, j) && s0.inodes[j].size <= MAXFILE * BSIZE
    ensures Contents(Resized(s, i, Max(s0.inodes[i].size, off + |src|)), j) == Contents(s0, j)
  {
    var s' := Resized(s, i, Max(s0.inodes[i].size, off + |src|));
    forall k: nat | k < s0.inodes[j].size ensures ByteAt(s', j, k) == ByteAt(s0, j, k) {
      ResizedAt(s, i, Max(s0.inodes[i].size, off + |src|), j, k / BSIZE);
      assert k / BSIZE * BSIZE <= k;
      assert There(s0, j, k / BSIZE) && Kept(s0, s, j, k / BSIZE);
    }
  }

  /** The result of a complete write: the bytes spliced in, and every other file as it was. */
  lemma WriteDone(lay: Layout, s0: State, o0: map<nat, (nat, nat)>, s: State, owner: map<nat, (nat, nat)>, i: nat,
                  off: nat, src: seq<Byte>)
    requires i < |s0.inodes| && Progress(s0, s, i, off, src, |src|) && off <= s0.inodes[i].size
    requires off + |src| <= MAXFILE * BSIZE && Inv(lay, s0, o0) && Inv(lay, s, owner)
    ensures Wrote(lay, s0, Resized(s, i, Max(s0.inodes[i].size, off + |src|)), owner, i, off, src)
  {
    var s' := Resized(s, i, Max(s0.inodes[i].size, off + |src|));
    ResizedInv(lay, s0, s, owner, i, off, src);
    SplicedContents(s0, s, i, off, src);
    forall j: nat | j < |s0.inodes| && j != i
      ensures s'.inodes[j] == s0.inodes[j] && Contents(s', j) == Contents(s0, j) {
      assert NoHole(s0, j);
      OtherContents(s0, s, i, off, src, j);
    }
  }

  // ---- What an operation logs

  /** Bitmap blocks of the layout. */
  ghost predicate InMap(lay: Layout, maps: set<nat>) {
    forall x :: x in maps ==> lay.bmapstart <= x <= lay.bmapstart + (lay.size - 1) / BPB
  }

  lemma OneMap(lay: Layout, maps: set<nat>)
    requires InMap(lay, maps) && 0 < lay.size <= BPB
    ensures |maps| <= 1
  {
    assert maps <= {lay.bmapstart};
    SubsetSize(maps, {lay.bmapstart});
  }

  lemma UnionSize(log: set<nat>, log': set<nat>, a: set<nat>, b: set<nat>, c: set<nat>)
    requires log' <= log + a + b + c
    ensures |log' - log| <= |a| + |b| + |c|
  {
    SubsetSize(log' - log, a + b + c);
  }

  /** The log of a write so far: data blocks, the indirect block, bitmap blocks. */
  ghost predicate Logs(lay: Layout, s0: State, s: State, i: nat, log: set<nat>, log': set<nat>, data: set<nat>,
                       ind: set<nat>, maps: set<nat>, n: nat, unaligned: bool) {
    && log' <= log + data + ind + maps && InMap(lay, maps)
    && |data| <= n && |ind| <= 1 && (ind != {} ==> ind == {At(s, i, MAXFILE)} && At(s, i, MAXFILE) != 0)
    && |maps| + (if unaligned && n > 0 then 1 else 0) <= n
       + (if At(s0, i, MAXFILE) == 0 && At(s, i, MAXFILE) != 0 then 1 else 0)
  }

  /** What one block adds to the log. */
  ghost predicate LogsBlock(lay: Layout, s: State, s': State, i: nat, bn: nat, log: set<nat>, log': set<nat>,
                            maps: set<nat>) {
    && InMap(lay, maps)
    && log' <= log + {At(s', i, bn)} + (if bn >= NDIRECT then {At(s', i, MAXFILE)} else {}) + maps
    && (bn >= NDIRECT ==> At(s', i, MAXFILE) != 0)
    && |maps| <= (if At(s, i, bn) == 0 then 1 else 0)
       + (if At(s, i, MAXFILE) == 0 && At(s', i, MAXFILE) != 0 then 1 else 0)
    && (bn < NDIRECT ==> |maps| <= if At(s, i, bn) == 0 then 1 else 0)
  }

  /** What a write of n bytes at off has logged, by kinds of blocks: data blocks, the indirect block,
      bitmap blocks, and the block of the inode. A write to the direct blocks logs no indirect block,
      and one within the size of the file logs data blocks only. */
  datatype Parts = Parts(data: set<nat>, ind: set<nat>, maps: set<nat>)

  ghost predicate LogsAs(lay: Layout, log: set<nat>, log': set<nat>, size: nat, off: nat, n: nat, inode: nat,
                         p: Parts) {
    && log' <= log + p.data + p.ind + p.maps + {inode} && InMap(lay, p.maps)
    && |p.data| <= Spanned(off, n) && |p.ind| <= 1 && |p.maps| <= Allocations(off, n)
    && (n > 0 ==> p.data != {}) && (forall b :: b in p.data ==> lay.nmeta <= b)
    && (off + n <= NDIRECT * BSIZE ==> p.ind == {} && |p.maps| + Unaligned(off, n) <= Spanned(off, n))
    && (off + n <= size ==> log' == log + p.data)
  }

  /** The first block of a write that starts within a block is there. */
  function Unaligned(off: nat, n: nat): nat {
    if off % BSIZE != 0 && n > 0 then 1 else 0
  }

  /** A block behind the indirect one logs itself, the indirect block and its bit. */
  lemma BothLogged(lay: Layout, s: State, s1: State, s2: State, i: nat, bn: nat, log: set<nat>, log1: set<nat>,
                   log2: set<nat>,
                   maps: set<nat>, bit: nat)
    requires NDIRECT <= bn < MAXFILE && At(s, i, bn) == 0 && At(s1, i, MAXFILE) != 0
    requires Kept(s1, s2, i, MAXFILE) && Kept(s, s1, i, bn)
    requires InMap(lay, maps) && InMap(lay, {bit}) && |maps| <= (if At(s, i, MAXFILE) == 0 then 1 else 0)
    requires log1 <= log + {At(s1, i, MAXFILE)} + maps
    requires log2 == log1 + {bit, At(s2, i, bn)} + {At(s2, i, MAXFILE)}
    ensures LogsBlock(lay, s, s2, i, bn, log, log2, maps + {bit})
  {
    SumSize(maps, {bit});
  }

  /** Logging the block itself once more adds nothing. */
  lemma PutLogs(lay: Layout, s: State, s1: State, s2: State, i: nat, bn: nat, log: set<nat>, log1: set<nat>,
                maps: set<nat>)
    requires LogsBlock(lay, s, s1, i, bn, log, log1, maps) && At(s2, i, bn) == At(s1, i, bn)
      && At(s2, i, MAXFILE) == At(s1, i, MAXFILE)
    ensures LogsBlock(lay, s, s2, i, bn, log, log1 + {At(s1, i, bn)}, maps)
  {}

  lemma LogsTogether(log0: set<nat>, log: set<nat>, log': set<nat>, data: set<nat>, ind: set<nat>, maps: set<nat>,
                     d: set<nat>, e: set<nat>, ind': set<nat>, more: set<nat>)
    requires log <= log0 + data + ind + maps && log' <= log + d + e + more && ind <= ind' && e <= ind'
    ensures log' <= log0 + (data + d) + ind' + (maps + more)
  {}

  lemma LogsNext(lay: Layout, s0: State, s: State, s': State, i: nat, bn: nat, log0: set<nat>, log: set<nat>,
                 log': set<nat>,
                 data: set<nat>, ind: set<nat>, maps: set<nat>, more: set<nat>, n: nat, unaligned: bool)
    requires Logs(lay, s0, s, i, log0, log, data, ind, maps, n, unaligned)
    requires LogsBlock(lay, s, s', i, bn, log, log', more) && Kept(s, s', i, MAXFILE) && Kept(s0, s, i, MAXFILE)
    requires unaligned && n == 0 ==> At(s, i, bn) != 0
    ensures Logs(lay, s0, s', i, log0, log', data + {At(s', i, bn)},
                 if bn >= NDIRECT then {At(s', i, MAXFILE)} else ind, maps + more, n + 1, unaligned)
  {
    var d, e := {At(s', i, bn)}, if bn >= NDIRECT then {At(s', i, MAXFILE)} else {};
    var ind' := if bn >= NDIRECT then {At(s', i, MAXFILE)} else ind;
    SumSize(data, d);
    SumSize(maps, more);
    assert ind <= ind' by { if ind != {} { assert At(s', i, MAXFILE) == At(s, i, MAXFILE); } }
    LogsTogether(log0, log, log', data, ind, maps, d, e, ind', more);
  }

  // ---- The code

  class Files {
    const lay: Layout
    var bm: seq<bv8>
    var blocks: seq<Block>
    var inodes: seq<Inode>
    /** The inodes as they are on disk. */
    var dinodes: seq<Inode>
    ghost var owner: map<nat, (nat, nat)>
    /** The blocks that the running operation has passed to log_write. */
    ghost var logged: set<nat>
    /** What each finished operation has logged. */
    ghost var txns: seq<set<nat>>

    ghost function Now(): State
      reads this
    {
      State(bm, blocks, inodes)
    }

    ghost predicate Ok()
      reads this
    {
      Inv(lay, Now(), owner)
    }

    function BBlock(b: nat): nat {
      MapOf(lay, b)
    }

    function IBlock(i: nat): nat {
      i / IPB + lay.inodestart
    }

    /** The inner loop of balloc: the first clear bit of bitmap block q. */
    method ScanBlock(q: nat) returns (bi: Option<nat>)
      requires lay.size <= 8 * |bm|
      ensures bi.Some? ==>
        && bi.value < BPB && q * BPB + bi.value < lay.size && !Used(bm, q * BPB + bi.value)
        && forall c: nat :: q * BPB <= c < q * BPB + bi.value ==> Used(bm, c)
      ensures bi == None ==> forall c: nat :: q * BPB <= c < (q + 1) * BPB && c < lay.size ==> Used(bm, c)
    {
      var k := 0;
      while k < BPB && q * BPB + k < lay.size
        invariant 0 <= k <= BPB
        invariant forall c: nat :: q * BPB <= c < q * BPB + k ==> Used(bm, c)
        decreases BPB - k
      {
        InBlock(q, k);
        if bm[q * (BPB / 8) + k / 8] & Mask(k % 8) == 0 {
          return Some(k);
        }
        k := k + 1;
      }
      bi := None;
    }

    /** The block of bit k of bitmap block q is marked in use and zeroed. */
    method Take(q: nat, k: nat) returns (c: nat)
      requires |blocks| == lay.size <= 8 * |bm| && k < BPB && q * BPB + k < lay.size
      modifies `bm, `blocks, `logged
      ensures c == q * BPB + k && Now() == Allocated(old(Now()), c) && logged == old(logged) + {BBlock(c), c}
    {
      c := q * BPB + k;
      InBlock(q, k);
      bm := bm[q * (BPB / 8) + k / 8 := bm[q * (BPB / 8) + k / 8] | Mask(k % 8)];
      logged := logged + {BBlock(c)};
      Bzero(c);
    }

    /** balloc: the first free block, zeroed; panics if there is none. */
    method Balloc() returns (b: Option<nat>)
      requires |blocks| == lay.size <= 8 * |bm|
      modifies `bm, `blocks, `logged
      ensures b.Some? ==>
        && b.value < lay.size && b.value / 8 < |old(bm)| && !Used(old(bm), b.value)
        && (forall c: nat :: c < b.value ==> Used(old(bm), c))
        && Now() == Allocated(old(Now()), b.value)
        && logged == old(logged) + {BBlock(b.value), b.value}
      ensures b == None <==> Full(lay, old(bm))
      ensures b == None ==> Now() == old(Now()) && logged == old(logged)
    {
      var q := 0;
      while q * BPB < lay.size
        invariant Now() == old(Now()) && logged == old(logged)
        invariant forall c: nat :: c < q * BPB && c < lay.size ==> Used(bm, c)
        decreases lay.size - q * BPB
      {
        var bi := ScanBlock(q);
        if bi.Some? {
          var c := Take(q, bi.value);
          return Some(c);
        }
        q := q + 1;
      }
      b := None;
    }

    method Bzero(b: nat)
      requires b < |blocks|
      modifies `blocks, `logged
      ensures blocks == old(blocks)[b := Zeros()] && logged == old(logged) + {b}
    {
      blocks := blocks[b := Zeros()];
      logged := logged + {b};
    }

    /** bfree: panics unless the block is in use. */
    method Bfree(b: nat)
      requires b / 8 < |bm| && Used(bm, b)
      modifies `bm, `logged
      ensures |bm| == |old(bm)| && logged == old(logged) + {BBlock(b)}
      ensures forall c: nat :: Used(bm, c) <==> c != b && Used(old(bm), c)
    {
      ClearOnly(bm, b);
      bm := Clear(bm, b);
      logged := logged + {BBlock(b)};
    }

    /** balloc into an empty slot. */
    method AllocSlot(i: nat, n: nat) returns (addr: Option<nat>)
      requires Ok() && i < |inodes| && n <= MAXFILE && At(Now(), i, n) == 0
      requires NDIRECT <= n < MAXFILE ==> At(Now(), i, MAXFILE) != 0
      modifies `bm, `blocks, `inodes, `owner, `logged
      ensures addr.Some? ==>
        && Mapped(lay, old(Now()), Now(), owner, i, n, addr.value)
        && logged == old(logged) + {BBlock(addr.value), addr.value} +
             (if NDIRECT <= n < MAXFILE then {At(Now(), i, MAXFILE)} else {})
        && addr.value < lay.size
      ensures addr == None ==> Full(lay, bm)
    {
      ghost var s, o := Now(), owner;
      addr := Balloc();
      if addr == None {
        return;
      }
      var b := addr.value;
      assert MarkOk(lay, s.bm, o, b);
      assert Fillable(lay, s, o, i, n, b);
      IndirectThere(lay, s, o, i, n, b);
      FilledMapped(lay, s, o, i, n, b);
      if n < NDIRECT {
        inodes := inodes[i := inodes[i].(addrs := inodes[i].addrs[n := b])];
      } else if n == MAXFILE {
        inodes := inodes[i := inodes[i].(addrs := inodes[i].addrs[NDIRECT := b])];
      } else {
        var a := inodes[i].addrs[NDIRECT];
        blocks := blocks[a := Store(blocks[a], n - NDIRECT, b)];
        logged := logged + {a};
        assert At(s, i, MAXFILE) == a;
      }
      owner := owner[b := (i, n)];
      assert Now() == Filled(lay, s, o, i, n, b);
    }

    /** The part of bmap that finds the indirect block. */
    method LoadIndirect(i: nat) returns (ind: Option<nat>, ghost maps: set<nat>)
      requires Ok() && i < |inodes|
      modifies `bm, `blocks, `inodes, `owner, `logged
      ensures ind.Some? ==>
        && Mapped(lay, old(Now()), Now(), owner, i, MAXFILE, ind.value) && ind.value < |blocks|
           && |blocks[ind.value]| == BSIZE
        && InMap(lay, maps) && logged <= old(logged) + {ind.value} + maps
        && |maps| <= (if At(old(Now()), i, MAXFILE) == 0 then 1 else 0)
        && (At(old(Now()), i, MAXFILE) != 0 ==> logged == old(logged))
      ensures ind == None ==> Full(lay, bm) && At(old(Now()), i, MAXFILE) == 0
    {
      maps := {};
      ind := Some(inodes[i].addrs[NDIRECT]);
      if ind.value == 0 {
        ind := AllocSlot(i, MAXFILE);
        if ind.Some? { maps := {BBlock(ind.value)}; }
      }
      if ind.Some? {
        assert ind.value == At(Now(), i, MAXFILE);
        InRange(lay, Now(), owner, i, MAXFILE);
      }
    }

    method MapDirect(i: nat, bn: nat) returns (addr: Option<nat>, ghost maps: set<nat>)
      requires Ok() && i < |inodes| && bn < NDIRECT
      modifies `bm, `blocks, `inodes, `owner, `logged
      ensures addr.Some? ==>
        && Mapped(lay, old(Now()), Now(), owner, i, bn, addr.value)
        && LogsBlock(lay, old(Now()), Now(), i, bn, old(logged), logged, maps)
        && (At(old(Now()), i, bn) != 0 ==> logged == old(logged))
      ensures addr == None ==> Full(lay, bm) && At(old(Now()), i, bn) == 0
    {
      maps := {};
      addr := Some(inodes[i].addrs[bn]);
      if addr.value == 0 {
        assert At(Now(), i, bn) == 0;
        ghost var s := Now();
        addr := AllocSlot(i, bn);
        if addr.Some? {
          maps := {BBlock(addr.value)};
          assert Kept(s, Now(), i, MAXFILE);
        }
      }
    }

    method MapIndirect(i: nat, bn: nat) returns (addr: Option<nat>, ghost maps: set<nat>)
      requires Ok() && i < |inodes| && NDIRECT <= bn < MAXFILE
      modifies `bm, `blocks, `inodes, `owner, `logged
      ensures addr.Some? ==>
        && Mapped(lay, old(Now()), Now(), owner, i, bn, addr.value)
        && LogsBlock(lay, old(Now()), Now(), i, bn, old(logged), logged, maps)
        && (At(old(Now()), i, bn) != 0 ==> logged == old(logged))
      ensures addr == None ==> Full(lay, bm) && At(old(Now()), i, bn) == 0
    {
      ghost var s, log := Now(), logged;
      var ind;
      ind, maps := LoadIndirect(i);
      if ind == None {
        NoSlotWithout(s, i, bn);
        return None, maps;
      }
      ghost var s1, o1, log1 := Now(), owner, logged;
      addr := Some(Load(blocks[ind.value], bn - NDIRECT));
      ThroughIndirect(lay, s, s1, o1, i, bn, ind.value);
      if addr.value == 0 {
        addr := AllocSlot(i, bn);
        if addr.Some? {
          MappedAgain(lay, s, s1, Now(), o1, owner, i, bn, ind.value, addr.value);
          BothLogged(lay, s, s1, Now(), i, bn, log, log1, logged, maps, BBlock(addr.value));
          maps := maps + {BBlock(addr.value)};
        }
      }
    }

    /** bmap: the block of the file, allocated if it is not there. */
    method Bmap(i: nat, bn: nat) returns (addr: Option<nat>, ghost maps: set<nat>)
      requires Ok() && i < |inodes| && bn < MAXFILE
      modifies `bm, `blocks, `inodes, `owner, `logged
      ensures addr.Some? ==>
        && Mapped(lay, old(Now()), Now(), owner, i, bn, addr.value)
        && LogsBlock(lay, old(Now()), Now(), i, bn, old(logged), logged, maps)
        && (At(old(Now()), i, bn) != 0 ==> logged == old(logged))
      ensures addr == None ==> Full(lay, bm) && At(old(Now()), i, bn) == 0
    {
      if bn < NDIRECT {
        addr, maps := MapDirect(i, bn);
      } else {
        addr, maps := MapIndirect(i, bn);
      }
    }

    /** One block of a write. */
    method WriteBlock(i: nat, n: nat, o: nat, piece: seq<Byte>) returns (ok: bool, ghost maps: set<nat>)
      requires Ok() && i < |inodes| && n < MAXFILE && o + |piece| <= BSIZE
      modifies `bm, `blocks, `inodes, `owner, `logged
      ensures ok ==>
        && Ok() && BlockPut(old(Now()), Now(), i, n, o, piece)
        && LogsBlock(lay, old(Now()), Now(), i, n, old(logged), logged, maps)
        && (At(old(Now()), i, n) != 0 ==> logged == old(logged) + {At(Now(), i, n)})
      ensures !ok ==> Full(lay, bm) && At(old(Now()), i, n) == 0
    {
      ghost var s, log := Now(), logged;
      var addr;
      addr, maps := Bmap(i, n);
      if addr == None {
        return false, maps;
      }
      ghost var s1 := Now();
      PutBlock(lay, s, s1, owner, i, n, o, piece, addr.value);
      ghost var s2 := Written(s1, addr.value, Overlay(s1.blocks[addr.value], o, piece));
      PutLogs(lay, s, s1, s2, i, n, log, logged, maps);
      blocks := blocks[addr.value := Overlay(blocks[addr.value], o, piece)];
      logged := logged + {addr.value};
      assert Now() == s2;
      ok := true;
    }

    /** iupdate: the inode in memory copied to the disk. */
    method Iupdate(i: nat)
      requires i < |inodes| == |dinodes|
      modifies `dinodes, `logged
      ensures dinodes == old(dinodes)[i := inodes[i]] && logged == old(logged) + {IBlock(i)}
    {
      dinodes := dinodes[i := inodes[i]];
      logged := logged + {IBlock(i)};
    }

    ghost predicate Mid(i: nat, off: nat, src: seq<Byte>, tot: nat, g: Write)
      reads this
    {
      Ok() && i < |inodes| && Going(lay, Now(), i, off, src, tot, logged, g) && Sparing(lay, i, off, tot, logged, g)
    }

    /** One turn of the loop of writei, and what it adds to the log. */
    method Turn(i: nat, off: nat, src: seq<Byte>, tot: nat, ghost g: Write) returns (ok: bool, m: nat, ghost g': Write)
      requires tot < |src| && Mid(i, off, src, tot, g)
      modifies `bm, `blocks, `inodes, `owner, `logged
      ensures ok ==> 0 < m <= |src| - tot && Mid(i, off, src, tot + m, g')
      ensures g'.start == g.start && g'.log == g.log
      ensures !ok ==> Full(lay, bm) && off + |src| > g.start.inodes[i].size
    {
      ghost var s, log := Now(), logged;
      m := Min(|src| - tot, BSIZE - (off + tot) % BSIZE);
      ghost var more;
      TurnSize(off, tot, |src|, m);
      ok, more := WriteBlock(i, (off + tot) / BSIZE, (off + tot) % BSIZE, src[tot..tot + m]);
      g' := g;
      if ok {
        g' := GoingStep(lay, s, Now(), i, off, src, tot, m, log, logged, g, more);
        SparingStep(lay, s, Now(), owner, i, off, src, tot, m, log, logged, g, more);
      } else if off + |src| <= g.start.inodes[i].size {
        SparingOld(lay, s, i, off, src, tot, m, log, g);
      }
    }

    /** The loop of writei. */
    method WriteBlocks(i: nat, off: nat, src: seq<Byte>) returns (ok: bool, ghost g: Write)
      requires Ok() && i < |inodes| && off <= inodes[i].size && off + |src| <= MAXFILE * BSIZE
      modifies `bm, `blocks, `inodes, `owner, `logged
      ensures ok ==> Mid(i, off, src, |src|, g) && g.start == old(Now()) && g.log == old(logged)
      ensures !ok ==> Full(lay, bm) && off + |src| > old(inodes)[i].size
    {
      g := Write(Now(), logged, {}, {}, {});
      GoingStart(lay, Now(), owner, i, off, src, logged);
      var tot := 0;
      while tot < |src|
        invariant 0 <= tot <= |src| && Mid(i, off, src, tot, g)
        invariant g.start == old(Now()) && g.log == old(logged)
      {
        var m;
        ok, m, g := Turn(i, off, src, tot, g);
        if !ok {
          return;
        }
        tot := tot + m;
      }
      ok := true;
    }

    /** The end of writei: the inode is written only if the file has grown. */
    method Grow(i: nat, n: nat, end: nat)
      requires i < |inodes| == |dinodes|
      modifies `inodes, `dinodes, `logged
      ensures n > 0 && end > old(inodes)[i].size ==>
        && inodes == old(inodes)[i := old(inodes)[i].(size := end)] && dinodes == old(dinodes)[i := inodes[i]]
        && logged == old(logged) + {IBlock(i)}
      ensures !(n > 0 && end > old(inodes)[i].size) ==>
        inodes == old(inodes) && dinodes == old(dinodes) && logged == old(logged)
    {
      if n > 0 && end > inodes[i].size {
        inodes := inodes[i := inodes[i].(size := end)];
        Iupdate(i);
      }
    }

    /** The end of writei, with all that the write comes to. */
    method Finish(i: nat, off: nat, src: seq<Byte>, ghost g: Write, ghost o0: map<nat, (nat, nat)>)
      returns (ghost p: Parts)
      requires Inv(lay, g.start, o0) && Mid(i, off, src, |src|, g) && dinodes == g.start.inodes
      modifies `inodes, `dinodes, `logged
      ensures Wrote(lay, g.start, Now(), owner, i, off, src) && dinodes == inodes
      ensures LogBound(lay, g.log, logged, off, |src|)
      ensures i < |g.start.inodes| && LogsAs(lay, g.log, logged, g.start.inodes[i].size, off, |src|, IBlock(i), p)
    {
      p := Parts(g.data, g.ind, g.maps);
      PartsLogged(lay, Now(), i, off, src, logged, g, IBlock(i));
      ghost var s', log' := WriteEnd(lay, o0, Now(), owner, i, off, src, logged, g, IBlock(i));
      Grow(i, |src|, off + |src|);
      assert Now() == s' && logged == log';
    }

    /** writei once the range is known to be within the largest file. */
    method WriteAll(i: nat, off: nat, src: seq<Byte>) returns (ok: bool, ghost p: Parts)
      requires Ok() && dinodes == inodes && i < |inodes| && off <= inodes[i].size && off + |src| <= MAXFILE * BSIZE
      modifies `bm, `blocks, `inodes, `dinodes, `owner, `logged
      ensures ok ==>
        && Wrote(lay, old(Now()), Now(), owner, i, off, src) && dinodes == inodes
        && LogBound(lay, old(logged), logged, off, |src|)
        && LogsAs(lay, old(logged), logged, old(inodes)[i].size, off, |src|, IBlock(i), p)
      ensures !ok ==> Full(lay, bm) && off + |src| > old(inodes)[i].size
    {
      ghost var o0 := owner;
      ghost var g;
      ok, g := WriteBlocks(i, off, src);
      p := Parts({}, {}, {});
      if ok {
        p := Finish(i, off, src, g, o0);
      }
    }

    /** writei on a file that is not a device. */
    method Writei(i: nat, off: nat, src: seq<Byte>) returns (r: Outcome, ghost p: Parts)
      requires Ok() && dinodes == inodes && i < |inodes| && off < WORD && |src| < WORD
      modifies `bm, `blocks, `inodes, `dinodes, `owner, `logged
      ensures r == Refused <==> off > old(inodes)[i].size || off + |src| > MAXFILE * BSIZE
      ensures r == Refused ==>
        Now() == old(Now()) && dinodes == old(dinodes) && logged == old(logged) && owner == old(owner)
      ensures r == Done ==>
        && Wrote(lay, old(Now()), Now(), owner, i, off, src) && dinodes == inodes
        && LogBound(lay, old(logged), logged, off, |src|)
        && LogsAs(lay, old(logged), logged, old(inodes)[i].size, off, |src|, IBlock(i), p)
      ensures r == OutOfBlocks ==> Full(lay, bm) && off + |src| > old(inodes)[i].size
    {
      p := Parts({}, {}, {});
      if off > inodes[i].size || (off + |src|) % WORD < off {
        return Refused, p;
      }
      if off + |src| > MAXFILE * BSIZE {
        return Refused, p;
      }
      var ok;
      ok, p := WriteAll(i, off, src);
      r := if ok then Done else OutOfBlocks;
    }

    /** One turn of the loop of readi. */
    method ReadBlock(i: nat, k: nat, m: nat) returns (piece: seq<Byte>)
      requires Ok() && i < |inodes| && k + m <= inodes[i].size && 0 < m && k % BSIZE + m <= BSIZE
      modifies `bm, `blocks, `inodes, `owner, `logged
      ensures Now() == old(Now()) && logged == old(logged) && Ok()
      ensures piece == Contents(Now(), i)[k..k + m]
    {
      BlockThere(lay, Now(), owner, i, k);
      var addr;
      ghost var maps;
      addr, maps := Bmap(i, k / BSIZE);
      BlockBytes(Now(), i, k, m);
      piece := blocks[addr.value][k % BSIZE..k % BSIZE + m];
    }

    method ReadOn(i: nat, off: nat, len: nat, dst: seq<Byte>, tot: nat) returns (dst': seq<Byte>, tot': nat)
      requires Ok() && i < |inodes| && off + len <= inodes[i].size && tot < len
        && dst == Contents(Now(), i)[off..off + tot]
      modifies `bm, `blocks, `inodes, `owner, `logged
      ensures Now() == old(Now()) && logged == old(logged) && Ok()
      ensures tot < tot' <= len && dst' == Contents(Now(), i)[off..off + tot']
    {
      var m := Min(len - tot, BSIZE - (off + tot) % BSIZE);
      WithinBlock(off + tot, len - tot, m);
      var piece := ReadBlock(i, off + tot, m);
      Joined(Contents(Now(), i), off, off + tot, off + tot + m);
      return dst + piece, tot + m;
    }

    /** The loop of readi. */
    method ReadBlocks(i: nat, off: nat, len: nat) returns (dst: seq<Byte>)
      requires Ok() && i < |inodes| && off + len <= inodes[i].size
      modifies `bm, `blocks, `inodes, `owner, `logged
      ensures Now() == old(Now()) && logged == old(logged) && Ok()
      ensures dst == Contents(Now(), i)[off..off + len]
    {
      dst := [];
      var tot := 0;
      while tot < len
        invariant tot <= len && Ok() && Now() == old(Now()) && logged == old(logged)
        invariant dst == Contents(Now(), i)[off..off + tot]
      {
        dst, tot := ReadOn(i, off, len, dst, tot);
      }
    }

    /** readi on a file that is not a device: -1 is None. With every block below the size there,
        bmap has nothing to allocate and nothing changes. */
    method Readi(i: nat, off: nat, n: nat) returns (r: Option<seq<Byte>>)
      requires Ok() && i < |inodes| && off < WORD && n < WORD
      modifies `bm, `blocks, `inodes, `owner, `logged
      ensures Now() == old(Now()) && logged == old(logged) && Ok()
      ensures r == None <==> off > inodes[i].size || off + n >= WORD
      ensures r.Some? ==> r.value == Contents(Now(), i)[off..Min(off + n, inodes[i].size)]
    {
      if off > inodes[i].size || (off + n) % WORD < off {
        return None;
      }
      var len := if off + n > inodes[i].size then inodes[i].size - off else n;
      var dst := ReadBlocks(i, off, len);
      r := Some(dst);
    }

    /** itrunc has come to direct slot n. */
    ghost predicate FreeingDirect(i: nat, n: nat, s: State, log: set<nat>)
      reads this
    {
      && Inv(lay, s, owner) && i < |s.inodes| && n <= NDIRECT && blocks == s.blocks
      && |bm| == |s.bm| && Freed(lay, s, owner, bm, i, n) && logged == log + MapsTo(lay, owner, i, n)
      && |inodes| == |s.inodes| && inodes == s.inodes[i := inodes[i]] && |inodes[i].addrs| == NDIRECT + 1
      && (forall k :: 0 <= k < n ==> inodes[i].addrs[k] == 0)
      && (forall k :: n <= k <= NDIRECT ==> inodes[i].addrs[k] == s.inodes[i].addrs[k])
    }

    method FreeSlot(i: nat, n: nat, ghost s: State, ghost log: set<nat>)
      requires FreeingDirect(i, n, s, log) && n < NDIRECT
      modifies `bm, `inodes, `logged
      ensures FreeingDirect(i, n + 1, s, log)
    {
      var a := inodes[i].addrs[n];
      assert a == At(s, i, n);
      ghost var bm0 := bm;
      if a != 0 {
        StillUsed(lay, s, owner, bm, i, n);
        Bfree(a);
        inodes := inodes[i := inodes[i].(addrs := inodes[i].addrs[n := 0])];
      }
      FreedNext(lay, s, owner, bm0, bm, i, n);
      MapsNext(lay, s, owner, i, n);
    }

    /** The loop of itrunc over the direct slots. */
    method FreeDirect(i: nat)
      requires Ok() && i < |inodes|
      modifies `bm, `inodes, `logged
      ensures FreeingDirect(i, NDIRECT, old(Now()), old(logged))
    {
      for n := 0 to NDIRECT
        invariant FreeingDirect(i, n, old(Now()), old(logged))
      {
        FreeSlot(i, n, old(Now()), old(logged));
      }
    }

    /** The loop of itrunc over the words of the indirect block. */
    method FreeListed(i: nat, a: nat, ghost s: State, ghost log: set<nat>)
      requires Inv(lay, s, owner) && |bm| == |s.bm| && blocks == s.blocks && Freed(lay, s, owner, bm, i, NDIRECT)
      requires i < |s.inodes| && a == s.inodes[i].addrs[NDIRECT] != 0 && logged == log + MapsTo(lay, owner, i, NDIRECT)
      modifies `bm, `logged
      ensures |bm| == |s.bm| && Freed(lay, s, owner, bm, i, MAXFILE) && logged == log + MapsTo(lay, owner, i, MAXFILE)
    {
      assert a == At(s, i, MAXFILE);
      InRange(lay, s, owner, i, MAXFILE);
      for j := 0 to NINDIRECT
        invariant |bm| == |s.bm| && Freed(lay, s, owner, bm, i, NDIRECT + j)
        invariant logged == log + MapsTo(lay, owner, i, NDIRECT + j)
      {
        var c := Load(blocks[a], j);
        assert c == At(s, i, NDIRECT + j);
        ghost var bm0 := bm;
        if c != 0 {
          StillUsed(lay, s, owner, bm, i, NDIRECT + j);
          Bfree(c);
        }
        FreedNext(lay, s, owner, bm0, bm, i, NDIRECT + j);
        MapsNext(lay, s, owner, i, NDIRECT + j);
      }
    }

    /** The words of the indirect block, then the block itself. */
    method FreeList(i: nat, a: nat, ghost s: State, ghost log: set<nat>)
      requires Inv(lay, s, owner) && |bm| == |s.bm| && blocks == s.blocks && Freed(lay, s, owner, bm, i, NDIRECT)
      requires i < |s.inodes| && a == s.inodes[i].addrs[NDIRECT] != 0
      requires logged == log + MapsTo(lay, owner, i, NDIRECT)
      modifies `bm, `logged
      ensures |bm| == |s.bm| && Freed(lay, s, owner, bm, i, MAXFILE + 1)
      ensures logged == log + MapsTo(lay, owner, i, MAXFILE + 1)
    {
      assert a == At(s, i, MAXFILE);
      FreeListed(i, a, s, log);
      StillUsed(lay, s, owner, bm, i, MAXFILE);
      ghost var bm0 := bm;
      Bfree(a);
      FreedNext(lay, s, owner, bm0, bm, i, MAXFILE);
      MapsNext(lay, s, owner, i, MAXFILE);
    }

    /** The part of itrunc that frees the indirect block and what it lists. */
    method FreeIndirect(i: nat, ghost s: State, ghost log: set<nat>)
      requires Inv(lay, s, owner) && i < |inodes| && |bm| == |s.bm| && blocks == s.blocks
        && Freed(lay, s, owner, bm, i, NDIRECT)
      requires |inodes| == |s.inodes| && inodes == s.inodes[i := inodes[i]] && |inodes[i].addrs| == NDIRECT + 1
      requires inodes[i].addrs[NDIRECT] == s.inodes[i].addrs[NDIRECT] && logged == log + MapsTo(lay, owner, i, NDIRECT)
      modifies `bm, `inodes, `logged
      ensures |bm| == |s.bm| && Freed(lay, s, owner, bm, i, MAXFILE + 1)
      ensures |inodes| == |s.inodes| && inodes == s.inodes[i := inodes[i]]
      ensures inodes[i].addrs == old(inodes)[i].addrs[NDIRECT := 0]
      ensures logged == log + TruncMaps(lay, owner, i)
    {
      MapsAll(lay, s, owner, i);
      var a := inodes[i].addrs[NDIRECT];
      assert a == At(s, i, MAXFILE);
      if a == 0 {
        NoIndirect(lay, s, owner, bm, i);
        assert inodes[i].addrs == inodes[i].addrs[NDIRECT := 0];
        return;
      }
      FreeList(i, a, s, log);
      inodes := inodes[i := inodes[i].(addrs := inodes[i].addrs[NDIRECT := 0])];
    }

    /** itrunc: every block of the file is freed, none of them twice, and no other. It logs the
        bitmap blocks of those blocks and the block of the inode. */
    method Itrunc(i: nat)
      requires Ok() && dinodes == inodes && i < |inodes|
      modifies `bm, `inodes, `dinodes, `owner, `logged
      ensures Ok() && dinodes == inodes
      ensures Truncated(lay, old(Now()), old(owner), i, Now()) && owner == Others(old(owner), i)
      ensures logged == old(logged) + TruncMaps(lay, old(owner), i) + {IBlock(i)}
    {
      ghost var s, o := Now(), owner;
      FreeDirect(i);
      FreeIndirect(i, s, old(logged));
      inodes := inodes[i := inodes[i].(size := 0)];
      Iupdate(i);
      assert Truncated(lay, s, o, i, Now());
      TruncatedInv(lay, s, o, i, Now());
      owner := Others(o, i);
    }

    /** One transaction of filewrite: begin_op, writei with the inode locked, end_op. */
    method WriteChunk(i: nat, at: nat, piece: seq<Byte>) returns (r: Outcome)
      requires Ok() && dinodes == inodes && i < |inodes| && at < WORD && |piece| <= CHUNK
      modifies `bm, `blocks, `inodes, `dinodes, `owner, `logged, `txns
      ensures r == Refused <==> at > old(inodes)[i].size || at + |piece| > MAXFILE * BSIZE
      ensures r == Refused ==> Now() == old(Now()) && dinodes == old(dinodes) && owner == old(owner)
      ensures r == Done ==> Wrote(lay, old(Now()), Now(), owner, i, at, piece) && dinodes == inodes
      ensures r == OutOfBlocks ==> Full(lay, bm) && txns == old(txns)
      ensures r != OutOfBlocks ==> exists t :: WithinOp(lay, t) && txns == old(txns) + [t]
    {
      logged := {};
      ghost var p;
      r, p := Writei(i, at, piece);
      if r == OutOfBlocks {
        return;
      }
      if r == Done { ChunkWithin(lay, logged, at, |piece|); }
      txns := txns + [logged];
    }
  }

  // ---- Transactions of a file write

  ghost predicate WithinOp(lay: Layout, t: set<nat>) {
    |t| <= MAXOPBLOCKS && (lay.size <= BPB ==> |t| <= 7)
  }

  lemma SplicedTwice(c: seq<Byte>, off: nat, a: seq<Byte>, b: seq<Byte>)
    requires off <= |c|
    ensures |Spliced(c, off, a)| >= off + |a|
    ensures Spliced(Spliced(c, off, a), off + |a|, b) == Spliced(c, off, a + b)
  {}

  lemma WroteTwice(lay: Layout, s0: State, s: State, s': State, o: map<nat, (nat, nat)>, o': map<nat, (nat, nat)>,
                   i: nat, off: nat,
                   a: seq<Byte>, b: seq<Byte>)
    requires Wrote(lay, s0, s, o, i, off, a) && Wrote(lay, s, s', o', i, off + |a|, b)
    ensures Wrote(lay, s0, s', o', i, off, a + b)
  {
    SplicedTwice(Contents(s0, i), off, a, b);
    forall j: nat | j < |s0.inodes| && j != i
      ensures s'.inodes[j] == s0.inodes[j] && Contents(s', j) == Contents(s0, j) {
      assert s.inodes[j] == s0.inodes[j];
    }
  }

  // ---- Reading

  lemma BlockThere(lay: Layout, s: State, owner: map<nat, (nat, nat)>, i: nat, k: nat)
    requires Inv(lay, s, owner) && i < |s.inodes| && k < s.inodes[i].size
    ensures k / BSIZE < MAXFILE && At(s, i, k / BSIZE) != 0 && At(s, i, k / BSIZE) < |s.blocks|
      && |s.blocks[At(s, i, k / BSIZE)]| == BSIZE
  {
    assert k / BSIZE * BSIZE <= k;
    assert NoHole(s, i) && There(s, i, k / BSIZE);
    InRange(lay, s, owner, i, k / BSIZE);
  }

  /** A stretch within one block is that stretch of the contents. */
  lemma BlockBytes(s: State, i: nat, k: nat, m: nat)
    requires i < |s.inodes| && k + m <= s.inodes[i].size && k % BSIZE + m <= BSIZE
    requires At(s, i, k / BSIZE) < |s.blocks| && |s.blocks[At(s, i, k / BSIZE)]| == BSIZE
    ensures s.blocks[At(s, i, k / BSIZE)][k % BSIZE..k % BSIZE + m] == Contents(s, i)[k..k + m]
  {
    var p, q := s.blocks[At(s, i, k / BSIZE)][k % BSIZE..k % BSIZE + m], Contents(s, i)[k..k + m];
    forall x: nat | x < m ensures p[x] == q[x] {
      assert (k + x) / BSIZE == k / BSIZE && (k + x) % BSIZE == k % BSIZE + x;
    }
  }

  lemma WithinBlock(k: nat, n: nat, m: nat)
    requires 0 < n && m == Min(n, BSIZE - k % BSIZE)
    ensures 0 < m <= n && k % BSIZE + m <= BSIZE
  {}

  lemma Joined(c: seq<Byte>, x: nat, y: nat, z: nat)
    requires x <= y <= z <= |c|
    ensures c[x..y] + c[y..z] == c[x..z]
  {}

  // ---- Freeing slot after slot

  lemma StillUsed(lay: Layout, s: State, owner: map<nat, (nat, nat)>, bm: seq<bv8>, i: nat, n: nat)
    requires Inv(lay, s, owner) && At(s, i, n) != 0 && Freed(lay, s, owner, bm, i, n) && |bm| == |s.bm|
    ensures Used(bm, At(s, i, n)) && At(s, i, n) / 8 < |bm|
  {
    assert SlotOk(lay, s, owner, i, n) && MarkOk(lay, s.bm, owner, At(s, i, n));
  }

  lemma FreedNext(lay: Layout, s: State, owner: map<nat, (nat, nat)>, bm: seq<bv8>, bm': seq<bv8>, i: nat, n: nat)
    requires Inv(lay, s, owner) && Freed(lay, s, owner, bm, i, n)
    requires At(s, i, n) == 0 ==> bm' == bm
    requires At(s, i, n) != 0 ==> forall c: nat :: Used(bm', c) <==> c != At(s, i, n) && Used(bm, c)
    ensures Freed(lay, s, owner, bm', i, n + 1)
  {
    assert SlotOk(lay, s, owner, i, n);
    forall b: nat | b in owner && owner[b] == (i, n) ensures b == At(s, i, n) != 0 {
      assert OwnerOk(s, owner, b);
    }
  }

  function MapOf(lay: Layout, b: nat): nat {
    b / BPB + lay.bmapstart
  }

  /** The bitmap blocks of the blocks in slots below n of inode i. */
  ghost function MapsTo(lay: Layout, owner: map<nat, (nat, nat)>, i: nat, n: nat): set<nat> {
    set b | b in owner && owner[b].0 == i && owner[b].1 < n :: MapOf(lay, b)
  }

  /** The bitmap blocks of all blocks of inode i. */
  ghost function TruncMaps(lay: Layout, owner: map<nat, (nat, nat)>, i: nat): set<nat> {
    set b | b in owner && owner[b].0 == i :: MapOf(lay, b)
  }

  lemma MapsNext(lay: Layout, s: State, owner: map<nat, (nat, nat)>, i: nat, n: nat)
    requires Inv(lay, s, owner)
    ensures MapsTo(lay, owner, i, n + 1) ==
      MapsTo(lay, owner, i, n) + if At(s, i, n) == 0 then {} else {MapOf(lay, At(s, i, n))}
  {
    assert SlotOk(lay, s, owner, i, n);
    forall b: nat | b in owner && owner[b] == (i, n) ensures b == At(s, i, n) != 0 {
      assert OwnerOk(s, owner, b);
    }
  }

  lemma MapsAll(lay: Layout, s: State, owner: map<nat, (nat, nat)>, i: nat)
    requires Inv(lay, s, owner)
    ensures MapsTo(lay, owner, i, MAXFILE + 1) == TruncMaps(lay, owner, i)
    ensures At(s, i, MAXFILE) == 0 ==> MapsTo(lay, owner, i, NDIRECT) == TruncMaps(lay, owner, i)
  {
    forall b: nat | b in owner && owner[b].0 == i
      ensures owner[b].1 <= MAXFILE && (At(s, i, MAXFILE) == 0 ==> owner[b].1 < NDIRECT)
    {
      assert OwnerOk(s, owner, b);
    }
  }

  lemma NoIndirect(lay: Layout, s: State, owner: map<nat, (nat, nat)>, bm: seq<bv8>, i: nat)
    requires Inv(lay, s, owner) && At(s, i, MAXFILE) == 0 && Freed(lay, s, owner, bm, i, NDIRECT)
    ensures Freed(lay, s, owner, bm, i, MAXFILE + 1)
  {
    forall b: nat | b in owner && owner[b].0 == i ensures owner[b].1 < NDIRECT {
      assert OwnerOk(s, owner, b);
    }
  }

  /** A complete write: the bytes are spliced in at off, and every other file is as it was. */
  ghost predicate Wrote(lay: Layout, s: State, s': State, owner': map<nat, (nat, nat)>, i: nat, off: nat,
                        src: seq<Byte>) {
    && Inv(lay, s', owner') && i < |s.inodes| == |s'.inodes| && off <= s.inodes[i].size
    && Contents(s', i) == Spliced(Contents(s, i), off, src)
    && forall j: nat :: j < |s.inodes| && j != i ==> s'.inodes[j] == s.inodes[j] && Contents(s', j) == Contents(s, j)
  }

  lemma ChunkWithin(lay: Layout, log: set<nat>, at: nat, n: nat)
    requires LogBound(lay, {}, log, at, n) && n <= CHUNK
    ensures WithinOp(lay, log)
  {
    ChunkFits(at, n);
    assert log - {} == log;
  }

  /** How many blocks a write of n bytes at off logs; at most one of them is a bitmap block if
      one bitmap block covers the disk. */
  ghost predicate LogBound(lay: Layout, log: set<nat>, log': set<nat>, off: nat, n: nat) {
    && |log' - log| <= Spanned(off, n) + 2 + Allocations(off, n)
    && (lay.size <= BPB ==> |log' - log| <= Spanned(off, n) + 3)
  }

  lemma WriteEnd(lay: Layout, o0: map<nat, (nat, nat)>, s: State, owner: map<nat, (nat, nat)>, i: nat, off: nat,
                 src: seq<Byte>,
                 log: set<nat>, g: Write, inode: nat) returns (s': State, log': set<nat>)
    requires Inv(lay, g.start, o0) && Inv(lay, s, owner) && Going(lay, s, i, off, src, |src|, log, g)
    requires i < |s.inodes|
    ensures |src| > 0 && off + |src| > s.inodes[i].size ==>
      && s' == Resized(s, i, off + |src|) && log' == log + {inode}
      && i < |g.start.inodes| && g.start.inodes[i := s'.inodes[i]] == s'.inodes
    ensures !(|src| > 0 && off + |src| > s.inodes[i].size) ==> s' == s && log' == log && g.start.inodes == s'.inodes
    ensures Wrote(lay, g.start, s', owner, i, off, src) && LogBound(lay, g.log, log', off, |src|)
  {
    s' := if |src| > 0 && off + |src| > s.inodes[i].size then Resized(s, i, off + |src|) else s;
    log' := if |src| > 0 && off + |src| > s.inodes[i].size then log + {inode} else log;
    var s0 := g.start;
    WriteDone(lay, s0, o0, s, owner, i, off, src);
    LogsSize(lay, s, i, log, g, off, src, inode);
    if |src| > 0 && off + |src| > s.inodes[i].size {
      UpdatedAll(s0.inodes, Resized(s, i, off + |src|).inodes, i);
    } else {
      assert Resized(s, i, s.inodes[i].size) == s;
    }
  }

  /** A write in progress: the state and log it started from, and the blocks it has logged. */
  datatype Write = Write(start: State, log: set<nat>, data: set<nat>, ind: set<nat>, maps: set<nat>)

  /** Where the loop of writei is after tot bytes. */
  ghost predicate Going(lay: Layout, s: State, i: nat, off: nat, src: seq<Byte>, tot: nat, log: set<nat>, g: Write) {
    && i < |g.start.inodes| && tot <= |src| && off + |src| <= MAXFILE * BSIZE
    && off <= g.start.inodes[i].size <= MAXFILE * BSIZE && NoHole(g.start, i)
    && Progress(g.start, s, i, off, src, tot)
    && (0 < tot < |src| ==> (off + tot) % BSIZE == 0)
    && Logs(lay, g.start, s, i, g.log, log, g.data, g.ind, g.maps, Spanned(off, tot), off % BSIZE != 0)
  }

  lemma GoingStart(lay: Layout, s: State, owner: map<nat, (nat, nat)>, i: nat, off: nat, src: seq<Byte>, log: set<nat>)
    requires Inv(lay, s, owner) && i < |s.inodes| && off <= s.inodes[i].size && off + |src| <= MAXFILE * BSIZE
    ensures Going(lay, s, i, off, src, 0, log, Write(s, log, {}, {}, {}))
  {
    assert NoHole(s, i);
    ProgressStart(s, i, off, src);
  }

  /** What LogsAs needs to know of a write in progress. */
  ghost predicate Sparing(lay: Layout, i: nat, off: nat, tot: nat, log: set<nat>, g: Write) {
    && i < |g.start.inodes| && (tot > 0 ==> g.data != {}) && (forall b :: b in g.data ==> lay.nmeta <= b)
    && (off + tot <= NDIRECT * BSIZE ==> g.ind == {} && |g.maps| + Unaligned(off, tot) <= Spanned(off, tot))
    && (off + tot <= g.start.inodes[i].size ==> log == g.log + g.data)
  }

  /** A block below the size of the file is there. */
  lemma OldBlock(s0: State, s: State, i: nat, off: nat, src: seq<Byte>, tot: nat, bn: nat)
    requires i < |s0.inodes| && s0.inodes[i].size <= MAXFILE * BSIZE && NoHole(s0, i) && bn * BSIZE < s0.inodes[i].size
    requires tot <= |src| && Progress(s0, s, i, off, src, tot)
    ensures bn < MAXFILE && At(s, i, bn) != 0
  {
    assert There(s0, i, bn) && Reached(s0, s, i, off + tot, bn);
  }

  lemma FewerMaps(off: nat, tot: nat, m: nat, maps: nat, more: nat, there: bool)
    requires 0 < m && Spanned(off, tot + m) == Spanned(off, tot) + 1 && maps + Unaligned(off, tot) <= Spanned(off, tot)
    requires more <= (if there then 0 else 1) && (tot == 0 && off % BSIZE != 0 ==> there)
    ensures maps + more + Unaligned(off, tot + m) <= Spanned(off, tot + m)
  {}

  lemma SparingDirect(lay: Layout, s: State, s': State, i: nat, off: nat, src: seq<Byte>, tot: nat, m: nat,
                      log: set<nat>, log': set<nat>, g: Write, more: set<nat>)
    requires Going(lay, s, i, off, src, tot, log, g) && Sparing(lay, i, off, tot, log, g)
      && off + tot + m <= NDIRECT * BSIZE
    requires tot < |src| && m == Min(|src| - tot, BSIZE - (off + tot) % BSIZE)
    requires LogsBlock(lay, s, s', i, (off + tot) / BSIZE, log, log', more)
    ensures var g' := NextWrite(g, s', i, (off + tot) / BSIZE, more);
      g'.ind == {} && |g'.maps| + Unaligned(off, tot + m) <= Spanned(off, tot + m)
  {
    var bn := (off + tot) / BSIZE;
    TurnSize(off, tot, |src|, m);
    BlockWithin(off + tot, m);
    SumSize(g.maps, more);
    if off % BSIZE != 0 && tot == 0 { FirstThere(g.start, s, i, off, src); }
    FewerMaps(off, tot, m, |g.maps|, |more|, At(s, i, bn) != 0);
  }

  lemma SparingOld(lay: Layout, s: State, i: nat, off: nat, src: seq<Byte>, tot: nat, m: nat, log: set<nat>, g: Write)
    requires Going(lay, s, i, off, src, tot, log, g) && off + tot + m <= g.start.inodes[i].size
    requires tot < |src| && m == Min(|src| - tot, BSIZE - (off + tot) % BSIZE)
    ensures At(s, i, (off + tot) / BSIZE) != 0
  {
    TurnSize(off, tot, |src|, m);
    BlockWithin(off + tot, m);
    OldBlock(g.start, s, i, off, src, tot, (off + tot) / BSIZE);
  }

  /** One more data block x logged, which was there or not. */
  lemma SparingMore(lay: Layout, i: nat, off: nat, tot: nat, tot': nat, log: set<nat>, log': set<nat>, g: Write,
                    g': Write, x: nat)
    requires Sparing(lay, i, off, tot, log, g) && tot <= tot' && lay.nmeta <= x
    requires g'.start == g.start && g'.log == g.log && g'.data == g.data + {x}
    requires off + tot' <= NDIRECT * BSIZE ==> g'.ind == {} && |g'.maps| + Unaligned(off, tot') <= Spanned(off, tot')
    requires off + tot' <= g.start.inodes[i].size ==> log' == log + {x}
    ensures Sparing(lay, i, off, tot', log', g')
  {
    if off + tot' <= g.start.inodes[i].size {
      assert g.log + g.data + {x} == g.log + (g.data + {x});
    }
  }

  lemma SparingStep(lay: Layout, s: State, s': State, owner': map<nat, (nat, nat)>, i: nat, off: nat, src: seq<Byte>,
                    tot: nat, m: nat,
                    log: set<nat>, log': set<nat>, g: Write, more: set<nat>)
    requires Going(lay, s, i, off, src, tot, log, g) && Sparing(lay, i, off, tot, log, g) && Inv(lay, s', owner')
    requires tot < |src| && m == Min(|src| - tot, BSIZE - (off + tot) % BSIZE)
    requires At(s', i, (off + tot) / BSIZE) != 0 && LogsBlock(lay, s, s', i, (off + tot) / BSIZE, log, log', more)
    requires At(s, i, (off + tot) / BSIZE) != 0 ==> log' == log + {At(s', i, (off + tot) / BSIZE)}
    ensures Sparing(lay, i, off, tot + m, log', NextWrite(g, s', i, (off + tot) / BSIZE, more))
  {
    var bn := (off + tot) / BSIZE;
    assert lay.nmeta <= At(s', i, bn) by { assert SlotOk(lay, s', owner', i, bn); }
    if off + tot + m <= NDIRECT * BSIZE {
      SparingDirect(lay, s, s', i, off, src, tot, m, log, log', g, more);
    }
    if off + tot + m <= g.start.inodes[i].size {
      SparingOld(lay, s, i, off, src, tot, m, log, g);
    }
    SparingMore(lay, i, off, tot, tot + m, log, log', g, NextWrite(g, s', i, bn, more), At(s', i, bn));
  }

  lemma BlockWithin(k: nat, m: nat)
    requires 0 < m && k % BSIZE + m <= BSIZE
    ensures k / BSIZE * BSIZE <= k && k / BSIZE * BSIZE < k + m
    ensures k + m <= NDIRECT * BSIZE ==> k / BSIZE < NDIRECT
  {}

  lemma PartsLogged(lay: Layout, s: State, i: nat, off: nat, src: seq<Byte>, log: set<nat>, g: Write, inode: nat)
    requires Going(lay, s, i, off, src, |src|, log, g) && Sparing(lay, i, off, |src|, log, g)
    ensures var p, size := Parts(g.data, g.ind, g.maps), g.start.inodes[i].size;
      && (off + |src| <= size || |src| == 0 ==> LogsAs(lay, g.log, log, size, off, |src|, inode, p))
      && (off + |src| > size ==> LogsAs(lay, g.log, log + {inode}, size, off, |src|, inode, p))
  {}

  /** How much of the write the next block takes. */
  lemma TurnSize(off: nat, tot: nat, n: nat, m: nat)
    requires tot < n && m == Min(n - tot, BSIZE - (off + tot) % BSIZE) && (0 < tot ==> (off + tot) % BSIZE == 0)
    ensures 0 < m && tot + m <= n && (off + tot) % BSIZE + m <= BSIZE && (tot + m < n ==> (off + tot + m) % BSIZE == 0)
    ensures Spanned(off, tot + m) == Spanned(off, tot) + 1
  {
    SpannedNext(off, tot, m);
  }

  function NextWrite(g: Write, s: State, i: nat, bn: nat, more: set<nat>): Write {
    Write(g.start, g.log, g.data + {At(s, i, bn)}, if bn >= NDIRECT then {At(s, i, MAXFILE)} else g.ind, g.maps + more)
  }

  lemma LogsStep(lay: Layout, s: State, s': State, i: nat, off: nat, tot: nat, log: set<nat>, log': set<nat>, g: Write,
                 more: set<nat>)
    requires Logs(lay, g.start, s, i, g.log, log, g.data, g.ind, g.maps, Spanned(off, tot), off % BSIZE != 0)
    requires LogsBlock(lay, s, s', i, (off + tot) / BSIZE, log, log', more) && Kept(s, s', i, MAXFILE)
      && Kept(g.start, s, i, MAXFILE)
    requires off % BSIZE != 0 && tot == 0 ==> At(s, i, off / BSIZE) != 0
    ensures var g' := NextWrite(g, s', i, (off + tot) / BSIZE, more);
      Logs(lay, g.start, s', i, g.log, log', g'.data, g'.ind, g'.maps, Spanned(off, tot) + 1, off % BSIZE != 0)
  {
    assert Spanned(off, tot) == 0 ==> tot == 0;
    LogsNext(lay, g.start, s, s', i, (off + tot) / BSIZE, g.log, log, log', g.data, g.ind, g.maps, more,
             Spanned(off, tot), off % BSIZE != 0);
  }

  /** A write that starts within a block finds that block. */
  lemma FirstThere(s0: State, s: State, i: nat, off: nat, src: seq<Byte>)
    requires i < |s0.inodes| && off <= s0.inodes[i].size <= MAXFILE * BSIZE && NoHole(s0, i)
    requires Progress(s0, s, i, off, src, 0) && off % BSIZE != 0
    ensures At(s, i, off / BSIZE) != 0
  {
    assert off / BSIZE * BSIZE < off;
    assert There(s0, i, off / BSIZE) && Reached(s0, s, i, off, off / BSIZE);
  }

  lemma GoingStep(lay: Layout, s: State, s': State, i: nat, off: nat, src: seq<Byte>, tot: nat, m: nat,
                  log: set<nat>, log': set<nat>, g: Write, more: set<nat>) returns (g': Write)
    requires Going(lay, s, i, off, src, tot, log, g)
    requires tot < |src| && m == Min(|src| - tot, BSIZE - (off + tot) % BSIZE) && tot + m <= |src|
    requires BlockPut(s, s', i, (off + tot) / BSIZE, (off + tot) % BSIZE, src[tot..tot + m])
    requires LogsBlock(lay, s, s', i, (off + tot) / BSIZE, log, log', more)
    ensures Going(lay, s', i, off, src, tot + m, log', g') && g' == NextWrite(g, s', i, (off + tot) / BSIZE, more)
  {
    g' := NextWrite(g, s', i, (off + tot) / BSIZE, more);
    TurnSize(off, tot, |src|, m);
    assert Progress(g.start, s', i, off, src, tot + m) by { ProgressStep(g.start, s, s', i, off, src, tot, m); }
    assert Logs(lay, g.start, s', i, g.log, log', g'.data, g'.ind, g'.maps, Spanned(off, tot) + 1,
                off % BSIZE != 0) by {
      assert Kept(s, s', i, MAXFILE) by { assert (off + tot) / BSIZE < MAXFILE; }
      assert Kept(g.start, s, i, MAXFILE) by { assert !Touched(off, tot, MAXFILE); }
      if off % BSIZE != 0 && tot == 0 { FirstThere(g.start, s, i, off, src); }
      LogsStep(lay, s, s', i, off, tot, log, log', g, more);
    }
  }

  lemma LogsSize(lay: Layout, s: State, i: nat, log: set<nat>, g: Write, off: nat, src: seq<Byte>, inode: nat)
    requires Going(lay, s, i, off, src, |src|, log, g) && 0 < lay.size
    ensures |log - g.log| <= Spanned(off, |src|) + 2 + Allocations(off, |src|)
    ensures |src| > 0 ==> |log + {inode} - g.log| <= Spanned(off, |src|) + 2 + Allocations(off, |src|)
    ensures lay.size <= BPB ==>
      |log - g.log| <= Spanned(off, |src|) + 3 && |log + {inode} - g.log| <= Spanned(off, |src|) + 3
  {
    UnionSize(g.log, log, g.data, g.ind, g.maps);
    UnionSize(g.log, log + {inode}, g.data, g.ind, g.maps + {inode});
    SumSize(g.maps, {inode});
    if lay.size <= BPB { OneMap(lay, g.maps); }
  }

  lemma UpdatedAll(d: seq<Inode>, m: seq<Inode>, i: nat)
    requires i < |d| == |m| && forall j :: 0 <= j < |m| && j != i ==> m[j] == d[j]
    ensures d[i := m[i]] == m
  {}
}
