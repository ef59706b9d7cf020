/** Which disk blocks belong to which inode, and the bytes of a file: the block map and the
    free bitmap of kernel/fs.c as values, and what allocating a block for a slot, writing into
    a data block and freeing a block do to them. */
module FileBlocks {
  import opened Basics
  import opened BlockBits

  const BSIZE: nat := 512
  const NDIRECT: nat := 12
  const NINDIRECT: nat := 128
  const MAXFILE: nat := 140

  type Byte = x: int | 0 <= x < 256
  type Block = seq<Byte>

  /** The block numbers of a file: 12 direct ones and the indirect block. */
  datatype Inode = Inode(size: nat, addrs: seq<nat>)

  /** bm: the bitmap; blocks: what each disk block holds; inodes: the inodes, as in memory. */
  datatype State = State(bm: seq<bv8>, blocks: seq<Block>, inodes: seq<Inode>)

  datatype Layout = Layout(size: nat, inodestart: nat, bmapstart: nat, nmeta: nat)

  // ---- Words in a block

  /** Word j of a block, low byte first. */
  function Load(b: Block, j: nat): nat
    requires |b| == BSIZE && j < NINDIRECT
  {
    (b[4 * j] as nat) + 256 * (b[4 * j + 1] as nat) + 65536 * (b[4 * j + 2] as nat) + 16777216 * (b[4 * j + 3] as nat)
  }

  function Store(b: Block, j: nat, v: nat): Block
    requires |b| == BSIZE && j < NINDIRECT
  {
    b[4 * j := v % 256][4 * j + 1 := v / 256 % 256][4 * j + 2 := v / 65536 % 256][4 * j + 3 := v / 16777216 % 256]
  }

  lemma Digits(v: nat)
    requires v < WORD
    ensures v == v % 256 + 256 * (v / 256 % 256) + 65536 * (v / 65536 % 256) + 16777216 * (v / 16777216 % 256)
  {
    var a, b, c := v / 256, v / 65536, v / 16777216;
    assert b == a / 256 && c == b / 256;
  }

  lemma StoreLoad(b: Block, j: nat, v: nat, k: nat)
    requires |b| == BSIZE && j < NINDIRECT && k < NINDIRECT && v < WORD
    ensures |Store(b, j, v)| == BSIZE
    ensures Load(Store(b, j, v), k) == if k == j then v else Load(b, k)
  {
    Digits(v);
  }

  function Zeros(): (z: Block)
    ensures |z| == BSIZE
    ensures forall k :: 0 <= k < BSIZE ==> z[k] == 0
  {
    seq(BSIZE, k => 0)
  }

  // ---- Slots

  /** The block in slot n of inode i, or 0: slots below MAXFILE are the file's blocks in order,
      slot MAXFILE is its indirect block. */
  function At(s: State, i: nat, n: nat): nat {
    if i >= |s.inodes| || |s.inodes[i].addrs| != NDIRECT + 1 || n > MAXFILE then 0
    else if n < NDIRECT then s.inodes[i].addrs[n]
    else
      var a := s.inodes[i].addrs[NDIRECT];
      if n == MAXFILE then a
      else if a == 0 || a >= |s.blocks| || |s.blocks[a]| != BSIZE then 0
      else Load(s.blocks[a], n - NDIRECT)
  }

  ghost predicate Shaped(lay: Layout, s: State) {
    && 0 < lay.nmeta <= lay.size == |s.blocks| <= WORD && lay.size <= 8 * |s.bm|
    && (forall b :: 0 <= b < |s.blocks| ==> |s.blocks[b]| == BSIZE)
    && (forall i :: 0 <= i < |s.inodes| ==> |s.inodes[i].addrs| == NDIRECT + 1 && s.inodes[i].size <= MAXFILE * BSIZE)
  }

  /** A filled slot holds a data block, of which it is the owner. */
  ghost predicate SlotOk(lay: Layout, s: State, owner: map<nat, (nat, nat)>, i: nat, n: nat) {
    At(s, i, n) != 0 ==> lay.nmeta <= At(s, i, n) < lay.size && At(s, i, n) in owner && owner[At(s, i, n)] == (i, n)
  }

  ghost predicate OwnerOk(s: State, owner: map<nat, (nat, nat)>, b: nat) {
    b in owner ==> b != 0 && At(s, owner[b].0, owner[b].1) == b
  }

  /** owner maps each data block in use to the one slot that holds it. */
  ghost predicate Owned(lay: Layout, s: State, owner: map<nat, (nat, nat)>) {
    && (forall i: nat, n: nat :: SlotOk(lay, s, owner, i, n))
    && (forall b: nat :: OwnerOk(s, owner, b))
  }

  /** A bit of the bitmap is set exactly for the blocks of the layout and the owned ones. */
  ghost predicate MarkOk(lay: Layout, bm: seq<bv8>, owner: map<nat, (nat, nat)>, b: nat) {
    b < lay.size ==> (Used(bm, b) <==> b < lay.nmeta || b in owner)
  }

  ghost predicate Marked(lay: Layout, bm: seq<bv8>, owner: map<nat, (nat, nat)>) {
    forall b: nat :: MarkOk(lay, bm, owner, b)
  }

  /** Block n of file i is there if the file reaches into it. */
  ghost predicate There(s: State, i: nat, n: nat) {
    i < |s.inodes| && n < MAXFILE && n * BSIZE < s.inodes[i].size ==> At(s, i, n) != 0
  }

  ghost predicate NoHole(s: State, i: nat) {
    forall n: nat :: There(s, i, n)
  }

  ghost predicate Inv(lay: Layout, s: State, owner: map<nat, (nat, nat)>) {
    && Shaped(lay, s) && Owned(lay, s, owner) && Marked(lay, s.bm, owner)
    && forall i: nat :: NoHole(s, i)
  }

  /** The bitmap tells exactly which blocks are metadata or in a slot, and no block is in two. */
  lemma BitmapExact(lay: Layout, s: State, owner: map<nat, (nat, nat)>, b: nat)
    requires Inv(lay, s, owner) && 0 < b < lay.size
    ensures Used(s.bm, b) <==> b < lay.nmeta || exists i: nat, n: nat :: At(s, i, n) == b
    ensures forall i: nat, n: nat, j: nat, m: nat :: At(s, i, n) == b == At(s, j, m) ==> (i, n) == (j, m)
  {
    assert MarkOk(lay, s.bm, owner, b) && OwnerOk(s, owner, b);
    if b in owner {
      assert At(s, owner[b].0, owner[b].1) == b;
    }
    forall i: nat, n: nat | At(s, i, n) == b ensures b in owner && owner[b] == (i, n) {
      assert SlotOk(lay, s, owner, i, n);
    }
  }

  // ---- Bytes of a file

  /** What slot n of inode i holds. */
  function BlockOf(s: State, i: nat, n: nat): Block {
    if At(s, i, n) < |s.blocks| then s.blocks[At(s, i, n)] else []
  }

  function ByteAt(s: State, i: nat, k: nat): Byte {
    var b := BlockOf(s, i, k / BSIZE);
    if |b| == BSIZE then b[k % BSIZE] else 0
  }

  ghost function Contents(s: State, i: nat): seq<Byte>
    requires i < |s.inodes|
  {
    seq(s.inodes[i].size, k requires 0 <= k => ByteAt(s, i, k))
  }

  /** A slot still holds the same block, with the same bytes if it is a data block; only an empty
      indirect slot may have been filled. */
  ghost predicate Kept(s: State, s': State, i: nat, n: nat) {
    && (At(s, i, n) != 0 || n < MAXFILE ==> At(s', i, n) == At(s, i, n))
    && (At(s, i, n) != 0 && n < MAXFILE ==> BlockOf(s', i, n) == BlockOf(s, i, n))
  }

  // ---- Allocating a block for a slot

  /** Block b marked in use and zeroed. */
  function Allocated(s: State, b: nat): State
    requires b < |s.blocks| && b / 8 < |s.bm|
  {
    s.(bm := Mark(s.bm, b), blocks := s.blocks[b := Zeros()])
  }

  /** Block b put into slot n of inode i. */
  function Slotted(s: State, i: nat, n: nat, b: nat): State
    requires i < |s.inodes| && |s.inodes[i].addrs| == NDIRECT + 1 && n <= MAXFILE
    requires NDIRECT <= n < MAXFILE ==>
      s.inodes[i].addrs[NDIRECT] < |s.blocks| && |s.blocks[s.inodes[i].addrs[NDIRECT]]| == BSIZE
  {
    var addrs := s.inodes[i].addrs;
    if n < NDIRECT then s.(inodes := s.inodes[i := s.inodes[i].(addrs := addrs[n := b])])
    else if n == MAXFILE then s.(inodes := s.inodes[i := s.inodes[i].(addrs := addrs[NDIRECT := b])])
    else s.(blocks := s.blocks[addrs[NDIRECT] := Store(s.blocks[addrs[NDIRECT]], n - NDIRECT, b)])
  }

  /** What balloc and the assignment of its result to an empty slot need. */
  ghost predicate Fillable(lay: Layout, s: State, owner: map<nat, (nat, nat)>, i: nat, n: nat, b: nat) {
    && Shaped(lay, s) && Owned(lay, s, owner)
    && b < lay.size && b !in owner && lay.nmeta <= b && b / 8 < |s.bm|
    && i < |s.inodes| && n <= MAXFILE && At(s, i, n) == 0
    && (NDIRECT <= n < MAXFILE ==> At(s, i, MAXFILE) != 0)
  }

  lemma IndirectThere(lay: Layout, s: State, owner: map<nat, (nat, nat)>, i: nat, n: nat, b: nat)
    requires Fillable(lay, s, owner, i, n, b)
    ensures NDIRECT <= n < MAXFILE ==>
      s.inodes[i].addrs[NDIRECT] < |s.blocks| && |s.blocks[s.inodes[i].addrs[NDIRECT]]| == BSIZE
        && s.inodes[i].addrs[NDIRECT] != b
  {
    assert At(s, i, MAXFILE) == s.inodes[i].addrs[NDIRECT];
    assert SlotOk(lay, s, owner, i, MAXFILE);
  }

  ghost function Filled(lay: Layout, s: State, owner: map<nat, (nat, nat)>, i: nat, n: nat, b: nat): State
    requires Fillable(lay, s, owner, i, n, b)
  {
    IndirectThere(lay, s, owner, i, n, b);
    Slotted(Allocated(s, b), i, n, b)
  }

  /** Zeroing a block that nobody owns changes no slot. */
  lemma AllocatedAt(lay: Layout, s: State, owner: map<nat, (nat, nat)>, b: nat, j: nat, m: nat)
    requires Shaped(lay, s) && Owned(lay, s, owner) && b < lay.size && b !in owner && b / 8 < |s.bm|
    ensures At(Allocated(s, b), j, m) == At(s, j, m)
  {
    assert SlotOk(lay, s, owner, j, MAXFILE);
    assert At(s, j, MAXFILE) != b || b == 0;
  }

  lemma SlottedAt(lay: Layout, s: State, owner: map<nat, (nat, nat)>, i: nat, n: nat, b: nat, j: nat, m: nat)
    requires Fillable(lay, s, owner, i, n, b)
    ensures At(Filled(lay, s, owner, i, n, b), j, m) == if (j, m) == (i, n) then b else At(s, j, m)
  {
    IndirectThere(lay, s, owner, i, n, b);
    var s1 := Allocated(s, b);
    AllocatedAt(lay, s, owner, b, j, m);
    AllocatedAt(lay, s, owner, b, i, m);
    var s2 := Slotted(s1, i, n, b);
    var a := s.inodes[i].addrs[NDIRECT];
    if NDIRECT <= n < MAXFILE {
      if NDIRECT <= m < MAXFILE {
        StoreLoad(s1.blocks[a], n - NDIRECT, b, m - NDIRECT);
      } else {
        StoreLoad(s1.blocks[a], n - NDIRECT, b, 0);
      }
      assert SlotOk(lay, s, owner, i, MAXFILE) && SlotOk(lay, s, owner, j, MAXFILE);
      assert At(s, j, MAXFILE) == a ==> j == i;
    } else if n == MAXFILE && j == i && NDIRECT <= m < MAXFILE {
      assert At(s, i, m) == 0;
    }
  }

  lemma FilledShaped(lay: Layout, s: State, owner: map<nat, (nat, nat)>, i: nat, n: nat, b: nat)
    requires Fillable(lay, s, owner, i, n, b)
    ensures Shaped(lay, Filled(lay, s, owner, i, n, b))
  {
    IndirectThere(lay, s, owner, i, n, b);
  }

  lemma FilledOwned(lay: Layout, s: State, owner: map<nat, (nat, nat)>, i: nat, n: nat, b: nat)
    requires Fillable(lay, s, owner, i, n, b)
    ensures Owned(lay, Filled(lay, s, owner, i, n, b), owner[b := (i, n)])
  {
    var s', o' := Filled(lay, s, owner, i, n, b), owner[b := (i, n)];
    forall j: nat, m: nat ensures SlotOk(lay, s', o', j, m) {
      SlottedAt(lay, s, owner, i, n, b, j, m);
      assert SlotOk(lay, s, owner, j, m);
    }
    forall c: nat ensures OwnerOk(s', o', c) {
      if c == b {
        SlottedAt(lay, s, owner, i, n, b, i, n);
      } else if c in owner {
        SlottedAt(lay, s, owner, i, n, b, owner[c].0, owner[c].1);
        assert OwnerOk(s, owner, c);
      }
    }
  }

  /** No slot changes when another one is filled. */
  lemma FilledKept(lay: Layout, s: State, owner: map<nat, (nat, nat)>, i: nat, n: nat, b: nat, j: nat, m: nat)
    requires Fillable(lay, s, owner, i, n, b) && (j, m) != (i, n)
    ensures Kept(s, Filled(lay, s, owner, i, n, b), j, m)
  {
    IndirectThere(lay, s, owner, i, n, b);
    SlottedAt(lay, s, owner, i, n, b, j, m);
    assert SlotOk(lay, s, owner, j, m) && SlotOk(lay, s, owner, i, MAXFILE);
    assert At(s, i, MAXFILE) == s.inodes[i].addrs[NDIRECT];
  }

  /** Filling an empty slot with a free block keeps the invariant, with that slot as the owner. */
  lemma FilledInv(lay: Layout, s: State, owner: map<nat, (nat, nat)>, i: nat, n: nat, b: nat)
    requires Inv(lay, s, owner) && Fillable(lay, s, owner, i, n, b)
    ensures Inv(lay, Filled(lay, s, owner, i, n, b), owner[b := (i, n)])
  {
    var s', o' := Filled(lay, s, owner, i, n, b), owner[b := (i, n)];
    FilledShaped(lay, s, owner, i, n, b);
    FilledOwned(lay, s, owner, i, n, b);
    MarkOnly(s.bm, b);
    forall c: nat ensures MarkOk(lay, s'.bm, o', c) {
      assert MarkOk(lay, s.bm, owner, c);
    }
    forall j: nat, m: nat ensures There(s', j, m) {
      assert NoHole(s, j) && There(s, j, m);
      SlottedAt(lay, s, owner, i, n, b, j, m);
    }
  }

  // ---- Writing into a data block

  function Written(s: State, a: nat, blk: Block): State
    requires a < |s.blocks|
  {
    s.(blocks := s.blocks[a := blk])
  }

  lemma InRange(lay: Layout, s: State, owner: map<nat, (nat, nat)>, i: nat, n: nat)
    requires Shaped(lay, s) && Owned(lay, s, owner) && At(s, i, n) != 0
    ensures At(s, i, n) < |s.blocks| && |s.blocks[At(s, i, n)]| == BSIZE
  {
    assert SlotOk(lay, s, owner, i, n);
  }

  /** Writing a data block changes no slot, and what no other slot holds. */
  lemma WrittenAt(lay: Layout, s: State, owner: map<nat, (nat, nat)>, i: nat, n: nat, blk: Block, j: nat, m: nat)
    requires Shaped(lay, s) && Owned(lay, s, owner) && n < MAXFILE && At(s, i, n) != 0 && |blk| == BSIZE
    ensures At(s, i, n) < |s.blocks|
    ensures At(Written(s, At(s, i, n), blk), j, m) == At(s, j, m)
    ensures (j, m) != (i, n) ==> Kept(s, Written(s, At(s, i, n), blk), j, m)
    ensures BlockOf(Written(s, At(s, i, n), blk), i, n) == blk
  {
    assert SlotOk(lay, s, owner, i, n) && SlotOk(lay, s, owner, j, MAXFILE) && SlotOk(lay, s, owner, i, MAXFILE)
      && SlotOk(lay, s, owner, j, m);
    assert At(s, j, MAXFILE) != At(s, i, n) && At(s, i, MAXFILE) != At(s, i, n);
  }

  lemma WrittenInv(lay: Layout, s: State, owner: map<nat, (nat, nat)>, i: nat, n: nat, blk: Block)
    requires Inv(lay, s, owner) && n < MAXFILE && At(s, i, n) != 0 && |blk| == BSIZE
    ensures At(s, i, n) < |s.blocks|
    ensures Inv(lay, Written(s, At(s, i, n), blk), owner)
  {
    InRange(lay, s, owner, i, n);
    var s' := Written(s, At(s, i, n), blk);
    forall j: nat, m: nat ensures SlotOk(lay, s', owner, j, m) && There(s', j, m) {
      WrittenAt(lay, s, owner, i, n, blk, j, m);
      assert SlotOk(lay, s, owner, j, m) && NoHole(s, j) && There(s, j, m);
    }
    forall b: nat ensures OwnerOk(s', owner, b) {
      assert OwnerOk(s, owner, b);
      if b in owner { WrittenAt(lay, s, owner, i, n, blk, owner[b].0, owner[b].1); }
    }
  }

  // ---- Truncation

  ghost function Others(owner: map<nat, (nat, nat)>, i: nat): map<nat, (nat, nat)> {
    map b | b in owner && owner[b].0 != i :: owner[b]
  }

  /** The blocks in slots below n of inode i are free in bm, and otherwise it is like the bitmap of s. */
  ghost predicate Freed(lay: Layout, s: State, owner: map<nat, (nat, nat)>, bm: seq<bv8>, i: nat, n: nat) {
    forall b: nat :: b < lay.size ==>
      (Used(bm, b) <==> Used(s.bm, b) && !(b in owner && owner[b].0 == i && owner[b].1 < n))
  }

  /** Inode i emptied and exactly its blocks cleared in the bitmap. */
  ghost predicate Truncated(lay: Layout, s: State, owner: map<nat, (nat, nat)>, i: nat, s': State) {
    && i < |s.inodes| && s'.blocks == s.blocks && |s'.bm| == |s.bm|
    && |s'.inodes| == |s.inodes| && (forall j :: 0 <= j < |s.inodes| && j != i ==> s'.inodes[j] == s.inodes[j])
    && s'.inodes[i].size == 0 && |s'.inodes[i].addrs| == NDIRECT + 1
    && (forall n :: 0 <= n <= NDIRECT ==> s'.inodes[i].addrs[n] == 0)
    && Freed(lay, s, owner, s'.bm, i, MAXFILE + 1)
  }

  lemma TruncatedAt(lay: Layout, s: State, owner: map<nat, (nat, nat)>, i: nat, s': State, j: nat, m: nat)
    requires Truncated(lay, s, owner, i, s')
    ensures At(s', j, m) == if j == i then 0 else At(s, j, m)
    ensures j != i ==> BlockOf(s', j, m) == BlockOf(s, j, m)
  {}

  lemma TruncatedInv(lay: Layout, s: State, owner: map<nat, (nat, nat)>, i: nat, s': State)
    requires Inv(lay, s, owner) && Truncated(lay, s, owner, i, s')
    ensures Inv(lay, s', Others(owner, i))
  {
    var o' := Others(owner, i);
    forall j: nat, m: nat ensures SlotOk(lay, s', o', j, m) && There(s', j, m) {
      TruncatedAt(lay, s, owner, i, s', j, m);
      assert SlotOk(lay, s, owner, j, m) && NoHole(s, j) && There(s, j, m);
    }
    forall b: nat ensures OwnerOk(s', o', b) && MarkOk(lay, s'.bm, o', b) {
      assert OwnerOk(s, owner, b) && MarkOk(lay, s.bm, owner, b);
      if b in owner {
        TruncatedAt(lay, s, owner, i, s', owner[b].0, owner[b].1);
        assert SlotOk(lay, s, owner, owner[b].0, owner[b].1);
      }
    }
  }

  /** A truncated file is empty and every other file is as it was. */
  lemma TruncatedContents(lay: Layout, s: State, owner: map<nat, (nat, nat)>, i: nat, s': State, j: nat)
    requires Truncated(lay, s, owner, i, s') && j < |s.inodes|
    ensures Contents(s', j) == if j == i then [] else Contents(s, j)
  {
    if j != i {
      forall k: nat ensures ByteAt(s', j, k) == ByteAt(s, j, k) {
        TruncatedAt(lay, s, owner, i, s', j, k / BSIZE);
      }
    }
  }
}
