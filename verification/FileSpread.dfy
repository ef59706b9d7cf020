/** When freeing an inode keeps below what begin_op reserves. itrunc logs one bitmap block for each
    part of the disk in which the file has a block, so that a file can be spread too far on a disk
    on which more than eight bitmap blocks cover data blocks, and on no smaller one. */
module FileSpread {
  import opened Basics
  import opened BlockBits
  import opened FileBlocks
  import opened FileOps
  import opened FileTxns
  import opened Mkfs
  import opened Sets

  /** The bitmap blocks follow the inode blocks, within the metadata, as mkfs lays them out. */
  ghost predicate Laid(lay: Layout) {
    lay.inodestart < lay.bmapstart && 0 < lay.nmeta <= lay.size <= WORD
  }

  /** The first part of the disk, of as many blocks as one bitmap block covers, with a data block. */
  function FirstPart(lay: Layout): nat {
    lay.nmeta / BPB
  }

  /** The data blocks lie in n parts of the disk at most. */
  predicate DataParts(lay: Layout, n: nat) {
    lay.size <= (FirstPart(lay) + n) * BPB
  }

  /** What the last iput of inode i logs. */
  ghost function FreeLog(lay: Layout, owner: map<nat, (nat, nat)>, i: nat): set<nat> {
    TruncMaps(lay, owner, i) + {i / IPB + lay.inodestart}
  }

  ghost function Range(lo: nat, n: nat): set<nat> {
    if n == 0 then {} else Range(lo, n - 1) + {lo + n - 1}
  }

  lemma {:induction false} RangeHas(lo: nat, n: nat, x: nat)
    ensures x in Range(lo, n) <==> lo <= x < lo + n
  {
    if n > 0 { RangeHas(lo, n - 1, x); }
  }

  lemma {:induction false} RangeSize(lo: nat, n: nat)
    ensures |Range(lo, n)| == n
  {
    if n > 0 {
      RangeSize(lo, n - 1);
      RangeHas(lo, n - 1, lo + n - 1);
    }
  }

  /** The bitmap blocks logged are no more than cover data blocks. */
  lemma FewMaps(lay: Layout, s: State, owner: map<nat, (nat, nat)>, i: nat, n: nat)
    requires Inv(lay, s, owner) && DataParts(lay, n)
    ensures |TruncMaps(lay, owner, i)| <= n
  {
    var maps, all := TruncMaps(lay, owner, i), Range(lay.bmapstart + FirstPart(lay), n);
    forall b: nat | b in owner ensures MapOf(lay, b) in all {
      assert OwnerOk(s, owner, b) && SlotOk(lay, s, owner, owner[b].0, owner[b].1);
      InParts(lay.nmeta, b, FirstPart(lay) + n);
      RangeHas(lay.bmapstart + FirstPart(lay), n, MapOf(lay, b));
    }
    RangeSize(lay.bmapstart + FirstPart(lay), n);
    SubsetSize(maps, all);
  }

  lemma InParts(lo: nat, b: nat, n: nat)
    requires lo <= b < n * BPB
    ensures lo / BPB <= b / BPB < n
  {}

  lemma FreeLogSize(lay: Layout, s: State, owner: map<nat, (nat, nat)>, i: nat, n: nat)
    requires Inv(lay, s, owner) && DataParts(lay, n)
    ensures |FreeLog(lay, owner, i)| <= n + 1
  {
    FewMaps(lay, s, owner, i, n);
    SumSize(TruncMaps(lay, owner, i), {i / IPB + lay.inodestart});
  }

  // ---- A file with a block in each of nine parts of the disk

  /** The last block of each of eight parts from part q on, and the first of the ninth. */
  function Far(q: nat, k: nat): nat {
    if k < 8 then (q + k) * BPB + BPB - 1 else (q + 8) * BPB
  }

  lemma FarPart(q: nat, k: nat)
    requires k <= 8
    ensures Far(q, k) / BPB == q + k
  {}

  ghost function FarOwner(q: nat, k: nat): (o: map<nat, (nat, nat)>)
    requires k <= 9
    ensures forall b: nat :: b in o ==> o[b].0 == 0 && o[b].1 < k && b == Far(q, o[b].1)
    ensures forall j: nat :: j < k ==> Far(q, j) in o && o[Far(q, j)] == (0, j)
  {
    if k == 0 then map[] else FarOwner(q, k - 1)[Far(q, k - 1) := (0, k - 1)]
  }

  /** Inode 0 has the first k of those blocks, and nothing else is in use. */
  ghost predicate Scattered(lay: Layout, s: State, k: nat) {
    && k <= 9 && Inv(lay, s, FarOwner(FirstPart(lay), k)) && |s.inodes| == 1 && s.inodes[0].size == 0
    && forall n: nat :: At(s, 0, n) == if n < k then Far(FirstPart(lay), n) else 0
  }

  ghost function Blank(lay: Layout): State {
    State(MarkTo(lay.size / 8 + 1, if lay.nmeta <= lay.size then lay.nmeta else 0), seq(lay.size, b => Zeros()),
          [Inode(0, seq(NDIRECT + 1, n => 0))])
  }

  lemma BlankScattered(lay: Layout)
    requires Laid(lay)
    ensures Scattered(lay, Blank(lay), 0)
  {
    var s := Blank(lay);
    forall b: nat ensures MarkOk(lay, s.bm, map[], b) {
      MarkToUsed(lay.size / 8 + 1, lay.nmeta, b);
    }
  }

  lemma ScatterOne(lay: Layout, s: State, k: nat, next: nat)
    requires Laid(lay) && !DataParts(lay, 8) && next == k + 1 <= 9 && Scattered(lay, s, k)
    ensures exists s' :: Scattered(lay, s', next)
  {
    var b, o := Far(FirstPart(lay), k), FarOwner(FirstPart(lay), k);
    assert Fillable(lay, s, o, 0, k, b);
    FilledMapped(lay, s, o, 0, k, b);
    var s' := Filled(lay, s, o, 0, k, b);
    forall n: nat ensures At(s', 0, n) == if n < next then Far(FirstPart(lay), n) else 0 {
      SlottedAt(lay, s, o, 0, k, b, 0, n);
    }
    assert Scattered(lay, s', next);
  }

  lemma {:induction false} ScatterAll(lay: Layout, k: nat)
    requires Laid(lay) && !DataParts(lay, 8) && k <= 9
    ensures exists s :: Scattered(lay, s, k)
  {
    if k == 0 {
      BlankScattered(lay);
    } else {
      ScatterAll(lay, k - 1);
      var s :| Scattered(lay, s, k - 1);
      ScatterOne(lay, s, k - 1, k);
    }
  }

  /** The same file with a size that takes all its blocks. */
  lemma Sized(lay: Layout, s: State, k: nat)
    requires Scattered(lay, s, k)
    ensures Inv(lay, Resized(s, 0, k * BSIZE), FarOwner(FirstPart(lay), k))
  {
    var s', o := Resized(s, 0, k * BSIZE), FarOwner(FirstPart(lay), k);
    forall j: nat, m: nat ensures SlotOk(lay, s', o, j, m) && There(s', j, m) {
      ResizedAt(s, 0, k * BSIZE, j, m);
      assert SlotOk(lay, s, o, j, m);
    }
    forall b: nat ensures OwnerOk(s', o, b) {
      assert OwnerOk(s, o, b);
      if b in o { ResizedAt(s, 0, k * BSIZE, o[b].0, o[b].1); }
    }
  }

  lemma FarMap(lay: Layout, q: nat, k: nat, n: nat)
    requires k < n <= 9
    ensures lay.bmapstart + q + k in TruncMaps(lay, FarOwner(q, n), 0)
  {
    FarPart(q, k);
    assert Far(q, k) in FarOwner(q, n) && MapOf(lay, Far(q, k)) == lay.bmapstart + q + k;
  }

  predicate Has(maps: set<nat>, lo: nat, k: nat) {
    lo + k in maps
  }

  lemma RangeAndOne(lo: nat, n: nat, maps: set<nat>, x: nat)
    requires (forall k: nat :: k < n ==> Has(maps, lo, k)) && x < lo
    ensures |maps + {x}| >= n + 1
  {
    forall y | y in Range(lo, n) ensures y in maps {
      RangeHas(lo, n, y);
      assert Has(maps, lo, y - lo);
    }
    RangeSize(lo, n);
    RangeHas(lo, n, x);
    SubsetSize(Range(lo, n) + {x}, maps + {x});
  }

  lemma FarLog(lay: Layout, q: nat, n: nat)
    requires Laid(lay) && n <= 9
    ensures |FreeLog(lay, FarOwner(q, n), 0)| >= n + 1
  {
    var maps, lo := TruncMaps(lay, FarOwner(q, n), 0), lay.bmapstart + q;
    forall k: nat | k < n ensures Has(maps, lo, k) { FarMap(lay, q, k, n); }
    RangeAndOne(lo, n, maps, 0 / IPB + lay.inodestart);
  }

  // ---- Main result

  /** A sound state and a file whose freeing logs MAXOPBLOCKS blocks or more. */
  ghost predicate TooFar(lay: Layout, s: State, owner: map<nat, (nat, nat)>, i: nat) {
    Inv(lay, s, owner) && i < |s.inodes| && |FreeLog(lay, owner, i)| >= MAXOPBLOCKS
  }

  ghost predicate SpreadPossible(lay: Layout) {
    exists s, owner, i :: TooFar(lay, s, owner, i)
  }

  lemma NineParts(lay: Layout, n: nat)
    requires Laid(lay) && !DataParts(lay, 8) && n == 9
    ensures SpreadPossible(lay)
  {
    ScatterAll(lay, n);
    var s :| Scattered(lay, s, n);
    Sized(lay, s, n);
    FarLog(lay, FirstPart(lay), n);
    assert TooFar(lay, Resized(s, 0, n * BSIZE), FarOwner(FirstPart(lay), n), 0);
  }

  /** Freeing any inode of any sound file system keeps below MAXOPBLOCKS exactly on disks whose data
      blocks take at most eight bitmap blocks; with one, as on the disk of mkfs, it logs at most two
      blocks. */
  lemma FreeExactly(lay: Layout)
    requires Laid(lay)
    ensures SpreadPossible(lay) <==> lay.size > (lay.nmeta / BPB + 8) * BPB
    ensures DataParts(lay, 1) ==> forall s, owner, i :: Inv(lay, s, owner) ==> |FreeLog(lay, owner, i)| <= 2
  {
    if !DataParts(lay, 8) {
      NineParts(lay, 9);
    } else {
      forall s, owner, i: nat ensures !TooFar(lay, s, owner, i) {
        if Inv(lay, s, owner) { FreeLogSize(lay, s, owner, i, 8); }
      }
    }
    if DataParts(lay, 1) {
      forall s, owner, i | Inv(lay, s, owner) ensures |FreeLog(lay, owner, i)| <= 2 {
        FreeLogSize(lay, s, owner, i, 1);
      }
    }
  }

  lemma UnlinkCount(x: nat, i: nat, d: nat, dirs: set<nat>, maps: set<nat>, n: nat)
    requires dirs <= {d} && |maps| <= n
    ensures |{x, i} + dirs + maps + {i}| <= n + 3
  {
    SubsetSize({x, i} + dirs + maps + {i}, {x, i, d} + maps);
    SumSize({x, i, d}, maps);
  }

  /** sys_unlink of the last link to an inode that nobody uses, with its last iput: what was in the
      file is freed, and with n bitmap blocks for the data at most n + 3 blocks are logged. */
  method UnlinkLast(f: Files, i: nat, dp: nat, off: nat, e: seq<Byte>, dir: bool, ghost n: nat)
    requires f.Ok() && f.dinodes == f.inodes && i < |f.inodes| && dp < |f.inodes| && i != dp
    requires off % ENTRY == 0 && off + ENTRY <= f.inodes[dp].size && |e| == ENTRY && DataParts(f.lay, n)
    modifies f
    ensures f.Ok() && f.dinodes == f.inodes && |f.inodes| == |old(f.inodes)|
    ensures Contents(f.Now(), i) == [] && Contents(f.Now(), dp) == Spliced(old(Contents(f.Now(), dp)), off, e)
    ensures forall j: nat :: j < |f.inodes| && j != i && j != dp ==> Contents(f.Now(), j) == old(Contents(f.Now(), j))
    ensures |f.logged| <= n + 3
  {
    ghost var x := Unlink(f, i, dp, off, e, dir);
    ghost var s, o := f.Now(), f.owner;
    FewMaps(f.lay, s, o, i, n);
    Iput(f, i);
    forall j: nat | j < |s.inodes| ensures Contents(f.Now(), j) == if j == i then [] else Contents(s, j) {
      TruncatedContents(f.lay, s, o, i, f.Now(), j);
    }
    UnlinkCount(x, f.IBlock(i), f.IBlock(dp), if dir then {f.IBlock(dp)} else {}, TruncMaps(f.lay, o, i), n);
  }
}
