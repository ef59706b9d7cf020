/** The image that fs/mkfs.c builds: blocks handed out one after another, files appended to, and
    the bitmap written at the end. The image meets the invariant of the kernel's block map,
    except for a root directory whose size is rounded up past its blocks. */
module Mkfs {
  import opened Basics
  import opened BlockBits
  import opened FileBlocks
  import opened FileOps
  import opened Options

  // ---- Layout

  /** Boot block, super block, log, inode blocks, bitmap blocks. */
  function LayoutOf(size: nat, nlog: nat, ninodes: nat): Layout {
    var inodestart := 2 + nlog;
    var bmapstart := inodestart + ninodes / IPB + 1;
    Layout(size, inodestart, bmapstart, bmapstart + size / BPB + 1)
  }

  /** Every inode and every bit of the bitmap lies in its own stretch of the metadata. */
  lemma LayoutFits(size: nat, nlog: nat, ninodes: nat, i: nat, b: nat)
    requires i < ninodes && b < size
    ensures var lay := LayoutOf(size, nlog, ninodes);
      && 2 + nlog <= lay.inodestart <= i / IPB + lay.inodestart < lay.bmapstart
      && lay.bmapstart <= b / BPB + lay.bmapstart < lay.nmeta
  {}

  // ---- The bitmap

  /** A bitmap with the first n bits set. */
  function MarkTo(len: nat, n: nat): (bm: seq<bv8>)
    requires n <= 8 * len
    ensures |bm| == len
  {
    if n == 0 then seq(len, k => 0) else Mark(MarkTo(len, n - 1), n - 1)
  }

  lemma {:induction false} MarkToUsed(len: nat, n: nat, b: nat)
    requires n <= 8 * len
    ensures Used(MarkTo(len, n), b) <==> b < n
  {
    if n > 0 {
      MarkToUsed(len, n - 1, b);
      MarkOnly(MarkTo(len, n - 1), n - 1);
    }
  }

  // ---- What mkfs keeps

  /** A block of a file beyond its size is not there. */
  ghost predicate Tight(s: State, i: nat, n: nat) {
    i < |s.inodes| && n < MAXFILE && At(s, i, n) != 0 ==> n * BSIZE < s.inodes[i].size
  }

  ghost predicate AllTight(s: State) {
    forall i: nat, n: nat :: Tight(s, i, n)
  }

  ghost predicate Untouched(blocks: seq<Block>, free: nat) {
    forall b :: free <= b < |blocks| ==> blocks[b] == Zeros()
  }

  lemma Handed(lay: Layout, s: State, owner: map<nat, (nat, nat)>, i: nat, n: nat, b: nat)
    requires Inv(lay, s, owner) && b < lay.size && s.bm == MarkTo(|s.bm|, b) && i < |s.inodes| && n <= MAXFILE
      && At(s, i, n) == 0
    requires NDIRECT <= n < MAXFILE ==> At(s, i, MAXFILE) != 0
    ensures Fillable(lay, s, owner, i, n, b)
  {
    MarkToUsed(|s.bm|, b, b);
    assert MarkOk(lay, s.bm, owner, b);
  }

  lemma Below(lay: Layout, s: State, owner: map<nat, (nat, nat)>, i: nat, n: nat, free: nat)
    requires Inv(lay, s, owner) && free <= 8 * |s.bm| && s.bm == MarkTo(|s.bm|, free) && At(s, i, n) != 0
    ensures At(s, i, n) < free
  {
    assert SlotOk(lay, s, owner, i, n) && MarkOk(lay, s.bm, owner, At(s, i, n));
    MarkToUsed(|s.bm|, free, At(s, i, n));
  }

  lemma TightAfter(s0: State, s: State, i: nat, off: nat, src: seq<Byte>)
    requires i < |s0.inodes| && AllTight(s0) && Progress(s0, s, i, off, src, |src|) && off == s0.inodes[i].size
    ensures AllTight(Resized(s, i, off + |src|))
  {
    var s' := Resized(s, i, off + |src|);
    forall j: nat, n: nat ensures Tight(s', j, n) {
      ResizedAt(s, i, off + |src|, j, n);
      assert Tight(s0, j, n);
      if !(j == i && Touched(off, |src|, n)) {
        assert Kept(s0, s, j, n);
      } else {
        assert n * BSIZE <= off + |src| - 1;
      }
    }
  }

  lemma SplicedAtEnd(c: seq<Byte>, src: seq<Byte>)
    ensures Spliced(c, |c|, src) == c + src
  {}

  /** The blocks that iappend has taken at most when it has come to byte tot: one for each block of
      the file that it has finished or begun, and one more each time for the indirect block. */
  function Most(off: nat, len: nat, tot: nat): nat
    requires tot <= len
  {
    2 * ((off + tot) / BSIZE - off / BSIZE + if tot == len then 1 else 0)
  }

  lemma MostNext(off: nat, len: nat, tot: nat, n: nat)
    requires tot < len && n == Min(len - tot, ((off + tot) / BSIZE + 1) * BSIZE - (off + tot))
    ensures 0 < n && tot + n <= len && Most(off, len, tot) + 2 <= Most(off, len, tot + n)
  {}

  lemma MostEnd(off: nat, len: nat, tot: nat)
    requires tot <= len
    ensures Most(off, len, tot) <= Most(off, len, len)
  {}

  // ---- The program

  class Image {
    const lay: Layout
    var bm: seq<bv8>
    var blocks: seq<Block>
    var inodes: seq<Inode>
    var freeblock: nat
    ghost var owner: map<nat, (nat, nat)>

    /** The image as it would be with the bitmap already written. */
    ghost function Now(): State
      reads this
      requires freeblock <= 8 * |bm|
    {
      State(MarkTo(|bm|, freeblock), blocks, inodes)
    }

    ghost predicate Sound()
      reads this
    {
      && lay.size < BPB <= 8 * |bm| && freeblock <= lay.size
      && Inv(lay, Now(), owner) && Untouched(blocks, freeblock)
    }

    ghost predicate Valid()
      reads this
    {
      Sound() && AllTight(Now())
    }

    /** Every sector zeroed, and nothing handed out yet. */
    constructor (lay: Layout, ninodes: nat)
      requires 0 < lay.nmeta <= lay.size < BPB
      ensures Valid() && this.lay == lay && owner == map[] && freeblock == lay.nmeta && |inodes| == ninodes
      ensures forall i :: 0 <= i < ninodes ==> Contents(Now(), i) == []
    {
      this.lay := lay;
      bm := seq(BPB / 8, k => 0);
      blocks := seq(lay.size, b => Zeros());
      inodes := seq(ninodes, i => Inode(0, seq(NDIRECT + 1, n => 0)));
      freeblock := lay.nmeta;
      owner := map[];
      new;
      forall b: nat ensures MarkOk(lay, Now().bm, owner, b) {
        MarkToUsed(|bm|, freeblock, b);
      }
    }

    /** freeblock++ into an empty slot; fails when the image is full. */
    method TakeSlot(i: nat, n: nat) returns (addr: Option<nat>)
      requires Sound() && i < |inodes| && n <= MAXFILE && At(Now(), i, n) == 0
      requires NDIRECT <= n < MAXFILE ==> At(Now(), i, MAXFILE) != 0
      modifies `blocks, `inodes, `freeblock, `owner
      ensures addr == None <==> old(freeblock) == lay.size
      ensures addr == None ==> freeblock == old(freeblock)
      ensures addr.Some? ==> Sound() && Mapped(lay, old(Now()), Now(), owner, i, n, addr.value)
      ensures freeblock <= old(freeblock) + 1
    {
      if freeblock == lay.size {
        return None;
      }
      ghost var s, o := Now(), owner;
      var b := freeblock;
      Handed(lay, s, o, i, n, b);
      IndirectThere(lay, s, o, i, n, b);
      FilledMapped(lay, s, o, i, n, b);
      assert blocks == blocks[b := Zeros()];
      freeblock := freeblock + 1;
      if n < NDIRECT {
        inodes := inodes[i := inodes[i].(addrs := inodes[i].addrs[n := b])];
      } else if n == MAXFILE {
        inodes := inodes[i := inodes[i].(addrs := inodes[i].addrs[NDIRECT := b])];
      } else {
        var a := inodes[i].addrs[NDIRECT];
        assert a == At(s, i, MAXFILE);
        Below(lay, s, o, i, MAXFILE, b);
        blocks := blocks[a := Store(blocks[a], n - NDIRECT, b)];
      }
      owner := owner[b := (i, n)];
      assert Now() == Filled(lay, s, o, i, n, b);
      addr := Some(b);
    }

    /** The block of the file that iappend writes into next. */
    method MapBlock(i: nat, fbn: nat) returns (addr: Option<nat>)
      requires Sound() && i < |inodes| && fbn < MAXFILE
      modifies `blocks, `inodes, `freeblock, `owner
      ensures addr.Some? ==> Sound() && Mapped(lay, old(Now()), Now(), owner, i, fbn, addr.value)
      ensures addr == None ==> freeblock == lay.size
      ensures freeblock <= old(freeblock) + 2
    {
      if fbn < NDIRECT {
        addr := Some(inodes[i].addrs[fbn]);
        if addr.value == 0 {
          addr := TakeSlot(i, fbn);
        }
        return;
      }
      ghost var s := Now();
      var ind := Some(inodes[i].addrs[NDIRECT]);
      if ind.value == 0 {
        ind := TakeSlot(i, MAXFILE);
        if ind == None {
          return None;
        }
      }
      ghost var s1, o1 := Now(), owner;
      assert ind.value == At(s1, i, MAXFILE);
      InRange(lay, s1, owner, i, MAXFILE);
      addr := Some(Load(blocks[ind.value], fbn - NDIRECT));
      assert addr.value == At(s1, i, fbn);
      if addr.value == 0 {
        addr := TakeSlot(i, fbn);
        if addr.Some? {
          MappedAgain(lay, s, s1, Now(), o1, owner, i, fbn, ind.value, addr.value);
        }
      }
    }

    /** One turn of the loop of iappend. */
    method AppendBlock(i: nat, fbn: nat, o: nat, piece: seq<Byte>) returns (ok: bool)
      requires Sound() && i < |inodes| && fbn < MAXFILE && o + |piece| <= BSIZE
      modifies `blocks, `inodes, `freeblock, `owner
      ensures ok ==> Sound() && BlockPut(old(Now()), Now(), i, fbn, o, piece)
      ensures !ok ==> freeblock == lay.size
      ensures freeblock <= old(freeblock) + 2
    {
      ghost var s := Now();
      var addr := MapBlock(i, fbn);
      if addr == None {
        return false;
      }
      ghost var s1 := Now();
      PutBlock(lay, s, s1, owner, i, fbn, o, piece, addr.value);
      Below(lay, s1, owner, i, fbn, freeblock);
      blocks := blocks[addr.value := Overlay(blocks[addr.value], o, piece)];
      assert Now() == Written(s1, addr.value, blocks[addr.value]);
      ok := true;
    }

    /** iappend has written tot bytes. */
    ghost predicate Appending(s0: State, i: nat, off: nat, p: seq<Byte>, tot: nat, f0: nat)
      reads this
    {
      && tot <= |p| && i < |s0.inodes| == |inodes| && off == s0.inodes[i].size && off + tot <= MAXFILE * BSIZE
      && NoHole(s0, i) && Sound() && Progress(s0, Now(), i, off, p, tot)
      && freeblock <= f0 + Most(off, |p|, tot)
    }

    method AppendPiece(i: nat, off: nat, p: seq<Byte>, tot: nat, ghost s0: State, ghost f0: nat)
      returns (ok: bool, n: nat)
      requires tot < |p| && Appending(s0, i, off, p, tot, f0)
      modifies `blocks, `inodes, `freeblock, `owner
      ensures n == Min(|p| - tot, ((off + tot) / BSIZE + 1) * BSIZE - (off + tot))
      ensures ok ==> 0 < n <= |p| - tot && Appending(s0, i, off, p, tot + n, f0)
      ensures !ok ==> freeblock == lay.size || off + |p| > MAXFILE * BSIZE
      ensures !ok ==> freeblock <= f0 + Most(off, |p|, |p|)
    {
      var fbn := (off + tot) / BSIZE;
      n := Min(|p| - tot, (fbn + 1) * BSIZE - (off + tot));
      MostNext(off, |p|, tot, n);
      MostEnd(off, |p|, tot + n);
      if fbn >= MAXFILE {
        return false, n;
      }
      ghost var s := Now();
      ok := AppendBlock(i, fbn, (off + tot) % BSIZE, p[tot..tot + n]);
      if ok {
        ProgressStep(s0, s, Now(), i, off, p, tot, n);
      }
    }

    /** iappend: fails when the file would get too long or the image is full. */
    method Iappend(i: nat, p: seq<Byte>) returns (ok: bool)
      requires Valid() && i < |inodes|
      modifies `blocks, `inodes, `freeblock, `owner
      ensures ok ==> Valid() && Wrote(lay, old(Now()), Now(), owner, i, old(inodes)[i].size, p)
      ensures ok ==> i < |inodes| && Contents(Now(), i) == old(Contents(Now(), i)) + p
      ensures !ok ==> freeblock == lay.size || old(inodes)[i].size + |p| > MAXFILE * BSIZE
      ensures freeblock <= old(freeblock) + Most(old(inodes)[i].size, |p|, |p|)
    {
      ghost var s0, o0, f0 := Now(), owner, freeblock;
      var off := inodes[i].size;
      assert NoHole(s0, i);
      ProgressStart(s0, i, off, p);
      var tot := 0;
      while tot < |p|
        invariant tot <= |p| && Appending(s0, i, off, p, tot, f0)
      {
        var n: nat;
        ok, n := AppendPiece(i, off, p, tot, s0, f0);
        if !ok {
          return;
        }
        tot := tot + n;
      }
      SetSize(i, off, p, s0, o0, f0);
      ok := true;
    }

    /** The end of iappend. */
    method SetSize(i: nat, off: nat, p: seq<Byte>, ghost s0: State, ghost o0: map<nat, (nat, nat)>, ghost f0: nat)
      requires Appending(s0, i, off, p, |p|, f0) && Inv(lay, s0, o0) && AllTight(s0)
      modifies `inodes
      ensures Valid() && Wrote(lay, s0, Now(), owner, i, off, p) && i < |inodes|
      ensures Contents(Now(), i) == Contents(s0, i) + p
    {
      WriteDone(lay, s0, o0, Now(), owner, i, off, p);
      TightAfter(s0, Now(), i, off, p);
      SplicedAtEnd(Contents(s0, i), p);
      inodes := inodes[i := inodes[i].(size := off + |p|)];
    }

    /** balloc of mkfs: the first used bits set. */
    method WriteBitmap(used: nat)
      requires used < BPB <= 8 * |bm|
      modifies `bm
      ensures bm == MarkTo(|old(bm)|, used)
    {
      var buf := seq(|bm|, k => 0);
      for i := 0 to used
        invariant buf == MarkTo(|bm|, i)
      {
        buf := buf[i / 8 := buf[i / 8] | Mask(i % 8)];
      }
      bm := buf;
    }

    /** The end of mkfs: the image is one that the kernel keeps sound, bitmap and all, exactly
        when the root directory does not end at the end of a block. */
    method Finish()
      requires Valid() && ROOTINO < |inodes| && inodes[ROOTINO].size < MAXFILE * BSIZE
      modifies `bm, `inodes
      ensures Inv(lay, State(bm, blocks, inodes), owner) <==> old(inodes)[ROOTINO].size % BSIZE != 0
      ensures NoHole(State(bm, blocks, inodes), ROOTINO) <==> old(inodes)[ROOTINO].size % BSIZE != 0
      ensures inodes == old(inodes)[ROOTINO := old(inodes)[ROOTINO].(size := Rounded(old(inodes)[ROOTINO].size))]
      ensures forall b: nat :: Used(bm, b) <==> b < freeblock
    {
      ghost var s := Now();
      inodes := inodes[ROOTINO := inodes[ROOTINO].(size := Rounded(inodes[ROOTINO].size))];
      WriteBitmap(freeblock);
      RootExactly(lay, s, owner);
      assert State(bm, blocks, inodes) == Resized(s, ROOTINO, Rounded(s.inodes[ROOTINO].size));
      forall b: nat ensures Used(bm, b) <==> b < freeblock {
        MarkToUsed(|bm|, freeblock, b);
      }
    }
  }

  // ---- The root directory

  function Rounded(size: nat): nat {
    (size / BSIZE + 1) * BSIZE
  }

  /** Rounding the size of the root up leaves every block below it there exactly when the size
      was not already a whole number of blocks. */
  lemma RootExactly(lay: Layout, s: State, owner: map<nat, (nat, nat)>)
    requires Inv(lay, s, owner) && AllTight(s) && ROOTINO < |s.inodes| && s.inodes[ROOTINO].size < MAXFILE * BSIZE
    ensures Inv(lay, Resized(s, ROOTINO, Rounded(s.inodes[ROOTINO].size)), owner)
      <==> s.inodes[ROOTINO].size % BSIZE != 0
    ensures NoHole(Resized(s, ROOTINO, Rounded(s.inodes[ROOTINO].size)), ROOTINO)
      <==> s.inodes[ROOTINO].size % BSIZE != 0
  {
    var size := s.inodes[ROOTINO].size;
    var s' := Resized(s, ROOTINO, Rounded(size));
    forall j: nat, m: nat ensures SlotOk(lay, s', owner, j, m) {
      ResizedAt(s, ROOTINO, Rounded(size), j, m);
      assert SlotOk(lay, s, owner, j, m);
    }
    forall b: nat ensures OwnerOk(s', owner, b) {
      assert OwnerOk(s, owner, b);
      if b in owner { ResizedAt(s, ROOTINO, Rounded(size), owner[b].0, owner[b].1); }
    }
    if size % BSIZE != 0 {
      forall j: nat, m: nat ensures There(s', j, m) {
        ResizedAt(s, ROOTINO, Rounded(size), j, m);
        assert NoHole(s, j) && There(s, j, m);
      }
    } else {
      ResizedAt(s, ROOTINO, Rounded(size), ROOTINO, size / BSIZE);
      assert Tight(s, ROOTINO, size / BSIZE);
      assert !There(s', ROOTINO, size / BSIZE);
      assert !NoHole(s', ROOTINO);
    }
  }

  /** With entries of 16 bytes, that is when the directory does not fill its last block. */
  lemma RootEntries(lay: Layout, s: State, owner: map<nat, (nat, nat)>, entries: nat)
    requires Inv(lay, s, owner) && AllTight(s) && ROOTINO < |s.inodes|
      && s.inodes[ROOTINO].size == 16 * entries < MAXFILE * BSIZE
    ensures Inv(lay, Resized(s, ROOTINO, Rounded(s.inodes[ROOTINO].size)), owner) <==> entries % 32 != 0
    ensures NoHole(Resized(s, ROOTINO, Rounded(s.inodes[ROOTINO].size)), ROOTINO) <==> entries % 32 != 0
  {
    RootExactly(lay, s, owner);
  }

  /** An input for which the rounding leaves a hole: a root directory of 32 entries, built as mkfs
      builds it, one entry at a time. Its size is then two blocks and only one is there, so that the
      image is unsound whoever is taken for the owner of a block. */
  method FullRoot(lay: Layout, ninodes: nat, entries: seq<seq<Byte>>) returns (img: Image)
    requires 0 < lay.nmeta && lay.nmeta + 128 < lay.size < BPB && ROOTINO < ninodes
    requires |entries| == 32 && forall k :: 0 <= k < |entries| ==> |entries[k]| == 16
    ensures var s := State(img.bm, img.blocks, img.inodes);
      && ROOTINO < |s.inodes| && s.inodes[ROOTINO].size == 2 * BSIZE && At(s, ROOTINO, 1) == 0
      && !NoHole(s, ROOTINO) && forall owner :: !Inv(lay, s, owner)
  {
    img := new Image(lay, ninodes);
    assert |Contents(img.Now(), ROOTINO)| == img.inodes[ROOTINO].size;
    for k := 0 to |entries|
      invariant fresh(img) && img.lay == lay && img.Valid() && ROOTINO < |img.inodes|
        && img.inodes[ROOTINO].size == 16 * k
      invariant img.freeblock <= lay.nmeta + 4 * k
    {
      var ok := img.Iappend(ROOTINO, entries[k]);
    }
    assert Tight(img.Now(), ROOTINO, 1);
    img.Finish();
    assert !There(State(img.bm, img.blocks, img.inodes), ROOTINO, 1);
  }
}
