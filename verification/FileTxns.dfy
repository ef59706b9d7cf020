/** How many blocks the transactions of kernel/sysfile.c log that change directories and free inodes:
    create, sys_link, sys_unlink and the last iput of an unlinked inode, as sequences of iupdate,
    writei of one directory entry and itrunc. An inode here is its size and its slots; the
    fields that a step of these changes besides (type, nlink) lie in the block that iupdate logs. */
module FileTxns {
  import opened Basics
  import opened BlockBits
  import opened FileBlocks
  import opened FileOps
  import opened Options
  import opened Sets

  /** sizeof(struct dirent) */
  const ENTRY: nat := 16

  // ---- Counting

  /** What a transaction has logged, by kinds of blocks. */
  ghost predicate Counted(lay: Layout, log: set<nat>, inodes: set<nat>, p: Parts) {
    log <= inodes + p.data + p.ind + p.maps && InMap(lay, p.maps)
  }

  lemma CountedSize(lay: Layout, log: set<nat>, inodes: set<nat>, p: Parts)
    requires Counted(lay, log, inodes, p)
    ensures |log| <= |inodes| + |p.data| + |p.ind| + |p.maps|
    ensures 0 < lay.size <= BPB ==> |log| <= |inodes| + |p.data| + |p.ind| + 1
  {
    SubsetSize(log, inodes + p.data + p.ind + p.maps);
    SumSize(inodes, p.data);
    SumSize(inodes + p.data, p.ind);
    SumSize(inodes + p.data + p.ind, p.maps);
    if 0 < lay.size <= BPB { OneMap(lay, p.maps); }
  }

  ghost function Both(p: Parts, q: Parts): Parts {
    Parts(p.data + q.data, p.ind + q.ind, p.maps + q.maps)
  }

  lemma BothSize(p: Parts, q: Parts)
    ensures |Both(p, q).data| <= |p.data| + |q.data| && |Both(p, q).ind| <= |p.ind| + |q.ind|
    ensures |Both(p, q).maps| <= |p.maps| + |q.maps|
  {
    SumSize(p.data, q.data);
    SumSize(p.ind, q.ind);
    SumSize(p.maps, q.maps);
  }

  lemma CountedMore(lay: Layout, log: set<nat>, log': set<nat>, inodes: set<nat>, inode: nat, p: Parts, q: Parts)
    requires Counted(lay, log, inodes, p) && InMap(lay, q.maps)
    requires log' <= log + q.data + q.ind + q.maps + {inode}
    ensures Counted(lay, log', inodes + {inode}, Both(p, q))
  {}

  /** A directory entry lies in one block. */
  lemma EntrySpan(off: nat)
    requires off % ENTRY == 0
    ensures Spanned(off, ENTRY) == 1 && Allocations(off, ENTRY) <= 2
  {
    var q := off / ENTRY;
    assert off == ENTRY * q && off / BSIZE == q / 32 && off % BSIZE == ENTRY * (q % 32);
  }

  // ---- The transactions

  /** dirlink's writei of an entry. A refusal or a lack of blocks is a panic. */
  method WriteEntry(f: Files, dp: nat, off: nat, e: seq<Byte>) returns (r: Outcome, ghost p: Parts)
    requires f.Ok() && f.dinodes == f.inodes && dp < |f.inodes|
    requires off % ENTRY == 0 && off <= f.inodes[dp].size && |e| == ENTRY
    modifies f`bm, f`blocks, f`inodes, f`dinodes, f`owner, f`logged
    ensures r == Refused <==> off + ENTRY > MAXFILE * BSIZE
    ensures r == OutOfBlocks ==> Full(f.lay, f.bm) && off + ENTRY > old(f.inodes)[dp].size
    ensures r == Done ==> Wrote(f.lay, old(f.Now()), f.Now(), f.owner, dp, off, e) && f.dinodes == f.inodes
    ensures r == Done ==>
      && LogsAs(f.lay, old(f.logged), f.logged, old(f.inodes)[dp].size, off, ENTRY, f.IBlock(dp), p)
      && |p.data| <= 1 && |p.ind| <= 1 && |p.maps| <= 2
    ensures r == Done && off + ENTRY <= NDIRECT * BSIZE ==> p.ind == {} && |p.maps| <= if off % BSIZE == 0 then 1 else 0
  {
    EntrySpan(off);
    assert off + ENTRY < WORD;
    r, p := f.Writei(dp, off, e);
  }

  /** The "." and ".." of a new directory. */
  method WriteDots(f: Files, i: nat, dot: seq<Byte>, dotdot: seq<Byte>) returns (r: Outcome, ghost p: Parts)
    requires f.Ok() && f.dinodes == f.inodes && i < |f.inodes| && f.inodes[i].size == 0 && |dot| == |dotdot| == ENTRY
    modifies f`bm, f`blocks, f`inodes, f`dinodes, f`owner, f`logged
    ensures r == Done || (r == OutOfBlocks && Full(f.lay, f.bm))
    ensures r == Done ==> Wrote(f.lay, old(f.Now()), f.Now(), f.owner, i, 0, dot + dotdot) && f.dinodes == f.inodes
    ensures r == Done ==>
      && f.logged <= old(f.logged) + p.data + p.ind + p.maps + {f.IBlock(i)} && InMap(f.lay, p.maps)
      && |p.data| <= 2 && p.ind == {} && |p.maps| <= 1
  {
    ghost var s := f.Now();
    r, p := WriteEntry(f, i, 0, dot);
    if r != Done {
      return;
    }
    ghost var s1, o1 := f.Now(), f.owner;
    SizeAfter(f.lay, s, s1, o1, i, 0, dot);
    ghost var q;
    r, q := WriteEntry(f, i, ENTRY, dotdot);
    if r == Done {
      WroteTwice(f.lay, s, s1, f.Now(), o1, f.owner, i, 0, dot, dotdot);
      BothSize(p, q);
      p := Both(p, q);
    }
  }

  lemma SizeAfter(lay: Layout, s: State, s': State, owner': map<nat, (nat, nat)>, i: nat, off: nat, src: seq<Byte>)
    requires Wrote(lay, s, s', owner', i, off, src)
    ensures s'.inodes[i].size == Max(s.inodes[i].size, off + |src|)
  {
    assert |Contents(s', i)| == s'.inodes[i].size && |Contents(s, i)| == s.inodes[i].size;
  }

  /** create up to the entry in the parent: the inode, and the dots of a directory. */
  method NewInode(f: Files, i: nat, dp: nat, dir: bool, dot: seq<Byte>, dotdot: seq<Byte>)
    returns (r: Outcome, ghost p: Parts)
    requires f.Ok() && f.dinodes == f.inodes && i < |f.inodes| && dp < |f.inodes| && i != dp && f.inodes[i].size == 0
    requires |dot| == |dotdot| == ENTRY
    modifies f
    ensures r == Done || (r == OutOfBlocks && Full(f.lay, f.bm))
    ensures r == Done ==>
      && Wrote(f.lay, old(f.Now()), f.Now(), f.owner, i, 0, if dir then dot + dotdot else []) && f.dinodes == f.inodes
      && Counted(f.lay, f.logged, {f.IBlock(i), f.IBlock(dp)}, p) && |p.data| <= 2 && p.ind == {} && |p.maps| <= 1
  {
    f.logged := {f.IBlock(i)}; // ialloc
    f.Iupdate(i);
    r, p := Done, Parts({}, {}, {});
    if dir {
      f.Iupdate(dp);
      r, p := WriteDots(f, i, dot, dotdot);
    } else {
      WroteNone(f.lay, f.Now(), f.owner, i);
    }
  }

  lemma WroteNone(lay: Layout, s: State, owner: map<nat, (nat, nat)>, i: nat)
    requires Inv(lay, s, owner) && i < |s.inodes|
    ensures Wrote(lay, s, s, owner, i, 0, [])
  {
    assert Spliced(Contents(s, i), 0, []) == Contents(s, i);
  }

  /** create of inode i in directory dp, whose entry goes to offset off. It logs at most nine blocks,
      and seven if one bitmap block covers the disk. */
  method Create(f: Files, i: nat, dp: nat, off: nat, e: seq<Byte>, dir: bool, dot: seq<Byte>, dotdot: seq<Byte>)
    returns (r: Outcome)
    requires f.Ok() && f.dinodes == f.inodes && i < |f.inodes| && dp < |f.inodes| && i != dp && f.inodes[i].size == 0
    requires off % ENTRY == 0 && off <= f.inodes[dp].size && |e| == |dot| == |dotdot| == ENTRY
    modifies f
    ensures r == Refused ==> off + ENTRY > MAXFILE * BSIZE
    ensures r == OutOfBlocks ==> Full(f.lay, f.bm)
    ensures r == Done ==> Made(f.lay, old(f.Now()), f.Now(), f.owner, i, dp, off, e, if dir then dot + dotdot else [])
    ensures r == Done ==> f.dinodes == f.inodes && |f.logged| <= 9 && (f.lay.size <= BPB ==> |f.logged| <= 7)
  {
    ghost var p, q;
    ghost var s := f.Now();
    r, p := NewInode(f, i, dp, dir, dot, dotdot);
    if r != Done {
      return;
    }
    ghost var s1, log, o1 := f.Now(), f.logged, f.owner;
    assert s1.inodes[dp] == s.inodes[dp];
    r, q := WriteEntry(f, dp, off, e);
    if r == Done {
      MadeBoth(f.lay, s, s1, f.Now(), o1, f.owner, i, dp, off, e, if dir then dot + dotdot else []);
      EntryCount(f.lay, log, f.logged, {f.IBlock(i), f.IBlock(dp)}, f.IBlock(dp), p, q, 2, 0, 1);
    }
  }

  /** The entry is in the parent, the new inode has its contents, and every other file is as it was. */
  ghost predicate Made(lay: Layout, s: State, s': State, owner': map<nat, (nat, nat)>, i: nat, dp: nat, off: nat,
                       e: seq<Byte>, c: seq<Byte>)
    requires i < |s.inodes| && dp < |s.inodes| && off <= s.inodes[dp].size
  {
    && Inv(lay, s', owner') && |s'.inodes| == |s.inodes|
    && Contents(s', dp) == Spliced(Contents(s, dp), off, e) && Contents(s', i) == c
    && forall j: nat :: j < |s.inodes| && j != i && j != dp ==> Contents(s', j) == Contents(s, j)
  }

  lemma MadeBoth(lay: Layout, s: State, s1: State, s2: State, o1: map<nat, (nat, nat)>, o2: map<nat, (nat, nat)>,
                 i: nat, dp: nat, off: nat,
                 e: seq<Byte>, c: seq<Byte>)
    requires i < |s.inodes| && dp < |s.inodes| && i != dp && s.inodes[i].size == 0 && off <= s.inodes[dp].size
    requires Wrote(lay, s, s1, o1, i, 0, c) && Wrote(lay, s1, s2, o2, dp, off, e)
    ensures Made(lay, s, s2, o2, i, dp, off, e, c)
  {
    assert Contents(s, i) == [] && Spliced([], 0, c) == c;
    forall j: nat | j < |s.inodes| && j != i && j != dp ensures Contents(s2, j) == Contents(s, j) {
      assert s1.inodes[j] == s.inodes[j];
    }
  }

  /** A transaction that ends with the writing of an entry. */
  lemma EntryCount(lay: Layout, log: set<nat>, log': set<nat>, inodes: set<nat>, inode: nat, p: Parts, q: Parts,
                   data: nat, ind: nat, maps: nat)
    requires Counted(lay, log, inodes, p) && inode in inodes && |p.data| <= data && |p.ind| <= ind && |p.maps| <= maps
    requires log' <= log + q.data + q.ind + q.maps + {inode} && InMap(lay, q.maps) && |q.data| <= 1 && |q.ind| <= 1
      && |q.maps| <= 2
    requires 0 < lay.size && |inodes| <= 2
    ensures |log'| <= 2 + data + 1 + ind + 1 + maps + 2
    ensures lay.size <= BPB ==> |log'| <= 2 + data + 1 + ind + 1 + 1
  {
    CountedMore(lay, log, log', inodes, inode, p, q);
    BothSize(p, q);
    assert inodes + {inode} == inodes;
    CountedSize(lay, log', inodes, Both(p, q));
  }

  /** sys_link of inode i up to the iput at its end: the raised count, and either the entry or the
      count taken back. It logs at most six blocks, and five if one bitmap block covers the disk. */
  method Link(f: Files, i: nat, dp: nat, off: nat, e: seq<Byte>, enter: bool) returns (r: Outcome)
    requires f.Ok() && f.dinodes == f.inodes && i < |f.inodes| && dp < |f.inodes|
    requires off % ENTRY == 0 && off <= f.inodes[dp].size && |e| == ENTRY
    modifies f
    ensures r == Refused ==> enter && off + ENTRY > MAXFILE * BSIZE
    ensures r == OutOfBlocks ==> enter && Full(f.lay, f.bm)
    ensures r == Done ==>
      && (if enter then Wrote(f.lay, old(f.Now()), f.Now(), f.owner, dp, off, e) else f.Now() == old(f.Now()) && f.Ok())
      && f.dinodes == f.inodes && |f.logged| <= 6 && (f.lay.size <= BPB ==> |f.logged| <= 5)
  {
    f.logged := {};
    f.Iupdate(i);
    if !enter {
      f.Iupdate(i);
      return Done;
    }
    ghost var q, log := Parts({}, {}, {}), f.logged;
    r, q := WriteEntry(f, dp, off, e);
    if r == Done {
      EntryCount(f.lay, log, f.logged, {f.IBlock(i), f.IBlock(dp)}, f.IBlock(dp), Parts({}, {}, {}), q, 0, 0, 0);
    }
  }

  /** sys_unlink of inode i up to its last iput: the entry is cleared, in a block that is there, so
      that there is no panic, and exactly that block and the blocks of the inodes are logged. */
  method Unlink(f: Files, i: nat, dp: nat, off: nat, e: seq<Byte>, dir: bool) returns (ghost x: nat)
    requires f.Ok() && f.dinodes == f.inodes && i < |f.inodes| && dp < |f.inodes|
    requires off % ENTRY == 0 && off + ENTRY <= f.inodes[dp].size && |e| == ENTRY
    modifies f
    ensures Wrote(f.lay, old(f.Now()), f.Now(), f.owner, dp, off, e) && f.dinodes == f.inodes
    ensures f.lay.nmeta <= x && f.logged == {x, f.IBlock(i)} + if dir then {f.IBlock(dp)} else {}
  {
    f.logged := {};
    x := ClearEntry(f, dp, off, e);
    if dir {
      f.Iupdate(dp);
    }
    f.Iupdate(i);
  }

  /** writei over an entry that is there. */
  method ClearEntry(f: Files, dp: nat, off: nat, e: seq<Byte>) returns (ghost x: nat)
    requires f.Ok() && f.dinodes == f.inodes && dp < |f.inodes|
    requires off % ENTRY == 0 && off + ENTRY <= f.inodes[dp].size && |e| == ENTRY
    modifies f`bm, f`blocks, f`inodes, f`dinodes, f`owner, f`logged
    ensures Wrote(f.lay, old(f.Now()), f.Now(), f.owner, dp, off, e) && f.dinodes == f.inodes
    ensures f.lay.nmeta <= x && f.logged == old(f.logged) + {x}
  {
    var r;
    ghost var p;
    r, p := WriteEntry(f, dp, off, e);
    x :| x in p.data;
    OneElement(p.data, x);
  }

  lemma OneElement(a: set<nat>, x: nat)
    requires x in a && |a| <= 1
    ensures a == {x}
  {
    assert a == {x} + (a - {x});
  }

  /** The last iput of an inode without links: itrunc and a last iupdate, in the transaction that is
      open. */
  method Iput(f: Files, i: nat)
    requires f.Ok() && f.dinodes == f.inodes && i < |f.inodes|
    modifies f`bm, f`inodes, f`dinodes, f`owner, f`logged
    ensures f.Ok() && f.dinodes == f.inodes
    ensures Truncated(f.lay, old(f.Now()), old(f.owner), i, f.Now())
    ensures f.logged == old(f.logged) + TruncMaps(f.lay, old(f.owner), i) + {f.IBlock(i)}
  {
    f.Itrunc(i);
    f.Iupdate(i);
  }
}
