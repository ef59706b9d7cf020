/** Link counts and directory contents: dirlookup and dirlink of kernel/fs.c, and create,
    sys_link and sys_unlink of kernel/sysfile.c. An inode is locked while it is changed, so
    every step here is what happens between two points at which other operations can run;
    sys_link has such a point between raising the link count and adding the entry. The one inside
    sys_unlink is in UnlinkWindow. */
module Directories {

  import opened Basics
  import opened Options
  import opened Sets

  const DIRSIZ: nat := 14

  datatype Kind = Free | Dir | File | Dev

  /** A directory entry; inum 0 marks an empty one. */
  datatype Dirent = Dirent(inum: nat, name: string)

  /** An inode, with the entries of its contents if it is a directory. */
  datatype Inode = Inode(kind: Kind, nlink: nat, entries: seq<Dirent>)

  /** pending[i]: links to inode i that sys_link has counted and not yet entered. */
  datatype State = State(inodes: seq<Inode>, pending: seq<nat>)

  // ---- Names

  /** What strncpy keeps of a name and strncmp looks at. */
  function Stored(name: string): string {
    if |name| <= DIRSIZ then name else name[..DIRSIZ]
  }

  predicate SameName(a: string, b: string) {
    Stored(a) == Stored(b)
  }

  // ---- Searching a directory

  predicate Hit(e: Dirent, name: string) {
    e.inum != 0 && SameName(e.name, name)
  }

  ghost predicate Absent(entries: seq<Dirent>, name: string) {
    forall k :: 0 <= k < |entries| ==> !Hit(entries[k], name)
  }

  /** dirlookup: the first entry with that name. */
  method DirLookup(entries: seq<Dirent>, name: string) returns (off: Option<nat>)
    ensures off.Some? ==> off.value < |entries| && Hit(entries[off.value], name)
                          && forall j :: 0 <= j < off.value ==> !Hit(entries[j], name)
    ensures off == None <==> Absent(entries, name)
  {
    for k := 0 to |entries|
      invariant forall j :: 0 <= j < k ==> !Hit(entries[j], name)
    {
      if entries[k].inum != 0 && SameName(name, entries[k].name) {
        return Some(k);
      }
    }
    off := None;
  }

  /** The slot that dirlink fills: the first empty entry, or a new one at the end. */
  ghost predicate FreeSlot(entries: seq<Dirent>, k: nat) {
    && k <= |entries| && (k < |entries| ==> entries[k].inum == 0)
    && forall j :: 0 <= j < k ==> entries[j].inum != 0
  }

  function Put(entries: seq<Dirent>, k: nat, e: Dirent): seq<Dirent>
    requires k <= |entries|
  {
    if k < |entries| then entries[k := e] else entries + [e]
  }

  /** dirlink: fails if the name is there, otherwise enters it into the first empty slot. */
  method DirLink(entries: seq<Dirent>, name: string, inum: nat) returns (ok: bool, r: seq<Dirent>)
    ensures ok <==> Absent(entries, name)
    ensures !ok ==> r == entries
    ensures ok ==> exists k :: FreeSlot(entries, k) && r == Put(entries, k, Dirent(inum, Stored(name)))
  {
    var off := DirLookup(entries, name);
    if off.Some? {
      return false, entries;
    }
    var k := 0;
    while k < |entries| && entries[k].inum != 0
      invariant 0 <= k <= |entries| && forall j :: 0 <= j < k ==> entries[j].inum != 0
    {
      k := k + 1;
    }
    assert FreeSlot(entries, k);
    return true, Put(entries, k, Dirent(inum, Stored(name)));
  }

  /** isdirempty: nothing but the first two entries. */
  method IsDirEmpty(entries: seq<Dirent>) returns (r: bool)
    ensures r <==> Empty(entries)
  {
    for k := 2 to if |entries| < 2 then 2 else |entries|
      invariant forall j :: 2 <= j < k && j < |entries| ==> entries[j].inum == 0
    {
      if entries[k].inum != 0 {
        return false;
      }
    }
    r := true;
  }

  ghost predicate Empty(entries: seq<Dirent>) {
    forall j :: 2 <= j < |entries| ==> entries[j].inum == 0
  }

  // ---- What a link count should be

  ghost predicate IsDir(inodes: seq<Inode>, d: nat) {
    d < |inodes| && inodes[d].kind == Dir
  }

  /** A directory that is itself linked to; an unlinked one may linger while it is in use. */
  ghost predicate Live(inodes: seq<Inode>, d: nat) {
    IsDir(inodes, d) && inodes[d].nlink > 0
  }

  /** Entry k of live directory d, other than ".", names inode i. */
  ghost predicate Refers(inodes: seq<Inode>, d: nat, k: nat, i: nat) {
    && Live(inodes, d) && k < |inodes[d].entries| && i != 0
    && inodes[d].entries[k].inum == i && inodes[d].entries[k].name != "."
  }

  ghost function Refs(inodes: seq<Inode>, i: nat): set<(nat, nat)> {
    set d: nat, k: nat | d < |inodes| && k < |inodes[d].entries| && Refers(inodes, d, k, i) :: (d, k)
  }

  /** Entry k of live directory d is an ordinary entry for directory c. */
  ghost predicate Holds(inodes: seq<Inode>, d: nat, k: nat, c: nat) {
    k >= 2 && Refers(inodes, d, k, c) && IsDir(inodes, c)
  }

  // ---- The invariant

  /** Every directory starts with "." and "..", and only the root is its own parent. */
  ghost predicate DotsOk(inodes: seq<Inode>, d: nat)
    requires d < |inodes|
  {
    inodes[d].kind == Dir ==>
      && |inodes[d].entries| >= 2
      && inodes[d].entries[0] == Dirent(d, ".")
      && inodes[d].entries[1].name == ".." && 0 < inodes[d].entries[1].inum < |inodes|
      && (inodes[d].entries[1].inum == d <==> d == ROOTINO)
  }

  ghost predicate NamesOk(entries: seq<Dirent>) {
    forall k, l :: 0 <= k < l < |entries| && entries[k].inum != 0 && entries[l].inum != 0 ==>
      !SameName(entries[k].name, entries[l].name)
  }

  ghost predicate CountOk(s: State, i: nat)
    requires i < |s.inodes| == |s.pending|
  {
    if s.inodes[i].kind == Free then Refs(s.inodes, i) == {} && s.pending[i] == 0
    else s.inodes[i].nlink == |Refs(s.inodes, i)| + s.pending[i] && (s.inodes[i].kind == Dir ==> s.pending[i] == 0)
  }

  ghost predicate CountsOk(s: State) {
    |s.inodes| == |s.pending| && forall i :: 0 <= i < |s.inodes| ==> CountOk(s, i)
  }

  /** The tree: a live directory other than the root is held by its parent, which is live. */
  ghost predicate ParentOk(inodes: seq<Inode>, c: nat) {
    Live(inodes, c) && c != ROOTINO && |inodes[c].entries| >= 2 ==>
      Live(inodes, inodes[c].entries[1].inum) && exists k: nat :: Holds(inodes, inodes[c].entries[1].inum, k, c)
  }

  ghost predicate HeldOk(inodes: seq<Inode>) {
    && (forall d: nat, k: nat, c: nat :: Holds(inodes, d, k, c) ==>
          Live(inodes, c) && c != ROOTINO && |inodes[c].entries| >= 2 && inodes[c].entries[1].inum == d)
    && (forall d: nat, k: nat, l: nat, c: nat :: Holds(inodes, d, k, c) && Holds(inodes, d, l, c) ==> k == l)
  }

  ghost predicate InRange(inodes: seq<Inode>) {
    forall d: nat, k: nat, i: nat :: Refers(inodes, d, k, i) ==> i < |inodes|
  }

  ghost predicate InodeOk(s: State, i: nat)
    requires i < |s.inodes| == |s.pending|
  {
    && DotsOk(s.inodes, i) && CountOk(s, i) && ParentOk(s.inodes, i)
    && (s.inodes[i].kind == Dir ==> NamesOk(s.inodes[i].entries))
    && (s.inodes[i].kind == Dir && s.inodes[i].nlink == 0 ==> Empty(s.inodes[i].entries))
  }

  ghost predicate Inv(s: State) {
    && |s.pending| == |s.inodes| && ROOTINO < |s.inodes| && Live(s.inodes, ROOTINO)
    && s.inodes[0].kind == Free
    && (forall i :: 0 <= i < |s.inodes| ==> InodeOk(s, i))
    && HeldOk(s.inodes) && InRange(s.inodes)
  }

  // ---- Steps

  ghost predicate UnlinkStep(s: State, dp: nat, name: string, off: nat, s': State) {
    && IsDir(s.inodes, dp) && !SameName(name, ".") && !SameName(name, "..")
    && off < |s.inodes[dp].entries| && Hit(s.inodes[dp].entries[off], name)
    && var i := s.inodes[dp].entries[off].inum;
       && i < |s.inodes| && i != dp && s.inodes[i].nlink >= 1
       && (s.inodes[i].kind == Dir ==> Empty(s.inodes[i].entries) && s.inodes[dp].nlink >= 1)
       && s' == s.(inodes := s.inodes
            [dp := Inode(Dir, s.inodes[dp].nlink - (if s.inodes[i].kind == Dir then 1 else 0),
                         s.inodes[dp].entries[off := Dirent(0, "")])]
            [i := s.inodes[i].(nlink := s.inodes[i].nlink - 1)])
  }

  /** create when the name is not there: a fresh inode, with dots if it is a directory. */
  ghost predicate CreateStep(s: State, dp: nat, name: string, kind: Kind, i: nat, k: nat, s': State) {
    && IsDir(s.inodes, dp) && Absent(s.inodes[dp].entries, name) && FreeSlot(s.inodes[dp].entries, k)
    && kind != Free && 0 < i < |s.inodes| && s.inodes[i].kind == Free
    && s' == s.(inodes := s.inodes
         [i := Inode(kind, 1, if kind == Dir then [Dirent(i, "."), Dirent(dp, "..")] else [])]
         [dp := Inode(Dir, s.inodes[dp].nlink + (if kind == Dir then 1 else 0),
                      Put(s.inodes[dp].entries, k, Dirent(i, Stored(name))))])
  }

  /** sys_link up to the point where it unlocks the inode. */
  ghost predicate LinkBeginStep(s: State, i: nat, s': State) {
    && i < |s.inodes| == |s.pending| && (s.inodes[i].kind == File || s.inodes[i].kind == Dev)
    && s' == State(s.inodes[i := s.inodes[i].(nlink := s.inodes[i].nlink + 1)], s.pending[i := s.pending[i] + 1])
  }

  ghost predicate LinkEnterStep(s: State, i: nat, dp: nat, name: string, k: nat, s': State) {
    && i < |s.inodes| == |s.pending| && s.pending[i] > 0
    && IsDir(s.inodes, dp) && Absent(s.inodes[dp].entries, name) && FreeSlot(s.inodes[dp].entries, k)
    && s' == State(
         s.inodes[dp := s.inodes[dp].(entries := Put(s.inodes[dp].entries, k, Dirent(i, Stored(name))))],
         s.pending[i := s.pending[i] - 1])
  }

  ghost predicate LinkAbortStep(s: State, i: nat, s': State) {
    && i < |s.inodes| == |s.pending| && s.pending[i] > 0 && s.inodes[i].nlink > 0
    && s' == State(s.inodes[i := s.inodes[i].(nlink := s.inodes[i].nlink - 1)], s.pending[i := s.pending[i] - 1])
  }

  /** iput of the last reference to an inode without links. */
  ghost predicate ReclaimStep(s: State, i: nat, s': State) {
    && i < |s.inodes| && s.inodes[i].kind != Free && s.inodes[i].nlink == 0
    && s' == s.(inodes := s.inodes[i := Inode(Free, 0, [])])
  }

  // ---- Unlink

  /** An ordinary entry sits behind the dots. */
  lemma OrdinarySlot(s: State, dp: nat, name: string, off: nat)
    requires Inv(s) && IsDir(s.inodes, dp) && off < |s.inodes[dp].entries| && Hit(s.inodes[dp].entries[off], name)
    requires !SameName(name, ".") && !SameName(name, "..")
    ensures off >= 2 && Live(s.inodes, dp) && s.inodes[dp].entries[off].name != "."
    ensures Refers(s.inodes, dp, off, s.inodes[dp].entries[off].inum)
  {
    assert InodeOk(s, dp);
    var e := s.inodes[dp].entries;
    assert e[0].name == "." && e[1].name == "..";
    if off >= 2 {
      assert NamesOk(e);
      assert !SameName(e[0].name, e[off].name);
    }
  }

  /** An empty directory is named by its parent and by nobody else. */
  lemma EmptyDirRefs(s: State, dp: nat, off: nat, c: nat)
    requires Inv(s) && Holds(s.inodes, dp, off, c) && Empty(s.inodes[c].entries)
    ensures Refs(s.inodes, c) == {(dp, off)} && s.inodes[c].nlink == 1
    ensures s.inodes[c].entries[1].inum == dp && dp != c
  {
    forall d: nat, k: nat | Refers(s.inodes, d, k, c) ensures d == dp && k == off {
      assert InodeOk(s, d) && InodeOk(s, c);
      if k >= 2 { assert Holds(s.inodes, d, k, c); }
    }
    assert (dp, off) in Refs(s.inodes, c);
    assert InodeOk(s, c);
    assert InodeOk(s, c);
  }

  /** A live directory has a link that is not the ".." of a given subdirectory. */
  lemma OtherLink(s: State, d: nat, c: nat)
    requires Inv(s) && Live(s.inodes, d) && Refers(s.inodes, c, 1, d) && c != d
    ensures s.inodes[d].nlink >= 2
  {
    assert InodeOk(s, d);
    var x: (nat, nat);
    if d == ROOTINO {
      x := (d, 1);
    } else {
      assert InodeOk(s, d);
      var p := s.inodes[d].entries[1].inum;
      var k: nat :| Holds(s.inodes, p, k, d);
      x := (p, k);
    }
    assert x in Refs(s.inodes, d) && (c, 1) in Refs(s.inodes, d);
    TwoElements(Refs(s.inodes, d), x, (c, 1));
  }

  lemma TwoElements<T>(a: set<T>, x: T, y: T)
    requires x in a && y in a && x != y
    ensures |a| >= 2
  {
    assert a == {x, y} + (a - {x, y});
  }

  /** The facts about one unlink that the rest of its proof needs. */
  ghost predicate Unlinking(s: State, dp: nat, off: nat, i: nat) {
    && off >= 2 && Refers(s.inodes, dp, off, i) && i < |s.inodes| && i != dp && i != ROOTINO && dp != 0
    && s.inodes[i].kind != Free && s.inodes[i].nlink >= 1
    && (s.inodes[i].kind == Dir ==>
          && Refs(s.inodes, i) == {(dp, off)} && s.inodes[i].nlink == 1 && Empty(s.inodes[i].entries)
          && |s.inodes[i].entries| >= 2 && s.inodes[i].entries[0].name == "."
          && s.inodes[i].entries[1] == Dirent(dp, "..") && s.inodes[dp].nlink >= 2)
  }

  lemma UnlinkFacts(s: State, dp: nat, name: string, off: nat, s': State)
    requires Inv(s) && UnlinkStep(s, dp, name, off, s')
    ensures Unlinking(s, dp, off, s.inodes[dp].entries[off].inum)
  {
    var i := s.inodes[dp].entries[off].inum;
    OrdinarySlot(s, dp, name, off);
    assert (dp, off) in Refs(s.inodes, i);
    assert InodeOk(s, i);
    if s.inodes[i].kind == Dir {
      assert Holds(s.inodes, dp, off, i);
      EmptyDirRefs(s, dp, off, i);
      assert InodeOk(s, i) && InodeOk(s, dp);
      assert Refers(s.inodes, i, 1, dp);
      OtherLink(s, dp, i);
    }
  }

  /** Which entries refer after an unlink: all but the one removed and, if a directory went,
      those that are in it. */
  lemma UnlinkRefers(s: State, dp: nat, name: string, off: nat, s': State, d: nat, k: nat, j: nat)
    requires UnlinkStep(s, dp, name, off, s') && Unlinking(s, dp, off, s.inodes[dp].entries[off].inum)
    ensures var i := s.inodes[dp].entries[off].inum;
      Refers(s'.inodes, d, k, j) <==>
        Refers(s.inodes, d, k, j) && (d, k) != (dp, off) && !(s.inodes[i].kind == Dir && d == i)
  {}

  ghost function Gone(s: State, dp: nat, off: nat, i: nat): set<(nat, nat)>
    requires i < |s.inodes|
  {
    if s.inodes[i].kind == Dir then {(dp, off), (i, 1)} else {(dp, off)}
  }

  lemma UnlinkRefs(s: State, dp: nat, name: string, off: nat, s': State, j: nat)
    requires UnlinkStep(s, dp, name, off, s') && Unlinking(s, dp, off, s.inodes[dp].entries[off].inum)
    ensures Refs(s'.inodes, j) == Refs(s.inodes, j) - Gone(s, dp, off, s.inodes[dp].entries[off].inum)
  {
    var i := s.inodes[dp].entries[off].inum;
    forall d: nat, k: nat
      ensures (d, k) in Refs(s'.inodes, j) <==> (d, k) in Refs(s.inodes, j) && (d, k) !in Gone(s, dp, off, i)
    {
      UnlinkRefers(s, dp, name, off, s', d, k, j);
      assert s.inodes[i].kind == Dir && d == i && Refers(s.inodes, d, k, j) ==> k == 1;
    }
  }

  /** Which of the removed entries named j. */
  ghost function HitBy(s: State, dp: nat, off: nat, i: nat, j: nat): set<(nat, nat)>
    requires i < |s.inodes|
  {
    if j == i then {(dp, off)} else if j == dp && s.inodes[i].kind == Dir then {(i, 1)} else {}
  }

  lemma UnlinkHit(s: State, dp: nat, off: nat, i: nat, j: nat)
    requires Unlinking(s, dp, off, i)
    ensures Refs(s.inodes, j) * Gone(s, dp, off, i) == HitBy(s, dp, off, i, j)
  {
    assert (dp, off) in Refs(s.inodes, j) <==> j == i;
    if s.inodes[i].kind == Dir {
      assert (i, 1) in Refs(s.inodes, j) <==> j == dp;
    }
  }

  lemma RemoveCount<T>(a: set<T>, gone: set<T>, hit: set<T>)
    requires a * gone == hit
    ensures |a - gone| == |a| - |hit|
  {
    assert a == (a - gone) + hit;
  }

  lemma UnlinkCount(s: State, dp: nat, name: string, off: nat, s': State, j: nat)
    requires |s.pending| == |s.inodes| && j < |s.inodes| && CountOk(s, j)
    requires UnlinkStep(s, dp, name, off, s') && Unlinking(s, dp, off, s.inodes[dp].entries[off].inum)
    ensures |s'.pending| == |s'.inodes| == |s.inodes| && CountOk(s', j)
  {
    var i := s.inodes[dp].entries[off].inum;
    UnlinkRefs(s, dp, name, off, s', j);
    UnlinkHit(s, dp, off, i, j);
    RemoveCount(Refs(s.inodes, j), Gone(s, dp, off, i), HitBy(s, dp, off, i, j));
  }

  lemma UnlinkKeepsHolds(s: State, dp: nat, name: string, off: nat, s': State, d: nat, k: nat, c: nat)
    requires UnlinkStep(s, dp, name, off, s') && Unlinking(s, dp, off, s.inodes[dp].entries[off].inum)
    ensures var i := s.inodes[dp].entries[off].inum;
      Holds(s'.inodes, d, k, c) <==>
        Holds(s.inodes, d, k, c) && (d, k) != (dp, off) && !(s.inodes[i].kind == Dir && d == i)
  {
    UnlinkRefers(s, dp, name, off, s', d, k, c);
  }

  lemma UnlinkHeld(s: State, dp: nat, name: string, off: nat, s': State)
    requires Inv(s) && UnlinkStep(s, dp, name, off, s') && Unlinking(s, dp, off, s.inodes[dp].entries[off].inum)
    ensures HeldOk(s'.inodes) && InRange(s'.inodes)
  {
    forall d: nat, k: nat, c: nat | Refers(s'.inodes, d, k, c) ensures c < |s'.inodes| {
      UnlinkRefers(s, dp, name, off, s', d, k, c);
    }
    forall d: nat, k: nat, c: nat | Holds(s'.inodes, d, k, c) ensures Holds(s.inodes, d, k, c) && Live(s'.inodes, c) {
      UnlinkKeepsHolds(s, dp, name, off, s', d, k, c);
      assert (d, k) in Refs(s.inodes, c);
    }
  }

  lemma UnlinkParent(s: State, dp: nat, name: string, off: nat, s': State, c: nat)
    requires Inv(s) && UnlinkStep(s, dp, name, off, s') && Unlinking(s, dp, off, s.inodes[dp].entries[off].inum)
    ensures ParentOk(s'.inodes, c)
  {
    if Live(s'.inodes, c) && c != ROOTINO {
      assert InodeOk(s, c);
      var p := s.inodes[c].entries[1].inum;
      var k: nat :| Holds(s.inodes, p, k, c);
      UnlinkKeepsHolds(s, dp, name, off, s', p, k, c);
      assert Empty(s.inodes[s.inodes[dp].entries[off].inum].entries)
        || s.inodes[s.inodes[dp].entries[off].inum].kind != Dir;
      assert Holds(s'.inodes, p, k, c);
    }
  }

  lemma UnlinkInv(s: State, dp: nat, name: string, off: nat, s': State)
    requires Inv(s) && UnlinkStep(s, dp, name, off, s')
    ensures Inv(s')
  {
    UnlinkFacts(s, dp, name, off, s');
    UnlinkHeld(s, dp, name, off, s');
    forall j | 0 <= j < |s'.inodes| ensures InodeOk(s', j) {
      assert InodeOk(s, j);
      UnlinkParent(s, dp, name, off, s', j);
      UnlinkCount(s, dp, name, off, s', j);
      UnlinkAt(s, dp, name, off, s', j);
    }
  }

  lemma UnlinkAt(s: State, dp: nat, name: string, off: nat, s': State, j: nat)
    requires |s.pending| == |s.inodes| && j < |s.inodes| && InodeOk(s, j)
    requires UnlinkStep(s, dp, name, off, s') && Unlinking(s, dp, off, s.inodes[dp].entries[off].inum)
    requires CountOk(s', j) && ParentOk(s'.inodes, j)
    ensures InodeOk(s', j)
  {}

  /** Unlinking an empty directory brings its link count to exactly zero. */
  lemma UnlinkedDirHasNoLinks(s: State, dp: nat, name: string, off: nat, s': State)
    requires Inv(s) && UnlinkStep(s, dp, name, off, s') && IsDir(s.inodes, s.inodes[dp].entries[off].inum)
    ensures s'.inodes[s.inodes[dp].entries[off].inum].nlink == 0
  {
    UnlinkFacts(s, dp, name, off, s');
  }

  // ---- Adding an entry

  lemma SlotBehindDots(s: State, dp: nat, k: nat)
    requires Inv(s) && IsDir(s.inodes, dp) && FreeSlot(s.inodes[dp].entries, k)
    ensures k >= 2 && dp != 0
  {
    assert InodeOk(s, dp);
  }

  lemma PutNames(entries: seq<Dirent>, k: nat, name: string, i: nat)
    requires NamesOk(entries) && Absent(entries, name) && FreeSlot(entries, k)
    ensures NamesOk(Put(entries, k, Dirent(i, Stored(name))))
  {
    forall j | 0 <= j < |entries| && entries[j].inum != 0 ensures !SameName(entries[j].name, Stored(name)) {
      assert !Hit(entries[j], name);
    }
  }

  /** A name that is not there is not one of the dots. */
  lemma NotDots(s: State, dp: nat, name: string)
    requires Inv(s) && IsDir(s.inodes, dp) && Absent(s.inodes[dp].entries, name)
    ensures Stored(name) != "." && Stored(name) != ".."
  {
    assert InodeOk(s, dp);
    var e := s.inodes[dp].entries;
    assert !Hit(e[0], name) && !Hit(e[1], name);
  }

  /** Which entries refer after a link is entered into a live directory. */
  lemma EnterRefers(s: State, i: nat, dp: nat, name: string, k: nat, s': State, d: nat, l: nat, j: nat)
    requires Inv(s) && LinkEnterStep(s, i, dp, name, k, s') && Live(s.inodes, dp)
    ensures Refers(s'.inodes, d, l, j) <==> Refers(s.inodes, d, l, j) || ((d, l) == (dp, k) && j == i)
  {
    SlotBehindDots(s, dp, k);
    NotDots(s, dp, name);
    assert InodeOk(s, 0) && InodeOk(s, i);
  }

  lemma EnterCount(s: State, i: nat, dp: nat, name: string, k: nat, s': State, j: nat)
    requires Inv(s) && LinkEnterStep(s, i, dp, name, k, s') && Live(s.inodes, dp) && j < |s.inodes|
    ensures |s'.pending| == |s'.inodes| == |s.inodes| && CountOk(s', j)
  {
    assert InodeOk(s, j) && InodeOk(s, i);
    forall d: nat, l: nat
      ensures (d, l) in Refs(s'.inodes, j) <==> (d, l) in Refs(s.inodes, j) || ((d, l) == (dp, k) && j == i)
    {
      EnterRefers(s, i, dp, name, k, s', d, l, j);
    }
    assert (dp, k) !in Refs(s.inodes, j);
    assert Refs(s'.inodes, j) == if j == i then Refs(s.inodes, j) + {(dp, k)} else Refs(s.inodes, j);
  }

  lemma LinkEnterInv(s: State, i: nat, dp: nat, name: string, k: nat, s': State)
    requires Inv(s) && LinkEnterStep(s, i, dp, name, k, s') && Live(s.inodes, dp)
    ensures Inv(s')
  {
    SlotBehindDots(s, dp, k);
    assert InodeOk(s, i);
    forall d: nat, l: nat, c: nat
      ensures Holds(s'.inodes, d, l, c) <==> Holds(s.inodes, d, l, c)
      ensures Refers(s'.inodes, d, l, c) ==> c < |s'.inodes|
    {
      EnterRefers(s, i, dp, name, k, s', d, l, c);
    }
    assert InodeOk(s, dp);
    PutNames(s.inodes[dp].entries, k, name, i);
    forall j | 0 <= j < |s'.inodes| ensures InodeOk(s', j) {
      EnterCount(s, i, dp, name, k, s', j);
      assert InodeOk(s, j);
      assert ParentOk(s'.inodes, j);
    }
  }

  /** Steps that change no entry and no life of a directory leave the references alone. */
  lemma SameRefs(inodes: seq<Inode>, inodes': seq<Inode>)
    requires |inodes'| == |inodes|
    requires forall d :: 0 <= d < |inodes| ==> Live(inodes, d) == Live(inodes', d)
    requires forall d :: 0 <= d < |inodes| ==> IsDir(inodes, d) == IsDir(inodes', d) || Refs(inodes, d) == {}
    requires forall d :: 0 <= d < |inodes| && Live(inodes, d) ==> inodes'[d].entries == inodes[d].entries
    ensures forall d: nat, k: nat, j: nat :: Refers(inodes', d, k, j) <==> Refers(inodes, d, k, j)
    ensures forall d: nat, k: nat, c: nat :: Holds(inodes', d, k, c) <==> Holds(inodes, d, k, c)
    ensures forall j: nat :: Refs(inodes', j) == Refs(inodes, j)
  {
    forall j: nat ensures Refs(inodes', j) == Refs(inodes, j) {
      forall d: nat, k: nat ensures Refers(inodes', d, k, j) <==> Refers(inodes, d, k, j) {}
    }
    forall d: nat, k: nat, c: nat | Refers(inodes, d, k, c) ensures (d, k) in Refs(inodes, c) {}
  }

  /** Steps that keep every reference and every directory. */
  lemma CountOnly(s: State, i: nat, s': State)
    requires Inv(s) && i < |s.inodes| && |s'.pending| == |s'.inodes| == |s.inodes| && CountOk(s', i)
    requires forall j :: 0 <= j < |s.inodes| && j != i ==> s'.inodes[j] == s.inodes[j] && s'.pending[j] == s.pending[j]
    requires forall d: nat, k: nat, j: nat :: Refers(s'.inodes, d, k, j) <==> Refers(s.inodes, d, k, j)
    requires forall d: nat, k: nat, c: nat :: Holds(s'.inodes, d, k, c) <==> Holds(s.inodes, d, k, c)
    requires forall j: nat :: Refs(s'.inodes, j) == Refs(s.inodes, j)
    requires !Live(s.inodes, i) && s'.inodes[i].kind != Dir && i != 0
    ensures Inv(s')
  {
    forall j | 0 <= j < |s'.inodes| ensures InodeOk(s', j) {
      assert InodeOk(s, j);
    }
  }

  lemma CountOnlyInv(s: State, i: nat, s': State)
    requires Inv(s) && (LinkBeginStep(s, i, s') || LinkAbortStep(s, i, s') || ReclaimStep(s, i, s'))
    ensures Inv(s')
  {
    assert InodeOk(s, i);
    SameRefs(s.inodes, s'.inodes);
    CountOnly(s, i, s');
  }

  // ---- Create

  /** Which entries refer after a create in a live directory: also the new entry, and the ".."
      of a new directory. */
  lemma CreateRefers(s: State, dp: nat, name: string, kind: Kind, i: nat, k: nat, s': State, d: nat, l: nat, j: nat)
    requires Inv(s) && CreateStep(s, dp, name, kind, i, k, s') && Live(s.inodes, dp)
    ensures Refers(s'.inodes, d, l, j) <==>
      || Refers(s.inodes, d, l, j)
      || ((d, l) == (dp, k) && j == i)
      || (kind == Dir && (d, l) == (i, 1) && j == dp)
  {
    SlotBehindDots(s, dp, k);
    NotDots(s, dp, name);
  }

  /** The entries that a create adds and that name j. */
  ghost function Added(dp: nat, kind: Kind, i: nat, k: nat, j: nat): set<(nat, nat)> {
    if j == i then {(dp, k)} else if j == dp && kind == Dir then {(i, 1)} else {}
  }

  lemma CreateRefs(s: State, dp: nat, name: string, kind: Kind, i: nat, k: nat, s': State, j: nat)
    requires Inv(s) && CreateStep(s, dp, name, kind, i, k, s') && Live(s.inodes, dp)
    ensures Refs(s'.inodes, j) == Refs(s.inodes, j) + Added(dp, kind, i, k, j)
    ensures Refs(s.inodes, j) !! Added(dp, kind, i, k, j)
  {
    forall d: nat, l: nat
      ensures (d, l) in Refs(s'.inodes, j) <==> (d, l) in Refs(s.inodes, j) || (d, l) in Added(dp, kind, i, k, j)
    {
      CreateRefers(s, dp, name, kind, i, k, s', d, l, j);
    }
    assert (dp, k) !in Refs(s.inodes, j) && (i, 1) !in Refs(s.inodes, j);
  }

  lemma CreateCount(s: State, dp: nat, name: string, kind: Kind, i: nat, k: nat, s': State, j: nat)
    requires Inv(s) && CreateStep(s, dp, name, kind, i, k, s') && Live(s.inodes, dp) && j < |s.inodes|
    ensures |s'.pending| == |s'.inodes| == |s.inodes| && CountOk(s', j)
  {
    assert InodeOk(s, j) && InodeOk(s, i);
    CreateRefs(s, dp, name, kind, i, k, s', j);
    assert |Refs(s'.inodes, j)| == |Refs(s.inodes, j)| + |Added(dp, kind, i, k, j)|;
  }

  lemma CreateHeld(s: State, dp: nat, name: string, kind: Kind, i: nat, k: nat, s': State)
    requires Inv(s) && CreateStep(s, dp, name, kind, i, k, s') && Live(s.inodes, dp)
    ensures HeldOk(s'.inodes) && InRange(s'.inodes)
    ensures forall d: nat, l: nat, c: nat :: Holds(s.inodes, d, l, c) ==> Holds(s'.inodes, d, l, c)
    ensures kind == Dir ==> Holds(s'.inodes, dp, k, i)
  {
    SlotBehindDots(s, dp, k);
    assert InodeOk(s, i);
    forall d: nat, l: nat, c: nat
      ensures Holds(s'.inodes, d, l, c) <==> Holds(s.inodes, d, l, c) || (kind == Dir && (d, l) == (dp, k) && c == i)
      ensures Refers(s'.inodes, d, l, c) ==> c < |s'.inodes|
    {
      CreateRefers(s, dp, name, kind, i, k, s', d, l, c);
      assert Refers(s.inodes, d, l, i) ==> (d, l) in Refs(s.inodes, i);
    }
  }

  lemma CreateInv(s: State, dp: nat, name: string, kind: Kind, i: nat, k: nat, s': State)
    requires Inv(s) && CreateStep(s, dp, name, kind, i, k, s') && Live(s.inodes, dp)
    ensures Inv(s')
  {
    SlotBehindDots(s, dp, k);
    CreateHeld(s, dp, name, kind, i, k, s');
    assert InodeOk(s, dp);
    PutNames(s.inodes[dp].entries, k, name, i);
    forall j | 0 <= j < |s'.inodes| ensures InodeOk(s', j) {
      CreateCount(s, dp, name, kind, i, k, s', j);
      assert InodeOk(s, j);
      assert ParentOk(s'.inodes, j);
    }
  }

  /** A file created in an unlinked directory has a link that is in no linked directory. */
  lemma CreateInDead(s: State, dp: nat, name: string, kind: Kind, i: nat, k: nat, s': State)
    requires Inv(s) && CreateStep(s, dp, name, kind, i, k, s') && !Live(s.inodes, dp) && kind != Dir
    ensures !CountsOk(s')
  {
    assert InodeOk(s, i);
    forall d: nat, l: nat ensures !Refers(s'.inodes, d, l, i) {
      assert Refers(s'.inodes, d, l, i) ==> (d, l) in Refs(s.inodes, i);
    }
    assert Refs(s'.inodes, i) == {};
    assert !CountOk(s', i);
  }

  /** A directory created there brings it back to life, and with it the ".." that sys_unlink has
      taken out of the count. */
  lemma MkdirInDead(s: State, dp: nat, name: string, i: nat, k: nat, s': State)
    requires Inv(s) && CreateStep(s, dp, name, Dir, i, k, s') && !Live(s.inodes, dp)
    ensures !CountsOk(s')
  {
    SlotBehindDots(s, dp, k);
    assert InodeOk(s, dp) && InodeOk(s, i);
    var p := s.inodes[dp].entries[1].inum;
    assert Refers(s'.inodes, dp, 1, p);
    assert (dp, 1) in Refs(s'.inodes, p) && (dp, 1) !in Refs(s.inodes, p);
    if p == i {
      NotDots(s, dp, name);
      assert Refers(s'.inodes, dp, k, i);
      TwoElements(Refs(s'.inodes, i), (dp, 1), (dp, k));
      assert !CountOk(s', i);
    } else {
      assert InodeOk(s, p);
      MoreRefs(s, dp, name, i, k, s', p);
      SubsetSize(Refs(s.inodes, p) + {(dp, 1)}, Refs(s'.inodes, p));
      assert !CountOk(s', p);
    }
  }

  lemma MoreRefs(s: State, dp: nat, name: string, i: nat, k: nat, s': State, p: nat)
    requires CreateStep(s, dp, name, Dir, i, k, s') && !Live(s.inodes, dp)
    ensures Refs(s.inodes, p) <= Refs(s'.inodes, p)
  {
    forall d: nat, l: nat | (d, l) in Refs(s.inodes, p) ensures (d, l) in Refs(s'.inodes, p) {
      assert Refers(s'.inodes, d, l, p);
    }
  }

  lemma InvCounts(s: State)
    requires Inv(s)
    ensures CountsOk(s)
  {
    forall i | 0 <= i < |s.inodes| ensures CountOk(s, i) { assert InodeOk(s, i); }
  }

  /** create keeps the link counts right exactly when the directory it adds to is still linked:
      in one that has been unlinked and is only kept by a reference, it breaks them. */
  lemma CreateExactly(s: State, dp: nat, name: string, kind: Kind, i: nat, k: nat, s': State)
    requires Inv(s) && CreateStep(s, dp, name, kind, i, k, s')
    ensures CountsOk(s') <==> Live(s.inodes, dp)
    ensures Inv(s') <==> Live(s.inodes, dp)
  {
    if Live(s.inodes, dp) {
      CreateInv(s, dp, name, kind, i, k, s');
    } else if kind == Dir {
      MkdirInDead(s, dp, name, i, k, s');
    } else {
      CreateInDead(s, dp, name, kind, i, k, s');
    }
    if Inv(s') { InvCounts(s'); }
  }

  /** The same for sys_link: a link entered into an unlinked directory is counted and never found. */
  lemma LinkExactly(s: State, i: nat, dp: nat, name: string, k: nat, s': State)
    requires Inv(s) && LinkEnterStep(s, i, dp, name, k, s')
    ensures CountsOk(s') <==> Live(s.inodes, dp)
    ensures Inv(s') <==> Live(s.inodes, dp)
  {
    if Live(s.inodes, dp) {
      LinkEnterInv(s, i, dp, name, k, s');
    } else {
      assert InodeOk(s, i);
      forall d: nat, l: nat ensures Refers(s'.inodes, d, l, i) <==> Refers(s.inodes, d, l, i) {}
      assert Refs(s'.inodes, i) == Refs(s.inodes, i);
      assert !CountOk(s', i);
    }
    if Inv(s') { InvCounts(s'); }
  }

  // ---- Every run

  datatype Label =
    | Unlink(dp: nat, name: string, off: nat)
    | Create(dp: nat, name: string, kind: Kind, i: nat, k: nat)
    | LinkBegin(i: nat)
    | LinkEnter(i: nat, dp: nat, name: string, k: nat)
    | LinkAbort(i: nat)
    | Reclaim(i: nat)

  ghost predicate Step(s: State, l: Label, s': State) {
    match l
    case Unlink(dp, name, off) => UnlinkStep(s, dp, name, off, s')
    case Create(dp, name, kind, i, k) => CreateStep(s, dp, name, kind, i, k, s')
    case LinkBegin(i) => LinkBeginStep(s, i, s')
    case LinkEnter(i, dp, name, k) => LinkEnterStep(s, i, dp, name, k, s')
    case LinkAbort(i) => LinkAbortStep(s, i, s')
    case Reclaim(i) => ReclaimStep(s, i, s')
  }

  ghost predicate AnyNext(s: State, s': State) {
    exists l :: Step(s, l, s')
  }

  /** A step that adds no entry to a directory that has been unlinked. */
  ghost predicate Next(s: State, s': State) {
    exists l :: Step(s, l, s') && (l.Create? || l.LinkEnter? ==> Live(s.inodes, l.dp))
  }

  /** The directory tree that fs/mkfs.c writes: a root that holds the given files. */
  ghost predicate Image(s: State, names: seq<string>) {
    && |s.inodes| == |s.pending| && |names| + 2 <= |s.inodes|
       && (forall i :: 0 <= i < |s.pending| ==> s.pending[i] == 0)
    && s.inodes[0].kind == Free
    && s.inodes[ROOTINO].kind == Dir && s.inodes[ROOTINO].nlink == 1
    && (forall i :: 2 <= i < |names| + 2 ==> s.inodes[i] == Inode(File, 1, []))
    && (forall i :: |names| + 2 <= i < |s.inodes| ==> s.inodes[i].kind == Free)
    && var e := s.inodes[ROOTINO].entries;
       && |names| + 2 <= |e| && e[0] == Dirent(ROOTINO, ".") && e[1] == Dirent(ROOTINO, "..")
       && (forall k :: 2 <= k < |names| + 2 ==> e[k] == Dirent(k, Stored(names[k - 2])))
       && (forall k :: |names| + 2 <= k < |e| ==> e[k].inum == 0)
  }

  ghost predicate GoodNames(names: seq<string>) {
    && (forall k :: 0 <= k < |names| ==> Stored(names[k]) != "." && Stored(names[k]) != "..")
    && (forall k, l :: 0 <= k < l < |names| ==> !SameName(names[k], names[l]))
  }

  ghost predicate Run(names: seq<string>, t: seq<State>) {
    && |t| > 0 && Image(t[0], names) && GoodNames(names)
    && forall i: nat :: Follows(t, i)
  }

  ghost predicate Follows(t: seq<State>, i: nat) {
    0 < i < |t| ==> Next(t[i - 1], t[i])
  }

  lemma ImageRefers(s: State, names: seq<string>, d: nat, k: nat, j: nat)
    requires Image(s, names) && GoodNames(names)
    ensures Refers(s.inodes, d, k, j)
      <==> d == ROOTINO && ((k == 1 && j == ROOTINO) || (2 <= k < |names| + 2 && j == k))
  {
    if 2 <= k < |names| + 2 { assert Stored(names[k - 2]) != "."; }
  }

  lemma ImageInv(s: State, names: seq<string>)
    requires Image(s, names) && GoodNames(names)
    ensures Inv(s)
  {
    forall j | 0 <= j < |s.inodes| ensures CountOk(s, j) {
      forall d: nat, k: nat
        ensures Refers(s.inodes, d, k, j)
          <==> d == ROOTINO && ((k == 1 && j == ROOTINO) || (2 <= k < |names| + 2 && j == k))
      {
        ImageRefers(s, names, d, k, j);
      }
      assert Refs(s.inodes, j) == if 1 <= j < |names| + 2 then {(ROOTINO, j)} else {};
    }
    forall d: nat, k: nat, c: nat ensures !Holds(s.inodes, d, k, c) && (Refers(s.inodes, d, k, c) ==> c < |s.inodes|) {
      ImageRefers(s, names, d, k, c);
    }
    ImageNames(s.inodes[ROOTINO].entries, names);
  }

  lemma ImageNames(e: seq<Dirent>, names: seq<string>)
    requires GoodNames(names) && |names| + 2 <= |e| && e[0].name == "." && e[1].name == ".."
    requires forall k :: 2 <= k < |names| + 2 ==> e[k].name == Stored(names[k - 2])
    requires forall k :: |names| + 2 <= k < |e| ==> e[k].inum == 0
    ensures NamesOk(e)
  {
    forall k, l | 0 <= k < l < |e| && e[k].inum != 0 && e[l].inum != 0 ensures !SameName(e[k].name, e[l].name) {
      if k >= 2 {
        assert !SameName(names[k - 2], names[l - 2]);
      } else if l >= 2 {
        assert Stored(names[l - 2]) != "." && Stored(names[l - 2]) != "..";
      }
    }
  }

  lemma NextInv(s: State, s': State)
    requires Inv(s) && Next(s, s')
    ensures Inv(s')
  {
    var l :| Step(s, l, s') && (l.Create? || l.LinkEnter? ==> Live(s.inodes, l.dp));
    match l
    case Unlink(dp, name, off) => UnlinkInv(s, dp, name, off, s');
    case Create(dp, name, kind, i, k) => CreateInv(s, dp, name, kind, i, k, s');
    case LinkBegin(i) => CountOnlyInv(s, i, s');
    case LinkEnter(i, dp, name, k) => LinkEnterInv(s, i, dp, name, k, s');
    case LinkAbort(i) => CountOnlyInv(s, i, s');
    case Reclaim(i) => CountOnlyInv(s, i, s');
  }

  lemma {:induction false} RunInv(names: seq<string>, t: seq<State>, i: nat)
    requires Run(names, t) && i < |t|
    ensures Inv(t[i])
  {
    if i == 0 {
      ImageInv(t[0], names);
    } else {
      RunInv(names, t, i - 1);
      assert Follows(t, i);
      NextInv(t[i - 1], t[i]);
    }
  }

  /** In every run from an image of mkfs, the link count of every inode in use is the number of
      entries other than "." that name it in linked directories, plus the links being made;
      and no directory has two entries of the same name. */
  lemma LinkCounts(names: seq<string>, t: seq<State>, n: nat, i: nat)
    requires Run(names, t) && n < |t| && i < |t[n].inodes| && t[n].inodes[i].kind != Free
    ensures |t[n].pending| == |t[n].inodes| && t[n].inodes[i].nlink == |Refs(t[n].inodes, i)| + t[n].pending[i]
    ensures t[n].inodes[i].kind == Dir ==> NamesOk(t[n].inodes[i].entries)
  {
    RunInv(names, t, n);
    assert InodeOk(t[n], i);
  }

  /** In every run, whatever an entry of a linked directory names is an inode in use. */
  lemma NoDangling(names: seq<string>, t: seq<State>, n: nat, d: nat, k: nat, i: nat)
    requires Run(names, t) && n < |t| && Refers(t[n].inodes, d, k, i)
    ensures i < |t[n].inodes| && t[n].inodes[i].kind != Free
  {
    RunInv(names, t, n);
    assert (d, k) in Refs(t[n].inodes, i) && InodeOk(t[n], i);
  }

  // ---- A run in which a directory is unlinked while it is in use

  /** A run from an image, of any steps, that ends with step l. */
  ghost predicate AnyRun(names: seq<string>, t: seq<State>, l: Label) {
    && |t| > 1 && Image(t[0], names) && GoodNames(names)
    && (forall i: nat :: AnyFollows(t, i))
    && Step(t[|t| - 2], l, t[|t| - 1])
  }

  ghost predicate AnyFollows(t: seq<State>, i: nat) {
    0 < i < |t| ==> AnyNext(t[i - 1], t[i])
  }

  /** Some run from an image without files comes to s by step l. */
  ghost predicate Reached(s: State, l: Label) {
    exists t :: AnyRun([], t, l) && t[|t| - 1] == s
  }

  const DOTS: seq<Dirent> := [Dirent(1, "."), Dirent(1, "..")]
  const SUBDOTS: seq<Dirent> := [Dirent(2, "."), Dirent(1, "..")]

  ghost function Tree4(root: Inode, a: Inode, b: Inode, pending: nat): State {
    State([Inode(Free, 0, []), root, a, b], [0, 0, 0, pending])
  }

  /** An image without files, d made in the root, d unlinked while in use. */
  ghost function Unlinked(): seq<State> {
    [Tree4(Inode(Dir, 1, DOTS), Inode(Free, 0, []), Inode(Free, 0, []), 0),
     Tree4(Inode(Dir, 2, DOTS + [Dirent(2, "d")]), Inode(Dir, 1, SUBDOTS), Inode(Free, 0, []), 0),
     Tree4(Inode(Dir, 1, DOTS + [Dirent(0, "")]), Inode(Dir, 0, SUBDOTS), Inode(Free, 0, []), 0)]
  }

  lemma UnlinkedRun()
    ensures Reached(Unlinked()[2], Label.Unlink(1, "d", 2))
  {
    var t := Unlinked();
    var e := t[1].inodes[1].entries;
    assert FreeSlot(DOTS, 2) && Absent(DOTS, "d") && Put(DOTS, 2, Dirent(2, "d")) == e;
    assert Step(t[0], Label.Create(1, "d", Dir, 2, 2), t[1]);
    assert Hit(e[2], "d") && e[2 := Dirent(0, "")] == DOTS + [Dirent(0, "")];
    assert Step(t[1], Label.Unlink(1, "d", 2), t[2]);
    assert AnyRun([], t, Label.Unlink(1, "d", 2));
  }

  lemma FollowsMore(t: seq<State>, l: Label, s': State, i: nat)
    requires |t| > 0 && (i < |t| ==> AnyFollows(t, i)) && Step(t[|t| - 1], l, s')
    ensures AnyFollows(t + [s'], i)
  {
    if i == |t| { assert AnyNext(t[|t| - 1], s'); }
  }

  lemma ReachMore(s: State, l: Label, l': Label, s': State)
    requires Reached(s, l) && Step(s, l', s')
    ensures Reached(s', l')
  {
    var t :| AnyRun([], t, l) && t[|t| - 1] == s;
    var u := t + [s'];
    forall i: nat ensures AnyFollows(u, i) {
      assert AnyFollows(t, i);
      FollowsMore(t, l', s', i);
    }
    assert u[|u| - 2] == s && u[0] == t[0];
    assert AnyRun([], u, l');
  }

  lemma PutInSub(name: string, i: nat)
    requires |name| == 1 && name != "." && i != 0
    ensures FreeSlot(SUBDOTS, 2) && Absent(SUBDOTS, name)
      && Put(SUBDOTS, 2, Dirent(i, name)) == SUBDOTS + [Dirent(i, name)]
  {}

  ghost function CreatedInDead(): State {
    Tree4(Inode(Dir, 1, DOTS + [Dirent(0, "")]), Inode(Dir, 0, SUBDOTS + [Dirent(3, "x")]), Inode(File, 1, []), 0)
  }

  /** Then x is created in d: its count is one, and no linked directory names it. */
  lemma CreateBreaksCounts()
    ensures exists s :: Reached(s, Label.Create(2, "x", File, 3, 2)) && !CountsOk(s)
  {
    UnlinkedRun();
    PutInSub("x", 3);
    var s' := CreatedInDead();
    assert Step(Unlinked()[2], Label.Create(2, "x", File, 3, 2), s');
    ReachMore(Unlinked()[2], Label.Unlink(1, "d", 2), Label.Create(2, "x", File, 3, 2), s');
    CreatedUnfound();
  }

  lemma CreatedUnfound()
    ensures !CountsOk(CreatedInDead())
  {
    var s' := CreatedInDead();
    assert Refs(s'.inodes, 3) == {};
    assert !CountOk(s', 3);
  }

  /** The root, the unlinked directory d with the given entries, and a file f in the root with
      nlink links. */
  ghost function WithFile(entries: seq<Dirent>, nlink: nat, pending: nat): State {
    Tree4(Inode(Dir, 1, DOTS + [Dirent(3, "f")]), Inode(Dir, 0, entries), Inode(File, nlink, []), pending)
  }

  lemma LinkSteps()
    ensures Step(Unlinked()[2], Label.Create(1, "f", File, 3, 2), WithFile(SUBDOTS, 1, 0))
    ensures Step(WithFile(SUBDOTS, 1, 0), LinkBegin(3), WithFile(SUBDOTS, 2, 1))
    ensures Step(WithFile(SUBDOTS, 2, 1), LinkEnter(3, 2, "y", 2), WithFile(SUBDOTS + [Dirent(3, "y")], 2, 0))
  {
    var e := DOTS + [Dirent(0, "")];
    assert FreeSlot(e, 2) && Absent(e, "f") && Put(e, 2, Dirent(3, "f")) == DOTS + [Dirent(3, "f")];
    PutInSub("y", 3);
  }

  lemma LinkUnfound()
    ensures !CountsOk(WithFile(SUBDOTS + [Dirent(3, "y")], 2, 0))
  {
    var s' := WithFile(SUBDOTS + [Dirent(3, "y")], 2, 0);
    forall d: nat, k: nat | Refers(s'.inodes, d, k, 3) ensures (d, k) == (1, 2) {}
    assert Refs(s'.inodes, 3) <= {(1, 2)};
    SubsetSize(Refs(s'.inodes, 3), {(1, 2)});
    assert !CountOk(s', 3);
  }

  /** Or a file f of the root is linked into d as y: its count is two, and only the root names it. */
  lemma LinkBreaksCounts()
    ensures exists s :: Reached(s, LinkEnter(3, 2, "y", 2)) && !CountsOk(s)
  {
    UnlinkedRun();
    LinkSteps();
    ReachMore(Unlinked()[2], Label.Unlink(1, "d", 2), Label.Create(1, "f", File, 3, 2), WithFile(SUBDOTS, 1, 0));
    ReachMore(WithFile(SUBDOTS, 1, 0), Label.Create(1, "f", File, 3, 2), LinkBegin(3), WithFile(SUBDOTS, 2, 1));
    ReachMore(WithFile(SUBDOTS, 2, 1), LinkBegin(3), LinkEnter(3, 2, "y", 2),
              WithFile(SUBDOTS + [Dirent(3, "y")], 2, 0));
    LinkUnfound();
  }

  // ---- The system calls as they run

  datatype Created = Fresh(i: nat) | Existing(i: nat) | Refused | NoInodes

  /** What create makes of a name that is there: only a file may be opened as a file. */
  function Found(inodes: seq<Inode>, kind: Kind, i: nat): Created {
    if kind == File && i < |inodes| && inodes[i].kind == File then Existing(i) else Refused
  }

  class Tree {
    var inodes: seq<Inode>
    ghost var pending: seq<nat>

    ghost function Now(): State
      reads this
    {
      State(inodes, pending)
    }

    /** ialloc: the first free inode from 1 on. */
    method Ialloc() returns (i: Option<nat>)
      ensures i.Some? ==> 0 < i.value < |inodes| && inodes[i.value].kind == Free
      ensures i == None <==> forall j :: 1 <= j < |inodes| ==> inodes[j].kind != Free
    {
      for j := 1 to if |inodes| < 1 then 1 else |inodes|
        invariant forall m :: 1 <= m < j && m < |inodes| ==> inodes[m].kind != Free
      {
        if inodes[j].kind == Free {
          return Some(j);
        }
      }
      i := None;
    }

    /** sys_unlink once the parent directory is locked. */
    method Unlink(dp: nat, name: string) returns (ok: bool)
      requires Inv(Now()) && IsDir(inodes, dp)
      modifies this
      ensures Inv(Now())
      ensures ok ==> exists off :: UnlinkStep(old(Now()), dp, name, off, Now())
      ensures !ok ==> Now() == old(Now())
      ensures !ok <==> SameName(name, ".") || SameName(name, "..") || Absent(old(inodes)[dp].entries, name)
                       || exists off :: 0 <= off < |old(inodes)[dp].entries| && Hit(old(inodes)[dp].entries[off], name)
                                        && IsDir(old(inodes), old(inodes)[dp].entries[off].inum)
                                        && !Empty(old(inodes)[old(inodes)[dp].entries[off].inum].entries)
    {
      if SameName(name, ".") || SameName(name, "..") {
        return false;
      }
      var off := DirLookup(inodes[dp].entries, name);
      if off == None {
        return false;
      }
      var i := inodes[dp].entries[off.value].inum;
      Named(Now(), dp, name, off.value);
      if inodes[i].kind == Dir {
        var empty := IsDirEmpty(inodes[i].entries);
        if !empty {
          return false;
        }
      }
      assert InodeOk(Now(), dp);
      OnlyHit(inodes[dp].entries, name, off.value);
      Erase(dp, name, off.value, i);
      return true;
    }

    /** The entry is cleared, and the counts that went with it. */
    method Erase(dp: nat, ghost name: string, off: nat, i: nat)
      requires Inv(Now()) && IsDir(inodes, dp) && off < |inodes[dp].entries| && i == inodes[dp].entries[off].inum
      requires Hit(inodes[dp].entries[off], name) && !SameName(name, ".") && !SameName(name, "..")
      requires i < |inodes| && i != dp && inodes[i].nlink >= 1
      requires inodes[i].kind == Dir ==> Empty(inodes[i].entries) && inodes[dp].nlink >= 1
      modifies this
      ensures Inv(Now()) && UnlinkStep(old(Now()), dp, name, off, Now())
    {
      ghost var was := Now();
      var drop := if inodes[i].kind == Dir then 1 else 0;
      inodes := inodes[dp := Inode(Dir, inodes[dp].nlink - drop, inodes[dp].entries[off := Dirent(0, "")])];
      inodes := inodes[i := inodes[i].(nlink := inodes[i].nlink - 1)];
      UnlinkInv(was, dp, name, off, Now());
    }

    /** create once the parent directory is locked. It does not ask whether the parent is still
        linked, and what it makes is right exactly if it is. */
    method Create(dp: nat, name: string, kind: Kind) returns (r: Created)
      requires Inv(Now()) && IsDir(inodes, dp) && kind != Free
      modifies this
      ensures r.Fresh? ==> (Inv(Now()) <==> Live(old(inodes), dp))
      ensures r.Fresh? ==> exists k :: CreateStep(old(Now()), dp, name, kind, r.i, k, Now())
      ensures !r.Fresh? ==> Now() == old(Now())
      ensures r.Fresh? || r.NoInodes? <==> Absent(old(inodes)[dp].entries, name)
      ensures r.NoInodes? ==> forall j :: 1 <= j < |inodes| ==> inodes[j].kind != Free
      ensures r.Existing? || r.Refused? ==> exists off ::
        && 0 <= off < |inodes[dp].entries| && Hit(inodes[dp].entries[off], name)
        && r == Found(inodes, kind, inodes[dp].entries[off].inum)
    {
      var off := DirLookup(inodes[dp].entries, name);
      if off.Some? {
        var i := inodes[dp].entries[off.value].inum;
        if kind == File && i < |inodes| && inodes[i].kind == File {
          r := Existing(i);
        } else {
          r := Refused;
        }
        assert r == Found(inodes, kind, inodes[dp].entries[off.value].inum);
        return;
      }
      var a := Ialloc();
      if a == None {
        return NoInodes;
      }
      var i := a.value;
      ghost var was := Now();
      inodes := inodes[i := Inode(kind, 1, [])];
      if kind == Dir {
        inodes := inodes[dp := inodes[dp].(nlink := inodes[dp].nlink + 1)];
        inodes := inodes[i := inodes[i].(entries := [Dirent(i, "."), Dirent(dp, "..")])];
      }
      var ok, entries := DirLink(inodes[dp].entries, name, i);
      inodes := inodes[dp := inodes[dp].(entries := entries)];
      ghost var k :| FreeSlot(was.inodes[dp].entries, k)
        && entries == Put(was.inodes[dp].entries, k, Dirent(i, Stored(name)));
      assert CreateStep(was, dp, name, kind, i, k, Now());
      CreateExactly(was, dp, name, kind, i, k, Now());
      return Fresh(i);
    }

    /** sys_link once its paths are resolved: raise the count, enter the name, or take it back. */
    method Link(i: nat, dp: nat, name: string) returns (ok: bool)
      requires Inv(Now()) && i < |inodes| && inodes[i].kind != Free && IsDir(inodes, dp)
      modifies this
      ensures ok ==> (Inv(Now()) <==> Live(old(inodes), dp))
      ensures ok <==> old(inodes)[i].kind != Dir && Absent(old(inodes)[dp].entries, name)
      ensures !ok ==> Now() == old(Now())
      ensures ok ==> exists s1, k :: LinkBeginStep(old(Now()), i, s1) && LinkEnterStep(s1, i, dp, name, k, Now())
      ensures ok && Live(old(inodes), dp) ==> |Refs(inodes, i)| == |Refs(old(inodes), i)| + 1
    {
      if inodes[i].kind == Dir {
        return false;
      }
      ghost var s0 := Now();
      inodes := inodes[i := inodes[i].(nlink := inodes[i].nlink + 1)];
      pending := pending[i := pending[i] + 1];
      ghost var s1 := Now();
      CountOnlyInv(s0, i, s1);
      assert i != dp;
      var entered, entries := DirLink(inodes[dp].entries, name, i);
      if entered {
        inodes := inodes[dp := inodes[dp].(entries := entries)];
        pending := pending[i := pending[i] - 1];
        ghost var k :| FreeSlot(s1.inodes[dp].entries, k)
          && entries == Put(s1.inodes[dp].entries, k, Dirent(i, Stored(name)));
        LinkExactly(s1, i, dp, name, k, Now());
        assert LinkBeginStep(s0, i, s1) && LinkEnterStep(s1, i, dp, name, k, Now());
        if Live(s0.inodes, dp) {
          assert InodeOk(s0, i) && InodeOk(Now(), i);
        }
      } else {
        inodes := inodes[i := inodes[i].(nlink := inodes[i].nlink - 1)];
        pending := pending[i := pending[i] - 1];
        assert inodes == s0.inodes && pending == s0.pending;
      }
      return entered;
    }
  }

  /** What an ordinary entry names is an inode in use, other than the directory itself. */
  lemma Named(s: State, dp: nat, name: string, off: nat)
    requires Inv(s) && IsDir(s.inodes, dp) && off < |s.inodes[dp].entries| && Hit(s.inodes[dp].entries[off], name)
    requires !SameName(name, ".") && !SameName(name, "..")
    ensures var i := s.inodes[dp].entries[off].inum;
      i < |s.inodes| && i != dp && s.inodes[i].nlink >= 1 && (s.inodes[i].kind == Dir ==> s.inodes[dp].nlink >= 1)
  {
    var i := s.inodes[dp].entries[off].inum;
    OrdinarySlot(s, dp, name, off);
    assert (dp, off) in Refs(s.inodes, i) && InodeOk(s, i);
    assert InodeOk(s, dp);
    assert i == dp ==> Holds(s.inodes, dp, off, dp);
  }

  lemma OnlyHit(entries: seq<Dirent>, name: string, off: nat)
    requires NamesOk(entries) && off < |entries| && Hit(entries[off], name)
    ensures forall k :: 0 <= k < |entries| && Hit(entries[k], name) ==> k == off
  {}
}
