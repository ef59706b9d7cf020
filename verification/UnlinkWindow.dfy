/** sys_unlink with the moment between its two halves: the entry is gone and the parent unlocked,
    and the count of the inode, which is still locked, is not lowered yet. Other operations run in
    between, also ones that link the same inode elsewhere; seen from outside, every run is one in
    which unlink is a single step. */
module UnlinkWindow {
  import opened Basics
  import opened Directories

  /** held: the inodes whose entry is cleared and whose count is still to be lowered. */
  datatype Split = Split(s: State, held: set<nat>)

  datatype Act =
    | ClearEntry(dp: nat, name: string, off: nat)
    | LowerCount(i: nat)
    | Other(l: Label)

  /** sys_unlink up to the unlocking of the parent. */
  ghost predicate ClearStep(x: Split, dp: nat, name: string, off: nat, y: Split) {
    var s := x.s;
    && IsDir(s.inodes, dp) && !SameName(name, ".") && !SameName(name, "..") && dp !in x.held
    && off < |s.inodes[dp].entries| && Hit(s.inodes[dp].entries[off], name)
    && var i := s.inodes[dp].entries[off].inum;
       && i < |s.inodes| && i != dp && i !in x.held && s.inodes[i].nlink >= 1
       && (s.inodes[i].kind == Dir ==> Empty(s.inodes[i].entries) && s.inodes[dp].nlink >= 1)
       && y == Split(s.(inodes := s.inodes
            [dp := Inode(Dir, s.inodes[dp].nlink - (if s.inodes[i].kind == Dir then 1 else 0),
                         s.inodes[dp].entries[off := Dirent(0, "")])]), x.held + {i})
  }

  /** The rest of it. */
  ghost predicate LowerStep(x: Split, i: nat, y: Split) {
    && i in x.held && i < |x.s.inodes| && x.s.inodes[i].nlink >= 1
    && y == Split(x.s.(inodes := x.s.inodes[i := x.s.inodes[i].(nlink := x.s.inodes[i].nlink - 1)]), x.held - {i})
  }

  /** The inodes that a step locks and that were there before it. */
  ghost function Locks(l: Label): set<nat> {
    match l
    case Unlink(dp, name, off) => {dp}
    case Create(dp, name, kind, i, k) => {dp}
    case LinkBegin(i) => {i}
    case LinkEnter(i, dp, name, k) => {dp}
    case LinkAbort(i) => {i}
    case Reclaim(i) => {}
  }

  /** Nothing is added to an unlinked directory. */
  ghost predicate SplitStep(x: Split, a: Act, y: Split) {
    match a
    case ClearEntry(dp, name, off) => ClearStep(x, dp, name, off, y)
    case LowerCount(i) => LowerStep(x, i, y)
    case Other(l) =>
      && !l.Unlink? && Step(x.s, l, y.s) && y.held == x.held && Locks(l) !! x.held
      && (l.Create? || l.LinkEnter? ==> Live(x.s.inodes, l.dp))
  }

  ghost predicate SplitNext(x: Split, y: Split) {
    exists a :: SplitStep(x, a, y)
  }

  ghost predicate SplitRun(names: seq<string>, t: seq<Split>) {
    && |t| > 0 && Image(t[0].s, names) && GoodNames(names) && t[0].held == {}
    && forall i: nat :: SplitFollows(t, i)
  }

  ghost predicate SplitFollows(t: seq<Split>, i: nat) {
    0 < i < |t| ==> SplitNext(t[i - 1], t[i])
  }

  // ---- What an observer sees

  function Lowered(x: Inode): Inode {
    x.(nlink := if x.nlink > 0 then x.nlink - 1 else 0)
  }

  /** The state with every unlink that has begun done. */
  ghost function Seen(x: Split): State {
    State(seq(|x.s.inodes|, j requires 0 <= j < |x.s.inodes| =>
            if j in x.held then Lowered(x.s.inodes[j]) else x.s.inodes[j]), x.s.pending)
  }

  /** A held inode is in use and linked; a held directory has one link, the one that is gone. */
  ghost predicate HeldInode(x: Split, i: nat) {
    i in x.held ==>
      && i < |x.s.inodes| && x.s.inodes[i].kind != Free && x.s.inodes[i].nlink >= 1
      && (x.s.inodes[i].kind == Dir ==> x.s.inodes[i].nlink == 1)
  }

  ghost predicate SplitInv(x: Split) {
    Inv(Seen(x)) && forall i: nat :: HeldInode(x, i)
  }

  lemma ClearIsUnlink(x: Split, dp: nat, name: string, off: nat, y: Split)
    requires ClearStep(x, dp, name, off, y)
    ensures UnlinkStep(Seen(x), dp, name, off, Seen(y))
  {
    var s, i := Seen(x), x.s.inodes[dp].entries[off].inum;
    assert s.inodes[dp] == x.s.inodes[dp] && s.inodes[i] == x.s.inodes[i];
    assert Seen(y).inodes == s.inodes
      [dp := Inode(Dir, s.inodes[dp].nlink - (if s.inodes[i].kind == Dir then 1 else 0),
                   s.inodes[dp].entries[off := Dirent(0, "")])]
      [i := s.inodes[i].(nlink := s.inodes[i].nlink - 1)];
  }

  lemma ClearSeen(x: Split, dp: nat, name: string, off: nat, y: Split)
    requires SplitInv(x) && ClearStep(x, dp, name, off, y)
    ensures SplitInv(y) && UnlinkStep(Seen(x), dp, name, off, Seen(y))
  {
    ClearIsUnlink(x, dp, name, off, y);
    UnlinkInv(Seen(x), dp, name, off, Seen(y));
    ClearHeld(x, dp, name, off, y);
  }

  lemma ClearHeld(x: Split, dp: nat, name: string, off: nat, y: Split)
    requires SplitInv(x) && ClearStep(x, dp, name, off, y) && UnlinkStep(Seen(x), dp, name, off, Seen(y))
    ensures forall j: nat :: HeldInode(y, j)
  {
    UnlinkFacts(Seen(x), dp, name, off, Seen(y));
    forall j: nat ensures HeldInode(y, j) { assert HeldInode(x, j); }
  }

  lemma LowerSeen(x: Split, i: nat, y: Split)
    requires SplitInv(x) && LowerStep(x, i, y)
    ensures SplitInv(y) && Seen(y) == Seen(x)
  {
    assert Seen(y).inodes == Seen(x).inodes;
    forall j: nat ensures HeldInode(y, j) { assert HeldInode(x, j); }
  }

  lemma OtherSeen(x: Split, l: Label, y: Split)
    requires SplitInv(x) && SplitStep(x, Other(l), y)
    ensures SplitInv(y) && Step(Seen(x), l, Seen(y)) && Next(Seen(x), Seen(y))
  {
    forall j: nat ensures HeldInode(y, j) { assert HeldInode(x, j); }
    assert l.Create? || l.Reclaim? ==> HeldInode(x, l.i) && l.i !in x.held;
    OtherStep(x, l, y);
    NextInv(Seen(x), Seen(y));
  }

  lemma OtherStep(x: Split, l: Label, y: Split)
    requires SplitStep(x, Other(l), y) && |Seen(x).inodes| == |x.s.inodes|
    requires l.Create? || l.Reclaim? ==> l.i !in x.held
    ensures Step(Seen(x), l, Seen(y))
  {
    var s, s' := Seen(x), Seen(y);
    match l
    case Create(dp, name, kind, i, k) =>
      assert s'.inodes == s.inodes
         [i := Inode(kind, 1, if kind == Dir then [Dirent(i, "."), Dirent(dp, "..")] else [])]
         [dp := Inode(Dir, s.inodes[dp].nlink + (if kind == Dir then 1 else 0),
                      Put(s.inodes[dp].entries, k, Dirent(i, Stored(name))))];
    case LinkBegin(i) => assert s'.inodes == s.inodes[i := s'.inodes[i]];
    case LinkEnter(i, dp, name, k) => assert s'.inodes == s.inodes[dp := s'.inodes[dp]];
    case LinkAbort(i) => assert s'.inodes == s.inodes[i := s'.inodes[i]];
    case Reclaim(i) => assert s'.inodes == s.inodes[i := s'.inodes[i]];
  }

  /** Every step is one step of the directories with unlink in one step, or changes nothing there. */
  lemma Refines(x: Split, a: Act, y: Split)
    requires SplitInv(x) && SplitStep(x, a, y)
    ensures SplitInv(y)
    ensures if a.LowerCount? then Seen(y) == Seen(x) else Next(Seen(x), Seen(y))
  {
    match a
    case ClearEntry(dp, name, off) =>
      ClearSeen(x, dp, name, off, y);
      assert Step(Seen(x), Unlink(dp, name, off), Seen(y));
    case LowerCount(i) => LowerSeen(x, i, y);
    case Other(l) => OtherSeen(x, l, y);
  }

  lemma {:induction false} SplitRunInv(names: seq<string>, t: seq<Split>, n: nat)
    requires SplitRun(names, t) && n < |t|
    ensures SplitInv(t[n])
  {
    if n == 0 {
      assert Seen(t[0]).inodes == t[0].s.inodes;
      ImageInv(t[0].s, names);
    } else {
      SplitRunInv(names, t, n - 1);
      assert SplitFollows(t, n);
      var a :| SplitStep(t[n - 1], a, t[n]);
      Refines(t[n - 1], a, t[n]);
    }
  }

  // ---- Main results

  /** The entries that name inode i, without those of directories about to be unlinked. */
  ghost function Names(x: Split, i: nat): set<(nat, nat)> {
    set r | r in Refs(x.s.inodes, i) && r.0 !in x.held
  }

  lemma NamesSeen(x: Split, i: nat)
    requires SplitInv(x)
    ensures Refs(Seen(x).inodes, i) == Names(x, i)
  {
    forall d: nat, k: nat ensures Refers(Seen(x).inodes, d, k, i) <==> Refers(x.s.inodes, d, k, i) && d !in x.held {
      assert HeldInode(x, d);
    }
  }

  /** In every run, also between the halves of any number of unlinks, the count of an inode in use
      is the number of its names, plus the links being made, plus the one being taken away. */
  lemma CountsBetween(names: seq<string>, t: seq<Split>, n: nat, i: nat)
    requires SplitRun(names, t) && n < |t| && i < |t[n].s.inodes| && t[n].s.inodes[i].kind != Free
    ensures |t[n].s.pending| == |t[n].s.inodes|
    ensures t[n].s.inodes[i].nlink == |Names(t[n], i)| + t[n].s.pending[i] + if i in t[n].held then 1 else 0
  {
    SplitRunInv(names, t, n);
    assert InodeOk(Seen(t[n]), i) && HeldInode(t[n], i);
    NamesSeen(t[n], i);
  }

  /** The second half of an unlink never meets a count of 0, and the inode is not freed before it. */
  lemma CountNeverZero(names: seq<string>, t: seq<Split>, n: nat, i: nat)
    requires SplitRun(names, t) && n < |t| && i in t[n].held
    ensures i < |t[n].s.inodes| && t[n].s.inodes[i].kind != Free && t[n].s.inodes[i].nlink >= 1
    ensures exists y :: LowerStep(t[n], i, y)
  {
    SplitRunInv(names, t, n);
    assert HeldInode(t[n], i);
    var x := t[n];
    assert LowerStep(x, i, Split(x.s.(inodes := x.s.inodes[i := x.s.inodes[i].(nlink := x.s.inodes[i].nlink - 1)]),
                                 x.held - {i}));
  }
}
