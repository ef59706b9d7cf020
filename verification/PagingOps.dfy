/** The page allocator of kernel/kalloc.c and the address spaces of kernel/vm.c. */
module PagingOps {
  import opened Basics
  import opened Options
  import opened Paging

  const PGSIZE: nat := 4096
  const KERNBASE: nat := 0x8000_0000
  const KERNPAGE: nat := 0x8_0000

  // ---- What does not change

  predicate Of(o: Owner, pd: nat) {
    o.Used? && o.pd == pd
  }

  function Data(s: State, f: nat): Page {
    if f < |s.mem| then s.mem[f] else []
  }

  /** A page in use that is not part of pd is in use as before, with the same contents. */
  ghost predicate OutsideOk(s: State, s': State, owner: map<nat, Owner>, owner': map<nat, Owner>, pd: nat, f: nat) {
    && (f in owner && !Of(owner[f], pd) <==> f in owner' && !Of(owner'[f], pd))
    && (f in owner && !Of(owner[f], pd) ==> owner'[f] == owner[f] && Data(s', f) == Data(s, f))
  }

  /** Nothing outside of pd changes: no other address space, no page held elsewhere. */
  ghost predicate Outside(s: State, s': State, owner: map<nat, Owner>, owner': map<nat, Owner>, pd: nat) {
    s'.dirs - {pd} == s.dirs - {pd} && forall f: nat :: OutsideOk(s, s', owner, owner', pd, f)
  }

  /** What user code finds at a page: flags and contents. */
  datatype View = Absent | Mapped(flags: nat, page: Page)

  function See(s: State, pd: nat, d: nat, t: nat): View {
    var w := Pte(s, pd, d, t);
    if d < KERNPDX && Present(w) then Mapped(Flags(w), Data(s, Frame(w))) else Absent
  }

  /** The entry for a page, and what is there if it is a user page. */
  ghost predicate Kept(s: State, s': State, pd: nat, d: nat, t: nat) {
    Pte(s', pd, d, t) == Pte(s, pd, d, t) && See(s', pd, d, t) == See(s, pd, d, t)
  }

  ghost predicate AllKept(s: State, s': State, pd: nat) {
    forall d: nat, t: nat :: Kept(s, s', pd, d, t)
  }

  ghost predicate KeptBut(s: State, s': State, pd: nat, e: nat, u: nat) {
    forall d: nat, t: nat :: (d, t) != (e, u) ==> Kept(s, s', pd, d, t)
  }

  /** The pages that pd has gained are tables. */
  ghost predicate TableOk(owner: map<nat, Owner>, owner': map<nat, Owner>, pd: nat, f: nat) {
    && (f in owner ==> f in owner' && owner'[f] == owner[f])
    && (f in owner' && f !in owner ==> owner'[f].Used? && owner'[f].pd == pd && owner'[f].slot.Tab?)
  }

  ghost predicate OnlyTables(owner: map<nat, Owner>, owner': map<nat, Owner>, pd: nat) {
    forall f: nat :: TableOk(owner, owner', pd, f)
  }

  // ---- The free list

  lemma Taken(ram: Ram, free: seq<nat>, owner: map<nat, Owner>)
    requires Listed(ram, free, owner) && free != []
    ensures ram.lo <= free[0] < ram.hi && free[0] !in owner
    ensures Listed(ram, free[1..], owner[free[0] := Held])
  {
    var f, free', owner' := free[0], free[1..], owner[free[0] := Held];
    assert FreeOk(ram, free, owner, f);
    forall g: nat ensures FreeOk(ram, free', owner', g) {
      assert FreeOk(ram, free, owner, g);
      if g in free && g != f {
        var k :| 0 <= k < |free| && free[k] == g;
        assert free'[k - 1] == g;
      }
    }
  }

  lemma Returned(ram: Ram, free: seq<nat>, owner: map<nat, Owner>, f: nat)
    requires Listed(ram, free, owner) && ram.lo <= f < ram.hi && f in owner
    ensures Listed(ram, [f] + free, owner - {f})
  {
    var free', owner' := [f] + free, owner - {f};
    assert FreeOk(ram, free, owner, f);
    forall g: nat ensures FreeOk(ram, free', owner', g) {
      assert FreeOk(ram, free, owner, g);
      assert g in free' <==> g == f || g in free;
    }
  }

  ghost predicate SamePages(free: seq<nat>, free': seq<nat>) {
    forall f: nat :: f in free <==> f in free'
  }

  /** With the same pages in use, the same pages are free. */
  lemma SameFree(ram: Ram, free: seq<nat>, free': seq<nat>, owner: map<nat, Owner>)
    requires Listed(ram, free, owner) && Listed(ram, free', owner)
    ensures SamePages(free, free')
  {
    forall f: nat ensures f in free <==> f in free' {
      assert FreeOk(ram, free, owner, f) && FreeOk(ram, free', owner, f);
    }
  }

  lemma HeldAdded(ram: Ram, s: State, owner: map<nat, Owner>, f: nat)
    requires Core(ram, s, owner) && ram.lo <= f < ram.hi && f !in owner
    ensures Core(ram, s, owner[f := Held])
  {
    var owner' := owner[f := Held];
    forall p: nat, slot: Slot ensures SlotOk(s, owner', p, slot) { assert SlotOk(s, owner, p, slot); }
    forall g: nat ensures OwnerOk(ram, s, owner', g) { assert OwnerOk(ram, s, owner, g); }
  }

  lemma HeldDropped(ram: Ram, s: State, owner: map<nat, Owner>, f: nat)
    requires Core(ram, s, owner) && f in owner && owner[f] == Held
    ensures Core(ram, s, owner - {f})
  {
    var owner' := owner - {f};
    forall p: nat, slot: Slot ensures SlotOk(s, owner', p, slot) { assert SlotOk(s, owner, p, slot); }
    forall g: nat ensures OwnerOk(ram, s, owner', g) { assert OwnerOk(ram, s, owner, g); }
  }

  // ---- How many pages are needed

  /** The directory entries without a table. */
  ghost function Missing(s: State, pd: nat): set<nat> {
    set d: nat | d < ENTRIES && TabOf(s, pd, d) == 0
  }

  /** Free pages beyond those that tables for pd could still take. */
  ghost function Slack(s: State, free: seq<nat>, pd: nat): int {
    |free| - |Missing(s, pd)|
  }

  lemma MissingSame(s: State, s': State, pd: nat)
    requires forall d: nat :: d < ENTRIES ==> TabOf(s', pd, d) == TabOf(s, pd, d)
    ensures Missing(s', pd) == Missing(s, pd)
  {}

  lemma MissingLess(s: State, s': State, pd: nat, d: nat)
    requires d in Missing(s, pd) && TabOf(s', pd, d) != 0
    requires forall e: nat :: e < ENTRIES && e != d ==> TabOf(s', pd, e) == TabOf(s, pd, e)
    ensures |Missing(s', pd)| == |Missing(s, pd)| - 1
  {
    assert Missing(s', pd) == Missing(s, pd) - {d};
  }

  lemma MissingSome(s: State, pd: nat, d: nat)
    requires d < ENTRIES && TabOf(s, pd, d) == 0
    ensures |Missing(s, pd)| >= 1
  {
    assert Missing(s, pd) == {d} + (Missing(s, pd) - {d});
  }

  lemma {:induction false} MissingAll(s: State, pd: nat, n: nat)
    requires n <= ENTRIES && forall d: nat :: d < ENTRIES ==> TabOf(s, pd, d) == 0
    ensures |set d: nat | d < n && TabOf(s, pd, d) == 0| == n
  {
    if n > 0 {
      MissingAll(s, pd, n - 1);
      assert (set d: nat | d < n && TabOf(s, pd, d) == 0) == (set d: nat | d < n - 1 && TabOf(s, pd, d) == 0) + {n - 1};
    } else {
      assert (set d: nat | d < n && TabOf(s, pd, d) == 0) == {};
    }
  }

  // ---- Tables and pages added

  /** A page is seen as before if its entry is the same and no user page of pd has changed. */
  lemma SeenAgain(ram: Ram, s: State, owner: map<nat, Owner>, s': State, pd: nat, d: nat, t: nat)
    requires Core(ram, s, owner) && pd in s.dirs && Pte(s', pd, d, t) == Pte(s, pd, d, t)
    requires forall f :: f in owner && owner[f] == Used(pd, Leaf(d, t)) ==> Data(s', f) == Data(s, f)
    ensures Kept(s, s', pd, d, t)
  {
    assert EntryOk(s, pd, d, t) && SlotOk(s, owner, pd, Leaf(d, t));
  }

  ghost predicate Walked(s: State, s': State, owner: map<nat, Owner>, owner': map<nat, Owner>, pd: nat) {
    Outside(s, s', owner, owner', pd) && AllKept(s, s', pd) && OnlyTables(owner, owner', pd)
  }

  /** Page f, which was free, made a table of pd: no translation changes. */
  lemma TableAdded(ram: Ram, s: State, owner: map<nat, Owner>, pd: nat, d: nat, f: nat)
    requires Core(ram, s, owner) && pd in s.dirs && d < ENTRIES && TabOf(s, pd, d) == 0 && ram.lo <= f < ram.hi
      && f !in owner
    ensures var s', owner' := WordSet(Poked(s, f, Zeros()), pd, d, Entry(f, 7)), owner[f := Used(pd, Tab(d))];
      && Core(ram, s', owner') && Walked(s, s', owner, owner', pd) && TabOf(s', pd, d) == f
      && |Missing(s', pd)| == |Missing(s, pd)| - 1
  {
    var s1, o1 := Poked(s, f, Zeros()), owner[f := Held];
    PokedCore(ram, s, owner, f, Zeros());
    HeldAdded(ram, s1, owner, f);
    PokedSame(ram, s, owner, f, Zeros(), pd, d, 0);
    var s', owner' := WordSet(s1, pd, d, Entry(f, 7)), owner[f := Used(pd, Tab(d))];
    assert owner' == o1[f := Used(pd, Tab(d))];
    PdeWrittenCore(ram, s1, o1, pd, d, f);
    PdeWritten(ram, s1, o1, pd, d, f, pd, d, 0);
    assert SlotOk(s, owner, pd, Self) && At(s, pd, Self) == pd;
    forall e: nat, u: nat ensures Kept(s, s', pd, e, u) {
      PokedSame(ram, s, owner, f, Zeros(), pd, e, u);
      PdeWritten(ram, s1, o1, pd, d, f, pd, e, u);
      SeenAgain(ram, s, owner, s', pd, e, u);
    }
    forall g: nat ensures OutsideOk(s, s', owner, owner', pd, g) && TableOk(owner, owner', pd, g) {}
    forall e: nat | e < ENTRIES && e != d ensures TabOf(s', pd, e) == TabOf(s, pd, e) {
      PokedSame(ram, s, owner, f, Zeros(), pd, e, 0);
      PdeWritten(ram, s1, o1, pd, d, f, pd, e, 0);
    }
    MissingLess(s, s', pd, d);
  }

  /** Page f, which was held, mapped at an empty entry: nothing else changes. */
  ghost predicate PageAdded(s: State, s': State, owner: map<nat, Owner>, owner': map<nat, Owner>, pd: nat, d: nat,
                            t: nat, f: nat, perm: nat)
    requires perm < 4096
  {
    && Outside(s, s', owner - {f}, owner', pd) && KeptBut(s, s', pd, d, t) && OnlyTables(owner - {f}, owner' - {f}, pd)
    && f in owner' && owner'[f] == Used(pd, Leaf(d, t)) && Data(s', f) == Data(s, f)
       && Pte(s', pd, d, t) == Entry(f, perm)
  }

  /** Writing an entry of a table leaves the tables where they are. */
  lemma TablesStay(ram: Ram, s: State, owner: map<nat, Owner>, pd: nat, d: nat, t: nat, w: nat)
    requires Core(ram, s, owner) && pd in s.dirs && TabOf(s, pd, d) != 0 && t < ENTRIES
    ensures TabOf(s, pd, d) < |s.mem| && |s.mem[TabOf(s, pd, d)]| == ENTRIES
    ensures Missing(WordSet(s, TabOf(s, pd, d), t, w), pd) == Missing(s, pd)
  {
    TabIsTable(ram, s, owner, pd, d);
    var s' := WordSet(s, TabOf(s, pd, d), t, w);
    forall e: nat | e < ENTRIES ensures TabOf(s', pd, e) == TabOf(s, pd, e) {
      PteWritten(ram, s, owner, pd, d, t, w, pd, e, 0);
    }
    MissingSame(s, s', pd);
  }

  lemma LeafAdded(ram: Ram, s: State, owner: map<nat, Owner>, pd: nat, d: nat, t: nat, f: nat, perm: nat)
    requires Core(ram, s, owner) && pd in s.dirs && d < KERNPDX && t < ENTRIES && TabOf(s, pd, d) != 0 && perm < 4096
    requires f in owner && owner[f] == Held && !Present(Pte(s, pd, d, t))
    ensures TabOf(s, pd, d) < |s.mem| && |s.mem[TabOf(s, pd, d)]| == ENTRIES
    ensures var s', owner' := WordSet(s, TabOf(s, pd, d), t, Entry(f, perm)), owner[f := Used(pd, Leaf(d, t))];
      Core(ram, s', owner') && PageAdded(s, s', owner, owner', pd, d, t, f, perm)
  {
    TabIsTable(ram, s, owner, pd, d);
    var tab, w := TabOf(s, pd, d), Entry(f, perm);
    var s', owner' := WordSet(s, tab, t, w), owner[f := Used(pd, Leaf(d, t))];
    EntryParts(f, perm);
    assert OwnerOk(ram, s, owner, f);
    forall g | g in owner ensures owner[g] != Used(pd, Leaf(d, t)) { assert OwnerOk(ram, s, owner, g); }
    PteWrittenCore(ram, s, owner, pd, d, t, w, owner');
    PteWritten(ram, s, owner, pd, d, t, w, pd, d, t);
    forall e: nat, u: nat | (e, u) != (d, t) ensures Kept(s, s', pd, e, u) {
      PteWritten(ram, s, owner, pd, d, t, w, pd, e, u);
      SeenAgain(ram, s, owner, s', pd, e, u);
    }
    var o0, o1 := owner - {f}, owner' - {f};
    forall g: nat ensures OutsideOk(s, s', o0, owner', pd, g) && TableOk(o0, o1, pd, g) {}
  }

  lemma WalkedThenAdded(s: State, s1: State, s2: State, o: map<nat, Owner>, o1: map<nat, Owner>, o2: map<nat, Owner>,
                        pd: nat, d: nat, t: nat, f: nat, perm: nat)
    requires perm < 4096 && f in o && o[f] == Held
    requires Walked(s, s1, o, o1, pd) && PageAdded(s1, s2, o1, o2, pd, d, t, f, perm)
    ensures PageAdded(s, s2, o, o2, pd, d, t, f, perm)
  {
    var a, b, c := o - {f}, o1 - {f}, o2 - {f};
    forall e: nat, u: nat | (e, u) != (d, t) ensures Kept(s, s2, pd, e, u) {
      assert Kept(s, s1, pd, e, u) && Kept(s1, s2, pd, e, u);
    }
    assert OutsideOk(s, s1, o, o1, pd, f);
    forall g: nat ensures OutsideOk(s, s2, a, o2, pd, g) && TableOk(a, c, pd, g) {
      assert OutsideOk(s, s1, o, o1, pd, g) && OutsideOk(s1, s2, b, o2, pd, g);
      assert TableOk(o, o1, pd, g) && TableOk(b, c, pd, g);
    }
  }

  // ---- Pages freed

  /** In the span from page lo to page hi. */
  predicate InSpan(lo: nat, hi: nat, d: nat, t: nat) {
    d < KERNPDX && t < ENTRIES && lo <= d * ENTRIES + t < hi
  }

  /** A present page of the span is gone, any other is as it was. */
  ghost predicate Scanned(s: State, s': State, pd: nat, lo: nat, hi: nat, d: nat, t: nat) {
    if InSpan(lo, hi, d, t) && Present(Pte(s, pd, d, t)) then Pte(s', pd, d, t) == 0 else Kept(s, s', pd, d, t)
  }

  /** Exactly the pages of the span are no longer in use. */
  ghost predicate ReleasedOk(owner: map<nat, Owner>, owner': map<nat, Owner>, pd: nat, lo: nat, hi: nat, f: nat) {
    && (f in owner' ==> f in owner && owner'[f] == owner[f])
    && (f in owner && f !in owner' <==>
          f in owner && owner[f].Used? && owner[f].pd == pd && owner[f].slot.Leaf?
            && InSpan(lo, hi, owner[f].slot.d, owner[f].slot.t))
  }

  ghost predicate Dealloced(s: State, s': State, owner: map<nat, Owner>, owner': map<nat, Owner>, pd: nat, lo: nat,
                            hi: nat) {
    && Outside(s, s', owner, owner', pd)
    && (forall d: nat, t: nat :: Scanned(s, s', pd, lo, hi, d, t))
    && (forall f: nat :: ReleasedOk(owner, owner', pd, lo, hi, f))
  }

  lemma ScanNone(s: State, owner: map<nat, Owner>, pd: nat, lo: nat, hi: nat)
    requires hi <= lo
    ensures Dealloced(s, s, owner, owner, pd, lo, hi)
  {
    forall d: nat, t: nat ensures Scanned(s, s, pd, lo, hi, d, t) {}
    forall f: nat ensures ReleasedOk(owner, owner, pd, lo, hi, f) && OutsideOk(s, s, owner, owner, pd, f) {}
  }

  /** The page of one entry freed and the entry cleared. */
  function LeafCleared(s: State, tab: nat, t: nat, f: nat): State
    requires f < |s.mem| && tab < |s.mem| && tab != f && t < |s.mem[tab]|
  {
    WordSet(Poked(s, f, Junk()), tab, t, 0)
  }

  lemma LeafGone(ram: Ram, s: State, owner: map<nat, Owner>, pd: nat, d: nat, t: nat)
    requires Core(ram, s, owner) && pd in s.dirs && d < KERNPDX && t < ENTRIES && Present(Pte(s, pd, d, t))
    ensures var f, tab := Frame(Pte(s, pd, d, t)), TabOf(s, pd, d);
      && f in owner && owner[f] == Used(pd, Leaf(d, t)) && ram.lo <= f < ram.hi
      && tab != 0 && tab < |s.mem| && tab != f && |s.mem[tab]| == ENTRIES && tab != pd
      && Core(ram, LeafCleared(s, tab, t, f), owner - {f})
      && Dealloced(s, LeafCleared(s, tab, t, f), owner, owner - {f}, pd, d * ENTRIES + t, d * ENTRIES + t + 1)
  {
    var f, tab := Frame(Pte(s, pd, d, t)), TabOf(s, pd, d);
    assert EntryOk(s, pd, d, t) && SlotOk(s, owner, pd, Leaf(d, t)) && At(s, pd, Leaf(d, t)) == f;
    assert OwnerOk(ram, s, owner, f);
    TabIsTable(ram, s, owner, pd, d);
    var s1 := Poked(s, f, Junk());
    PokedCore(ram, s, owner, f, Junk());
    PokedSame(ram, s, owner, f, Junk(), pd, d, t);
    var s', owner', vp, next := LeafCleared(s, tab, t, f), owner - {f}, d * ENTRIES + t, d * ENTRIES + t + 1;
    forall g | g in owner && g != f ensures owner[g] != Used(pd, Leaf(d, t)) { assert OwnerOk(ram, s, owner, g); }
    PteWrittenCore(ram, s1, owner, pd, d, t, 0, owner');
    forall e: nat, u: nat ensures Scanned(s, s', pd, vp, next, e, u) {
      PokedSame(ram, s, owner, f, Junk(), pd, e, u);
      PteWritten(ram, s1, owner, pd, d, t, 0, pd, e, u);
      SpanOne(d, t, e, u);
      if (e, u) != (d, t) { SeenAgain(ram, s, owner, s', pd, e, u); }
    }
    forall g: nat ensures ReleasedOk(owner, owner', pd, vp, next, g) && OutsideOk(s, s', owner, owner', pd, g) {
      if g in owner && owner[g].Used? && owner[g].slot.Leaf? { SpanOne(d, t, owner[g].slot.d, owner[g].slot.t); }
    }
  }

  lemma SpanOne(d: nat, t: nat, e: nat, u: nat)
    requires d < KERNPDX && t < ENTRIES
    ensures InSpan(d * ENTRIES + t, d * ENTRIES + t + 1, e, u) <==> (e, u) == (d, t)
  {}

  /** One stretch scanned after another. */
  lemma ScanMore(s0: State, s: State, s': State, o0: map<nat, Owner>, o: map<nat, Owner>, o': map<nat, Owner>, pd: nat,
                 lo: nat, mid: nat, hi: nat)
    requires lo <= mid <= hi && Dealloced(s0, s, o0, o, pd, lo, mid) && Dealloced(s, s', o, o', pd, mid, hi)
    ensures Dealloced(s0, s', o0, o', pd, lo, hi)
  {
    forall d: nat, t: nat ensures Scanned(s0, s', pd, lo, hi, d, t) {
      assert Scanned(s0, s, pd, lo, mid, d, t) && Scanned(s, s', pd, mid, hi, d, t);
    }
    forall f: nat ensures ReleasedOk(o0, o', pd, lo, hi, f) && OutsideOk(s0, s', o0, o', pd, f) {
      assert ReleasedOk(o0, o, pd, lo, mid, f) && ReleasedOk(o, o', pd, mid, hi, f);
      assert OutsideOk(s0, s, o0, o, pd, f) && OutsideOk(s, s', o, o', pd, f);
    }
  }

  /** A stretch without any present page needs no work. */
  lemma ScanAbsent(ram: Ram, s: State, owner: map<nat, Owner>, pd: nat, lo: nat, hi: nat)
    requires Core(ram, s, owner) && pd in s.dirs
    requires forall d: nat, t: nat :: InSpan(lo, hi, d, t) ==> !Present(Pte(s, pd, d, t))
    ensures Dealloced(s, s, owner, owner, pd, lo, hi)
  {
    forall d: nat, t: nat ensures Scanned(s, s, pd, lo, hi, d, t) {}
    forall f: nat ensures ReleasedOk(owner, owner, pd, lo, hi, f) && OutsideOk(s, s, owner, owner, pd, f) {
      assert OwnerOk(ram, s, owner, f);
    }
  }

  /** The jump over a missing table: all that is left of its pages is absent. */
  lemma ScanTable(ram: Ram, s: State, owner: map<nat, Owner>, pd: nat, d: nat, lo: nat, hi: nat)
    requires Core(ram, s, owner) && pd in s.dirs && TabOf(s, pd, d) == 0 && d * ENTRIES <= lo && hi <= (d + 1) * ENTRIES
    ensures Dealloced(s, s, owner, owner, pd, lo, hi)
  {
    forall e: nat, u: nat | InSpan(lo, hi, e, u) ensures !Present(Pte(s, pd, e, u)) {
      assert e == d;
    }
    ScanAbsent(ram, s, owner, pd, lo, hi);
  }

  // ---- A whole address space freed

  /** What is in use once the tables below entry n are freed. */
  ghost function Minus(owner: map<nat, Owner>, pd: nat, n: nat): map<nat, Owner> {
    map f | f in owner && !(owner[f].Used? && owner[f].pd == pd && owner[f].slot.Tab? && owner[f].slot.d < n) ::
      owner[f]
  }

  lemma MinusNone(owner: map<nat, Owner>, pd: nat)
    ensures Minus(owner, pd, 0) == owner
  {}

  lemma MinusNext(ram: Ram, s: State, owner: map<nat, Owner>, pd: nat, d: nat)
    requires Core(ram, s, owner) && pd in s.dirs
    ensures TabOf(s, pd, d) == 0 ==> Minus(owner, pd, d + 1) == Minus(owner, pd, d)
    ensures TabOf(s, pd, d) != 0 ==>
      TabOf(s, pd, d) in Minus(owner, pd, d) && Minus(owner, pd, d + 1) == Minus(owner, pd, d) - {TabOf(s, pd, d)}
  {
    forall f: nat | f in owner && owner[f] == Used(pd, Tab(d)) ensures f == TabOf(s, pd, d) != 0 {
      assert OwnerOk(ram, s, owner, f);
      assert At(s, pd, Tab(d)) == TabOf(s, pd, d);
      assert ram.lo > 0;
    }
    if TabOf(s, pd, d) != 0 { TabIsTable(ram, s, owner, pd, d); }
  }

  /** Without user pages, the tables and the directory itself are all that pd has. */
  lemma MinusAll(ram: Ram, s: State, owner: map<nat, Owner>, pd: nat)
    requires Core(ram, s, owner) && pd in s.dirs && forall f :: f in owner && Of(owner[f], pd) ==> !owner[f].slot.Leaf?
    ensures pd in Minus(owner, pd, ENTRIES) && Minus(owner, pd, ENTRIES) - {pd} == Without(owner, pd)
  {
    assert SlotOk(s, owner, pd, Self) && At(s, pd, Self) == pd;
    forall f: nat | f in owner && Of(owner[f], pd) && f != pd ensures owner[f].slot.Tab? && owner[f].slot.d < ENTRIES {
      assert OwnerOk(ram, s, owner, f);
    }
  }

  /** After a scan of the whole user half, pd has no user page left. */
  lemma NoLeafLeft(ram: Ram, s: State, s': State, owner: map<nat, Owner>, owner': map<nat, Owner>, pd: nat, f: nat)
    requires Core(ram, s, owner) && Dealloced(s, s', owner, owner', pd, 0, KERNPDX * ENTRIES)
    ensures f in owner' && Of(owner'[f], pd) ==> !owner'[f].slot.Leaf?
    ensures (f in owner && !Of(owner[f], pd)) <==> (f in owner' && !Of(owner'[f], pd))
    ensures f in owner' ==> f in owner && owner'[f] == owner[f]
  {
    assert ReleasedOk(owner, owner', pd, 0, KERNPDX * ENTRIES, f) && OwnerOk(ram, s, owner, f);
    assert OutsideOk(s, s', owner, owner', pd, f);
    if f in owner && Of(owner[f], pd) && owner[f].slot.Leaf? {
      assert At(s, pd, owner[f].slot) == f > 0;
      assert InSpan(0, KERNPDX * ENTRIES, owner[f].slot.d, owner[f].slot.t);
    }
  }

  lemma PokedTables(ram: Ram, s: State, owner: map<nat, Owner>, f: nat, p: Page, pd: nat)
    requires Core(ram, s, owner) && f < |s.mem| && Plain(owner, f) && |p| == ENTRIES && pd in s.dirs
    ensures Missing(Poked(s, f, p), pd) == Missing(s, pd)
  {
    forall d: nat | d < ENTRIES ensures TabOf(Poked(s, f, p), pd, d) == TabOf(s, pd, d) {
      PokedSame(ram, s, owner, f, p, pd, d, 0);
    }
    MissingSame(s, Poked(s, f, p), pd);
  }

  // ---- Pages added one after another

  ghost predicate GainedOk(owner: map<nat, Owner>, owner': map<nat, Owner>, pd: nat, lo: nat, hi: nat, f: nat) {
    && (f in owner ==> f in owner' && owner'[f] == owner[f])
    && (f in owner' && f !in owner ==>
          Of(owner'[f], pd) && (owner'[f].slot.Tab?
            || (owner'[f].slot.Leaf? && InSpan(lo, hi, owner'[f].slot.d, owner'[f].slot.t))))
  }

  /** pd has gained tables and pages of the span, and nothing else has changed in what is in use. */
  ghost predicate Gained(owner: map<nat, Owner>, owner': map<nat, Owner>, pd: nat, lo: nat, hi: nat) {
    forall f: nat :: GainedOk(owner, owner', pd, lo, hi, f)
  }

  /** The page at (d, t) is new, with these flags and contents. */
  ghost predicate NewPage(s: State, s': State, owner: map<nat, Owner>, owner': map<nat, Owner>, pd: nat, d: nat,
                          t: nat, flags: nat, p: Page) {
    && Outside(s, s', owner, owner', pd) && KeptBut(s, s', pd, d, t)
    && See(s', pd, d, t) == Mapped(flags, p)
    && Gained(owner, owner', pd, d * ENTRIES + t, d * ENTRIES + t + 1)
  }

  lemma PageIsNew(ram: Ram, s: State, s': State, owner: map<nat, Owner>, owner': map<nat, Owner>, pd: nat, d: nat,
                  t: nat, f: nat, perm: nat, p: Page)
    requires Core(ram, s, owner) && pd in s.dirs && ram.lo <= f < ram.hi && f !in owner && perm < 4096 && d < KERNPDX
      && t < ENTRIES
    requires |p| == ENTRIES && PageAdded(Poked(s, f, p), s', owner[f := Held], owner', pd, d, t, f, perm)
    ensures NewPage(s, s', owner, owner', pd, d, t, if perm % 2 == 1 then perm else perm + 1, p)
  {
    var s1, o1, a, b := Poked(s, f, p), owner[f := Held], owner[f := Held] - {f}, owner' - {f};
    var lo, hi := d * ENTRIES + t, d * ENTRIES + t + 1;
    assert a == owner;
    EntryParts(f, perm);
    assert Data(s1, f) == p;
    forall e: nat, u: nat | (e, u) != (d, t) ensures Kept(s, s', pd, e, u) {
      assert Kept(s1, s', pd, e, u);
      PokedSame(ram, s, owner, f, p, pd, e, u);
      SeenAgain(ram, s, owner, s1, pd, e, u);
    }
    forall g: nat ensures OutsideOk(s, s', owner, owner', pd, g) && GainedOk(owner, owner', pd, lo, hi, g) {
      assert OutsideOk(s1, s', a, owner', pd, g) && TableOk(a, b, pd, g);
      SpanOne(d, t, d, t);
    }
  }

  ghost predicate AllocOk(s: State, s': State, pd: nat, lo: nat, hi: nat, d: nat, t: nat) {
    if InSpan(lo, hi, d, t) then See(s', pd, d, t) == Mapped(7, Zeros()) else Kept(s, s', pd, d, t)
  }

  /** The pages of the span are there, zeroed; every other page is as it was. */
  ghost predicate Alloced(s: State, s': State, owner: map<nat, Owner>, owner': map<nat, Owner>, pd: nat, lo: nat,
                          hi: nat) {
    && Outside(s, s', owner, owner', pd) && Gained(owner, owner', pd, lo, hi)
    && (forall d: nat, t: nat :: AllocOk(s, s', pd, lo, hi, d, t))
  }

  lemma AllocNone(s: State, owner: map<nat, Owner>, pd: nat, lo: nat, hi: nat)
    requires hi <= lo
    ensures Alloced(s, s, owner, owner, pd, lo, hi)
  {
    forall d: nat, t: nat ensures AllocOk(s, s, pd, lo, hi, d, t) {}
    forall f: nat ensures GainedOk(owner, owner, pd, lo, hi, f) && OutsideOk(s, s, owner, owner, pd, f) {}
  }

  lemma AllocMore(s0: State, s: State, s': State, o0: map<nat, Owner>, o: map<nat, Owner>, o': map<nat, Owner>,
                  pd: nat, lo: nat, d: nat, t: nat)
    requires lo <= d * ENTRIES + t && d < KERNPDX && t < ENTRIES
    requires Alloced(s0, s, o0, o, pd, lo, d * ENTRIES + t) && NewPage(s, s', o, o', pd, d, t, 7, Zeros())
    ensures Alloced(s0, s', o0, o', pd, lo, d * ENTRIES + t + 1)
  {
    var vp, next := d * ENTRIES + t, d * ENTRIES + t + 1;
    forall e: nat, u: nat ensures AllocOk(s0, s', pd, lo, next, e, u) {
      assert AllocOk(s0, s, pd, lo, vp, e, u);
      SpanOne(d, t, e, u);
      if (e, u) != (d, t) { assert Kept(s, s', pd, e, u); }
    }
    forall f: nat ensures GainedOk(o0, o', pd, lo, next, f) && OutsideOk(s0, s', o0, o', pd, f) {
      assert GainedOk(o0, o, pd, lo, vp, f) && GainedOk(o, o', pd, vp, next, f);
      assert OutsideOk(s0, s, o0, o, pd, f) && OutsideOk(s, s', o, o', pd, f);
    }
  }

  ghost predicate VacantAt(s: State, pd: nat, lo: nat, hi: nat, d: nat, t: nat) {
    InSpan(lo, hi, d, t) ==> !Present(Pte(s, pd, d, t))
  }

  /** No page of the span is there. */
  ghost predicate Vacant(s: State, pd: nat, lo: nat, hi: nat) {
    forall d: nat, t: nat :: VacantAt(s, pd, lo, hi, d, t)
  }

  ghost predicate EmptiedAt(s: State, s': State, pd: nat, lo: nat, hi: nat, d: nat, t: nat) {
    if InSpan(lo, hi, d, t) then !Present(Pte(s', pd, d, t)) else Kept(s, s', pd, d, t)
  }

  /** The pages of the span are gone, those that were there before included. */
  ghost predicate Emptied(s: State, s': State, owner: map<nat, Owner>, owner': map<nat, Owner>, pd: nat, lo: nat,
                          hi: nat) {
    Outside(s, s', owner, owner', pd) && forall d: nat, t: nat :: EmptiedAt(s, s', pd, lo, hi, d, t)
  }

  lemma AllocEmptied(s0: State, s: State, s': State, o0: map<nat, Owner>, o: map<nat, Owner>, o': map<nat, Owner>,
                     pd: nat, lo: nat, mid: nat, hi: nat)
    requires lo <= mid <= hi && Alloced(s0, s, o0, o, pd, lo, mid) && Dealloced(s, s', o, o', pd, lo, hi)
    ensures Emptied(s0, s', o0, o', pd, lo, hi)
  {
    OutsideAgain(s0, s, s', o0, o, o', pd);
    forall d: nat, t: nat ensures EmptiedAt(s0, s', pd, lo, hi, d, t) {
      assert AllocOk(s0, s, pd, lo, mid, d, t) && Scanned(s, s', pd, lo, hi, d, t);
    }
  }

  /** What allocuvm may come to: the pages are there; or memory ran out, and what was in the range
      is gone again; or a page of the range was there already, which is a panic unless memory has
      run out before. */
  ghost predicate AllocResult(s: State, s': State, owner: map<nat, Owner>, owner': map<nat, Owner>, pd: nat,
                              oldsz: nat, newsz: nat,
                              nfree: nat, r: Option<nat>) {
    var lo, hi := PageUp(oldsz), PageUp(newsz);
    if Vacant(s, pd, lo, hi) then
      || (r == Some(newsz) && Alloced(s, s', owner, owner', pd, lo, hi))
      || (r == Some(0) && Walked(s, s', owner, owner', pd) && nfree < |Missing(s, pd)| + hi - lo)
    else
      r == None || (r == Some(0) && Emptied(s, s', owner, owner', pd, lo, hi))
  }

  lemma VacantMore(s0: State, s: State, pd: nat, lo: nat, d: nat, t: nat)
    requires lo <= d * ENTRIES + t && d < KERNPDX && t < ENTRIES && Vacant(s0, pd, lo, d * ENTRIES + t)
    requires AllocOk(s0, s, pd, lo, d * ENTRIES + t, d, t) && !Present(Pte(s, pd, d, t))
    ensures Vacant(s0, pd, lo, d * ENTRIES + t + 1)
  {
    var vp, next := d * ENTRIES + t, d * ENTRIES + t + 1;
    forall e: nat, u: nat ensures VacantAt(s0, pd, lo, next, e, u) {
      assert VacantAt(s0, pd, lo, vp, e, u);
      SpanOne(d, t, e, u);
    }
  }

  lemma Occupied(s0: State, s: State, pd: nat, lo: nat, hi: nat, d: nat, t: nat)
    requires InSpan(lo, hi, d, t) && AllocOk(s0, s, pd, lo, d * ENTRIES + t, d, t) && Present(Pte(s, pd, d, t))
    ensures !Vacant(s0, pd, lo, hi)
  {
    assert !VacantAt(s0, pd, lo, hi, d, t);
  }

  lemma AllocFailed(ram: Ram, s0: State, s: State, s': State, o0: map<nat, Owner>, o: map<nat, Owner>, o': map<nat,
                    Owner>, pd: nat,
                    oldsz: nat, newsz: nat, mid: nat, nfree: nat)
    requires Core(ram, s0, o0) && Core(ram, s', o') && pd in s0.dirs && pd in s'.dirs
      && PageUp(oldsz) <= mid <= PageUp(newsz)
    requires Alloced(s0, s, o0, o, pd, PageUp(oldsz), mid) && Dealloced(s, s', o, o', pd, PageUp(oldsz), PageUp(newsz))
    requires nfree < |Missing(s0, pd)| + PageUp(newsz) - PageUp(oldsz)
    ensures AllocResult(s0, s', o0, o', pd, oldsz, newsz, nfree, Some(0))
  {
    var lo, hi := PageUp(oldsz), PageUp(newsz);
    if Vacant(s0, pd, lo, hi) {
      AllocUndone(ram, s0, s, s', o0, o, o', pd, lo, mid, hi);
    } else {
      AllocEmptied(s0, s, s', o0, o, o', pd, lo, mid, hi);
    }
  }

  /** Pages added and the same span freed again: all that is left are tables. */
  lemma AllocUndone(ram: Ram, s0: State, s: State, s': State, o0: map<nat, Owner>, o: map<nat, Owner>, o': map<nat,
                    Owner>, pd: nat, lo: nat, mid: nat, hi: nat)
    requires Core(ram, s0, o0) && Core(ram, s', o') && pd in s0.dirs && pd in s'.dirs && lo <= mid <= hi
    requires Vacant(s0, pd, lo, hi)
    requires Alloced(s0, s, o0, o, pd, lo, mid) && Dealloced(s, s', o, o', pd, lo, hi)
    ensures Walked(s0, s', o0, o', pd)
  {
    forall d: nat, t: nat ensures Kept(s0, s', pd, d, t) {
      assert VacantAt(s0, pd, lo, hi, d, t);
      assert AllocOk(s0, s, pd, lo, mid, d, t) && Scanned(s, s', pd, lo, hi, d, t);
      assert EntryOk(s0, pd, d, t) && EntryOk(s', pd, d, t);
    }
    forall f: nat ensures TableOk(o0, o', pd, f) && OutsideOk(s0, s', o0, o', pd, f) {
      assert GainedOk(o0, o, pd, lo, mid, f) && ReleasedOk(o, o', pd, lo, hi, f);
      if f in o0 && o0[f].Used? && o0[f].slot.Leaf? { assert VacantAt(s0, pd, lo, hi, o0[f].slot.d, o0[f].slot.t); }
      assert OutsideOk(s0, s, o0, o, pd, f) && OutsideOk(s, s', o, o', pd, f) && OwnerOk(ram, s0, o0, f);
    }
  }

  /** A page held on the side makes no difference to a scan. */
  lemma HeldAside(ram: Ram, s: State, o: map<nat, Owner>, f: nat, p: Page, s1: State, o1: map<nat, Owner>, pd: nat,
                  lo: nat, hi: nat)
    requires Core(ram, s, o) && pd in s.dirs && ram.lo <= f < ram.hi && f !in o && |p| == ENTRIES
    requires Core(ram, s1, o1) && pd in s1.dirs && Dealloced(Poked(s, f, p), s1, o[f := Held], o1, pd, lo, hi)
    ensures f in o1 && o1[f] == Held && f < |s1.mem|
    ensures Dealloced(s, Poked(s1, f, Junk()), o, o1 - {f}, pd, lo, hi)
  {
    var sp, op := Poked(s, f, p), o[f := Held];
    assert OutsideOk(sp, s1, op, o1, pd, f) && OwnerOk(ram, s1, o1, f);
    var s', o' := Poked(s1, f, Junk()), o1 - {f};
    forall d: nat, t: nat ensures Scanned(s, s', pd, lo, hi, d, t) {
      assert Scanned(sp, s1, pd, lo, hi, d, t);
      PokedSame(ram, s, o, f, p, pd, d, t);
      PokedSame(ram, s1, o1, f, Junk(), pd, d, t);
      SeenAgain(ram, s, o, sp, pd, d, t);
      SeenAgain(ram, s1, o1, s', pd, d, t);
    }
    forall g: nat ensures ReleasedOk(o, o', pd, lo, hi, g) && OutsideOk(s, s', o, o', pd, g) {
      assert ReleasedOk(op, o1, pd, lo, hi, g) && OutsideOk(sp, s1, op, o1, pd, g);
    }
  }

  lemma OutsideAgain(s: State, s1: State, s2: State, o: map<nat, Owner>, o1: map<nat, Owner>, o2: map<nat, Owner>,
                     pd: nat)
    requires Outside(s, s1, o, o1, pd) && Outside(s1, s2, o1, o2, pd)
    ensures Outside(s, s2, o, o2, pd)
  {
    forall f: nat ensures OutsideOk(s, s2, o, o2, pd, f) {
      assert OutsideOk(s, s1, o, o1, pd, f) && OutsideOk(s1, s2, o1, o2, pd, f);
    }
  }

  /** Another address space is seen as before. */
  lemma OutsideSeen(ram: Ram, s: State, s': State, o: map<nat, Owner>, o': map<nat, Owner>, pd: nat, p: nat, d: nat,
                    t: nat)
    requires Core(ram, s, o) && Core(ram, s', o') && Outside(s, s', o, o', pd) && p in s.dirs && p != pd
    ensures Kept(s, s', p, d, t)
  {
    assert SlotOk(s, o, p, Self) && At(s, p, Self) == p && OutsideOk(s, s', o, o', pd, p);
    if TabOf(s, p, d) != 0 {
      TabIsTable(ram, s, o, p, d);
      assert OutsideOk(s, s', o, o', pd, TabOf(s, p, d));
    }
    assert SlotOk(s, o, p, Leaf(d, t)) && EntryOk(s, p, d, t);
    assert OutsideOk(s, s', o, o', pd, Frame(Pte(s, p, d, t)));
  }

  // ---- The kernel's mappings

  /** A struct kmap: virtual start, physical start and end, permissions. */
  datatype Region = Region(virt: nat, start: nat, end: nat, perm: nat)

  /** The difference of the ends, in 32-bit arithmetic. */
  function Size(r: Region): nat
    requires r.start < WORD
  {
    (r.end + WORD - r.start) % WORD
  }

  /** In whole pages, in the kernel's half, and not past the end of the address space. */
  predicate Aligned(r: Region) {
    && r.start < WORD && r.end < WORD && r.perm < 4096 && 0 < Size(r) && r.start % PGSIZE == 0 && r.end % PGSIZE == 0
    && r.virt % PGSIZE == 0 && KERNBASE <= r.virt && r.virt + Size(r) <= WORD && r.start + Size(r) <= WORD
  }

  predicate InRegion(r: Region, vp: nat)
    requires r.start < WORD
  {
    r.virt <= vp * PGSIZE < r.virt + Size(r)
  }

  /** Regions that mappages can map one after the other. */
  ghost predicate Mappable(kmap: seq<Region>) {
    && (forall k :: 0 <= k < |kmap| ==> Aligned(kmap[k]))
    && (forall j, k :: 0 <= j < k < |kmap| ==> kmap[j].virt + Size(kmap[j]) <= kmap[k].virt)
  }

  /** The entry for page vp once the first n regions are mapped. */
  function KEntry(kmap: seq<Region>, n: nat, vp: nat): nat
    requires n <= |kmap| && forall k :: 0 <= k < |kmap| ==> Aligned(kmap[k])
  {
    if n == 0 then 0
    else
      assert Aligned(kmap[n - 1]);
      if InRegion(kmap[n - 1], vp)
        then Entry(kmap[n - 1].start / PGSIZE + (vp - kmap[n - 1].virt / PGSIZE), kmap[n - 1].perm)
      else KEntry(kmap, n - 1, vp)
  }

  /** The kmap of the kernel, for a page-aligned address data between text and data. */
  function Kmap(data: nat): seq<Region>
    requires data >= KERNBASE
  {
    [Region(KERNBASE, 0, 0x10_0000, 2), Region(0x8010_0000, 0x10_0000, data - KERNBASE, 0),
     Region(data, data - KERNBASE, 0xE00_0000, 2), Region(0xFE00_0000, 0xFE00_0000, 0, 2)]
  }

  lemma KmapMappable(data: nat)
    requires data % PGSIZE == 0 && 0x8010_0000 < data < KERNBASE + 0xE00_0000
    ensures Mappable(Kmap(data))
  {
    var m := Kmap(data);
    assert Size(m[0]) == 0x10_0000 && Size(m[1]) == data - 0x8010_0000 && Size(m[2]) == KERNBASE + 0xE00_0000 - data
      && Size(m[3]) == 0x200_0000;
    forall k | 0 <= k < 4 ensures Aligned(m[k]) {}
    forall j, k | 0 <= j < k < 4 ensures m[j].virt + Size(m[j]) <= m[k].virt {}
  }

  lemma {:induction false} NotYet(kmap: seq<Region>, n: nat, k: nat, vp: nat)
    requires Mappable(kmap) && n <= k < |kmap| && InRegion(kmap[k], vp)
    ensures KEntry(kmap, n, vp) == 0
  {
    if n > 0 { NotYet(kmap, n - 1, k, vp); }
  }

  lemma {:induction false} UserHalf(kmap: seq<Region>, n: nat, vp: nat)
    requires Mappable(kmap) && n <= |kmap| && vp < KERNPAGE
    ensures KEntry(kmap, n, vp) == 0
  {
    if n > 0 { UserHalf(kmap, n - 1, vp); }
  }

  ghost predicate KernelOk(s: State, pd: nat, kmap: seq<Region>, n: nat, d: nat, t: nat)
    requires n <= |kmap| && Mappable(kmap)
  {
    Pte(s, pd, d, t) == if d < ENTRIES && t < ENTRIES then KEntry(kmap, n, d * ENTRIES + t) else 0
  }

  /** Exactly the first n regions are mapped. */
  ghost predicate Kernel(s: State, pd: nat, kmap: seq<Region>, n: nat)
    requires n <= |kmap| && Mappable(kmap)
  {
    forall d: nat, t: nat :: KernelOk(s, pd, kmap, n, d, t)
  }

  /** The pages of region k up to page vp are mapped as well. */
  ghost predicate PartOk(s: State, pd: nat, kmap: seq<Region>, k: nat, vp: nat, d: nat, t: nat)
    requires k < |kmap| && Mappable(kmap)
  {
    Pte(s, pd, d, t) == if d < ENTRIES
      && t < ENTRIES then KEntry(kmap, if d * ENTRIES + t < vp then k + 1 else k, d * ENTRIES + t) else 0
  }

  ghost predicate Part(s: State, pd: nat, kmap: seq<Region>, k: nat, vp: nat)
    requires k < |kmap| && Mappable(kmap)
  {
    forall d: nat, t: nat :: PartOk(s, pd, kmap, k, vp, d, t)
  }

  lemma PartStart(s: State, pd: nat, kmap: seq<Region>, k: nat)
    requires k < |kmap| && Mappable(kmap) && Kernel(s, pd, kmap, k)
    ensures Part(s, pd, kmap, k, kmap[k].virt / PGSIZE)
  {
    var vp := kmap[k].virt / PGSIZE;
    forall d: nat, t: nat ensures PartOk(s, pd, kmap, k, vp, d, t) {
      assert KernelOk(s, pd, kmap, k, d, t);
    }
  }

  lemma PartEnd(s: State, pd: nat, kmap: seq<Region>, k: nat, vp: nat)
    requires k < |kmap| && Mappable(kmap) && vp * PGSIZE == kmap[k].virt + Size(kmap[k]) && Part(s, pd, kmap, k, vp)
    ensures Kernel(s, pd, kmap, k + 1)
  {
    var n := k + 1;
    forall d: nat, t: nat ensures KernelOk(s, pd, kmap, n, d, t) {
      assert PartOk(s, pd, kmap, k, vp, d, t);
    }
  }

  lemma PartNext(s: State, s': State, pd: nat, kmap: seq<Region>, k: nat, vp: nat)
    requires k < |kmap| && Mappable(kmap) && InRegion(kmap[k], vp) && vp < ENTRIES * ENTRIES && Part(s, pd, kmap, k, vp)
    requires KeptBut(s, s', pd, vp / ENTRIES, vp % ENTRIES)
    requires Pte(s', pd, vp / ENTRIES, vp % ENTRIES)
      == Entry(kmap[k].start / PGSIZE + (vp - kmap[k].virt / PGSIZE), kmap[k].perm)
    ensures Part(s', pd, kmap, k, vp + 1)
  {
    var next := vp + 1;
    forall d: nat, t: nat ensures PartOk(s', pd, kmap, k, next, d, t) {
      assert PartOk(s, pd, kmap, k, vp, d, t);
      if (d, t) != (vp / ENTRIES, vp % ENTRIES) {
        assert Kept(s, s', pd, d, t);
        assert d < ENTRIES && t < ENTRIES ==> d * ENTRIES + t != vp;
      }
    }
  }

  /** An entry of the kernel's half written: no page changes hands. */
  lemma KernelWord(ram: Ram, s: State, owner: map<nat, Owner>, pd: nat, d: nat, t: nat, w: nat)
    requires Core(ram, s, owner) && pd in s.dirs && KERNPDX <= d && t < ENTRIES && TabOf(s, pd, d) != 0 && Present(w)
    ensures TabOf(s, pd, d) < |s.mem| && |s.mem[TabOf(s, pd, d)]| == ENTRIES
    ensures var s' := WordSet(s, TabOf(s, pd, d), t, w);
      Core(ram, s', owner) && Outside(s, s', owner, owner, pd) && KeptBut(s, s', pd, d, t) && Pte(s', pd, d, t) == w
  {
    TabIsTable(ram, s, owner, pd, d);
    var s' := WordSet(s, TabOf(s, pd, d), t, w);
    PteWrittenCore(ram, s, owner, pd, d, t, w, owner);
    PteWritten(ram, s, owner, pd, d, t, w, pd, d, t);
    forall e: nat, u: nat | (e, u) != (d, t) ensures Kept(s, s', pd, e, u) {
      PteWritten(ram, s, owner, pd, d, t, w, pd, e, u);
      SeenAgain(ram, s, owner, s', pd, e, u);
    }
    forall f: nat ensures OutsideOk(s, s', owner, owner, pd, f) {}
  }

  // ---- A new address space

  ghost predicate SameData(s: State, s': State, owner: map<nat, Owner>, f: nat) {
    f in owner ==> Data(s', f) == Data(s, f)
  }

  /** The same directories, and the same contents of every page in use. */
  ghost predicate AsBefore(s: State, s': State, owner: map<nat, Owner>) {
    s'.dirs == s.dirs && forall f: nat :: SameData(s, s', owner, f)
  }

  lemma NoneOf(ram: Ram, s: State, o: map<nat, Owner>, pd: nat)
    requires Core(ram, s, o) && pd !in o
    ensures pd !in s.dirs && forall f :: f in o ==> !Of(o[f], pd)
  {
    assert SlotOk(s, o, pd, Self) && At(s, pd, Self) == pd;
    forall f: nat | f in o ensures !Of(o[f], pd) { assert OwnerOk(ram, s, o, f); }
  }

  /** Freeing an address space that was not there brings everything back. */
  lemma Restored(ram: Ram, s0: State, o0: map<nat, Owner>, s: State, o: map<nat, Owner>, s': State, pd: nat)
    requires Core(ram, s0, o0) && pd !in o0 && Outside(s0, s, o0, o, pd) && Outside(s, s', o, Without(o, pd), pd)
      && pd !in s'.dirs
    ensures Without(o, pd) == o0 && AsBefore(s0, s', o0)
  {
    NoneOf(ram, s0, o0, pd);
    assert s'.dirs == s'.dirs - {pd} && s0.dirs == s0.dirs - {pd};
    var o' := Without(o, pd);
    forall f: nat ensures (f in o' <==> f in o0) && (f in o0 ==> o'[f] == o0[f]) && SameData(s0, s', o0, f) {
      assert OutsideOk(s0, s, o0, o, pd, f) && OutsideOk(s, s', o, o', pd, f);
    }
  }

  /** A zeroed page made a directory: nothing mapped in it. */
  lemma DirIsNew(ram: Ram, s: State, o: map<nat, Owner>, f: nat, kmap: seq<Region>)
    requires Core(ram, s, o) && ram.lo <= f < ram.hi && f !in o && Mappable(kmap)
    ensures var s', o' := State(s.mem[f := Zeros()], s.dirs + {f}), o[f := Used(f, Self)];
      Core(ram, s', o') && Outside(s, s', o, o', f) && Kernel(s', f, kmap, 0)
  {
    var s1 := Poked(s, f, Zeros());
    PokedCore(ram, s, o, f, Zeros());
    HeldAdded(ram, s1, o, f);
    DirAdded(ram, s1, o[f := Held], f);
    var s', o' := State(s.mem[f := Zeros()], s.dirs + {f}), o[f := Used(f, Self)];
    assert o[f := Held][f := Used(f, Self)] == o' && s1.(dirs := s1.dirs + {f}) == s';
    NoneOf(ram, s, o, f);
    forall g: nat ensures OutsideOk(s, s', o, o', f, g) {}
    forall d: nat, t: nat ensures KernelOk(s', f, kmap, 0, d, t) {}
  }

  // ---- Copying an address space

  /** Page (d, t) of the child is the page of the parent below page n, and absent otherwise. */
  ghost predicate CopyOk(s0: State, s: State, pd: nat, child: nat, kmap: seq<Region>, n: nat, d: nat, t: nat)
    requires Mappable(kmap)
  {
    if InSpan(0, n, d, t) then See(s, child, d, t) == See(s0, pd, d, t)
    else KernelOk(s, child, kmap, |kmap|, d, t)
  }

  ghost predicate Copied(s0: State, s: State, pd: nat, child: nat, kmap: seq<Region>, n: nat)
    requires Mappable(kmap)
  {
    forall d: nat, t: nat :: CopyOk(s0, s, pd, child, kmap, n, d, t)
  }

  ghost predicate FilledAt(s: State, pd: nat, n: nat, d: nat, t: nat) {
    InSpan(0, n, d, t) ==> Present(Pte(s, pd, d, t))
  }

  /** Every page below page n is there. */
  ghost predicate Filled(s: State, pd: nat, n: nat) {
    forall d: nat, t: nat :: FilledAt(s, pd, n, d, t)
  }

  lemma FilledMore(s: State, pd: nat, d: nat, t: nat)
    requires d < KERNPDX && t < ENTRIES && Filled(s, pd, d * ENTRIES + t) && Present(Pte(s, pd, d, t))
    ensures Filled(s, pd, d * ENTRIES + t + 1)
  {
    var vp, next := d * ENTRIES + t, d * ENTRIES + t + 1;
    forall e: nat, u: nat ensures FilledAt(s, pd, next, e, u) {
      assert FilledAt(s, pd, vp, e, u);
      SpanOne(d, t, e, u);
    }
  }

  lemma NotFilled(s: State, pd: nat, n: nat, d: nat, t: nat)
    requires InSpan(0, n, d, t) && !Present(Pte(s, pd, d, t))
    ensures !Filled(s, pd, n)
  {
    assert !FilledAt(s, pd, n, d, t);
  }

  lemma CopyNone(s0: State, s: State, pd: nat, child: nat, kmap: seq<Region>)
    requires Mappable(kmap) && Kernel(s, child, kmap, |kmap|)
    ensures Copied(s0, s, pd, child, kmap, 0)
  {
    forall d: nat, t: nat ensures CopyOk(s0, s, pd, child, kmap, 0, d, t) {
      assert KernelOk(s, child, kmap, |kmap|, d, t);
    }
  }

  /** The next page of the child is still free. */
  lemma CopyNext(s0: State, s: State, pd: nat, child: nat, kmap: seq<Region>, d: nat, t: nat)
    requires Mappable(kmap) && d < KERNPDX && t < ENTRIES && Copied(s0, s, pd, child, kmap, d * ENTRIES + t)
    ensures Pte(s, child, d, t) == 0
  {
    assert CopyOk(s0, s, pd, child, kmap, d * ENTRIES + t, d, t);
    UserHalf(kmap, |kmap|, d * ENTRIES + t);
  }

  lemma CopyMore(s0: State, s: State, s': State, o: map<nat, Owner>, o': map<nat, Owner>, pd: nat, child: nat,
                 kmap: seq<Region>, d: nat, t: nat)
    requires Mappable(kmap) && d < KERNPDX && t < ENTRIES && Copied(s0, s, pd, child, kmap, d * ENTRIES + t)
    requires See(s0, pd, d, t).Mapped?
      && NewPage(s, s', o, o', child, d, t, See(s0, pd, d, t).flags, See(s0, pd, d, t).page)
    ensures Copied(s0, s', pd, child, kmap, d * ENTRIES + t + 1)
  {
    var vp, next := d * ENTRIES + t, d * ENTRIES + t + 1;
    forall e: nat, u: nat ensures CopyOk(s0, s', pd, child, kmap, next, e, u) {
      assert CopyOk(s0, s, pd, child, kmap, vp, e, u);
      SpanOne(d, t, e, u);
      if (e, u) != (d, t) { assert Kept(s, s', child, e, u); }
    }
  }

  /** Two address spaces never share a page of user memory. */
  lemma FramesDisjoint(ram: Ram, s: State, owner: map<nat, Owner>, p: nat, q: nat, d: nat, t: nat, e: nat, u: nat)
    requires Core(ram, s, owner) && p in s.dirs && q in s.dirs && p != q
    requires See(s, p, d, t).Mapped? && See(s, q, e, u).Mapped?
    ensures Frame(Pte(s, p, d, t)) != Frame(Pte(s, q, e, u))
  {
    assert SlotOk(s, owner, p, Leaf(d, t)) && SlotOk(s, owner, q, Leaf(e, u));
    assert EntryOk(s, p, d, t) && EntryOk(s, q, e, u);
  }

  // ---- Addresses

  function PageUp(x: nat): nat {
    (x + PGSIZE - 1) / PGSIZE
  }

  function RoundUp(x: nat): nat {
    (x + PGSIZE - 1) % WORD / PGSIZE * PGSIZE
  }

  function PdxOf(a: nat): nat {
    a / 0x40_0000
  }

  function PtxOf(a: nat): nat {
    a / PGSIZE % ENTRIES
  }

  lemma Split(a: nat)
    requires a < KERNBASE && a % PGSIZE == 0
    ensures PdxOf(a) < KERNPDX && PtxOf(a) < ENTRIES && a / PGSIZE == PdxOf(a) * ENTRIES + PtxOf(a)
  {}

  lemma RoundedUp(x: nat)
    requires x <= KERNBASE
    ensures RoundUp(x) == PageUp(x) * PGSIZE <= KERNBASE
  {}

  lemma Stepped(a: nat)
    requires a < KERNBASE && a % PGSIZE == 0
    ensures (a + PGSIZE) % WORD == a + PGSIZE <= KERNBASE && (a + PGSIZE) / PGSIZE == a / PGSIZE + 1
      && (a + PGSIZE) % PGSIZE == 0
  {}

  lemma NextTable(d: nat)
    requires d < KERNPDX
    ensures var n := (d + 1) * 0x40_0000;
      && n <= KERNBASE && n == (d + 1) * ENTRIES * PGSIZE && n % PGSIZE == 0 && n / PGSIZE == (d + 1) * ENTRIES
      && n % WORD == n && (n + WORD - PGSIZE) % WORD == n - PGSIZE
  {
    var n := (d + 1) * 0x40_0000;
    assert PGSIZE <= n <= KERNBASE;
    assert n + WORD - PGSIZE == (n - PGSIZE) + WORD;
  }

  /** The jump over a missing table, in 32-bit arithmetic: the loop goes on at the first page of
      the next table. */
  function Jump(a: nat): (next: nat)
    requires a < KERNBASE && a % PGSIZE == 0
    ensures next == (PdxOf(a) + 1) * 0x40_0000 && a < next <= KERNBASE && next % PGSIZE == 0
    ensures next / PGSIZE == (PdxOf(a) + 1) * ENTRIES
  {
    NextTable(PdxOf(a));
    (((PdxOf(a) + 1) * 0x40_0000 % WORD + WORD - PGSIZE) % WORD + PGSIZE) % WORD
  }

  // ---- The code

  /** What mappages comes to; Remap is the panic of that name. */
  datatype Mapping = Done | NoPages | Remap

  lemma NoTableNoPage(s: State, pd: nat, d: nat, t: nat)
    requires Present(Pte(s, pd, d, t))
    ensures TabOf(s, pd, d) != 0
  {}

  class Vm {
    const ram: Ram
    var mem: seq<Page>
    var free: seq<nat>
    ghost var dirs: set<nat>
    ghost var owner: map<nat, Owner>

    ghost function Now(): State
      reads this
    {
      State(mem, dirs)
    }

    ghost predicate Ok()
      reads this
    {
      Inv(ram, Now(), free, owner)
    }

    /** kinit: freerange gives every page of the range to the allocator. */
    constructor (ram: Ram)
      requires 0 < ram.lo <= ram.hi
      ensures Ok() && this.ram == ram && dirs == {} && owner == map[] && |free| == ram.hi - ram.lo
    {
      this.ram := ram;
      mem := seq(ram.hi, f => Zeros());
      free := [];
      dirs := {};
      owner := map[];
      new;
      for f := ram.lo to ram.hi
        invariant |mem| == ram.hi && (forall g :: 0 <= g < |mem| ==> |mem[g]| == ENTRIES) && dirs == {}
          && owner == map[]
        invariant forall g: nat :: g in free <==> ram.lo <= g < f
        invariant |free| == f - ram.lo && forall i, j :: 0 <= i < j < |free| ==> free[i] != free[j]
      {
        Kfree(f);
      }
    }

    /** kalloc: the first free page, or 0. */
    method Kalloc() returns (f: nat)
      requires Ok()
      modifies `free, `owner
      ensures Ok()
      ensures f == 0 <==> old(free) == []
      ensures f == 0 ==> free == old(free) && owner == old(owner)
      ensures f != 0 ==>
        && ram.lo <= f < |mem| && f !in old(owner) && owner == old(owner)[f := Held]
        && |free| == |old(free)| - 1
    {
      if free == [] {
        return 0;
      }
      Taken(ram, free, owner);
      f := free[0];
      HeldAdded(ram, Now(), owner, f);
      free := free[1..];
      owner := owner[f := Held];
    }

    /** kfree, with its checks as a precondition; a page must not be freed twice. */
    method Kfree(f: nat)
      requires ram.lo <= f < ram.hi == |mem| && f !in free
      modifies `mem, `free
      ensures mem == old(mem)[f := Junk()] && free == [f] + old(free)
    {
      mem := mem[f := Junk()];
      free := [f] + free;
    }

    /** kfree of a page that no directory has. */
    method FreeHeld(f: nat)
      requires Ok() && f in owner && owner[f] == Held
      modifies `mem, `free, `owner
      ensures Ok() && owner == old(owner) - {f} && f < |old(mem)| && mem == old(mem)[f := Junk()]
    {
      assert OwnerOk(ram, Now(), owner, f) && FreeOk(ram, free, owner, f);
      PokedCore(ram, Now(), owner, f, Junk());
      HeldDropped(ram, Poked(Now(), f, Junk()), owner, f);
      Returned(ram, free, owner, f);
      Kfree(f);
      owner := owner - {f};
    }

    /** memset or memmove into a page that no directory has yet. */
    method Fill(f: nat, p: Page)
      requires Ok() && f in owner && owner[f] == Held && |p| == ENTRIES
      modifies `mem
      ensures Ok() && f < |old(mem)| && mem == old(mem)[f := p]
    {
      assert OwnerOk(ram, Now(), owner, f);
      PokedCore(ram, Now(), owner, f, p);
      mem := mem[f := p];
    }

    /** walkpgdir: the table for directory entry d, made if alloc says so; 0 on failure. */
    method Walkpgdir(pd: nat, d: nat, alloc: bool) returns (tab: nat)
      requires Ok() && pd in dirs && d < ENTRIES
      modifies `mem, `free, `owner
      ensures Ok() && tab == TabOf(Now(), pd, d)
      ensures tab == 0 <==> TabOf(old(Now()), pd, d) == 0 && (!alloc || old(free) == [])
      ensures tab == 0 || TabOf(old(Now()), pd, d) != 0 ==> mem == old(mem) && free == old(free) && owner == old(owner)
      ensures Walked(old(Now()), Now(), old(owner), owner, pd)
        && Slack(Now(), free, pd) == Slack(old(Now()), old(free), pd)
    {
      var pde := mem[pd][d];
      assert pde == Pde(Now(), pd, d) && EntryOk(Now(), pd, d, 0);
      if Present(pde) {
        tab := Frame(pde);
      } else if alloc {
        ghost var s, o := Now(), owner;
        tab := Kalloc();
        if tab != 0 {
          TableAdded(ram, s, o, pd, d, tab);
          mem := mem[tab := Zeros()];
          mem := mem[pd := Put(mem[pd], d, Entry(tab, 7))];
          owner := owner[tab := Used(pd, Tab(d))];
          assert Now() == WordSet(Poked(s, tab, Zeros()), pd, d, Entry(tab, 7)) && owner == o[tab := Used(pd, Tab(d))];
          ListedSame(ram, free, o[tab := Held], owner);
        }
      } else {
        tab := 0;
      }
    }

    /** mappages of one user page that the caller holds. */
    method MapPage(pd: nat, d: nat, t: nat, f: nat, perm: nat) returns (r: Mapping)
      requires Ok() && pd in dirs && d < KERNPDX && t < ENTRIES && perm < 4096 && f in owner && owner[f] == Held
      modifies `mem, `free, `owner
      ensures Ok()
      ensures r == Remap <==> Present(Pte(old(Now()), pd, d, t))
      ensures r != Done ==> mem == old(mem) && free == old(free) && owner == old(owner)
      ensures r == NoPages ==> free == [] && Missing(Now(), pd) != {}
      ensures r == Done ==>
        PageAdded(old(Now()), Now(), old(owner), owner, pd, d, t, f, perm)
        && Slack(Now(), free, pd) == Slack(old(Now()), old(free), pd)
    {
      ghost var s, o := Now(), owner;
      var tab := Walkpgdir(pd, d, true);
      if tab == 0 {
        MissingSome(s, pd, d);
        return NoPages;
      }
      ghost var s1, o1 := Now(), owner;
      TabIsTable(ram, s1, o1, pd, d);
      assert Kept(s, s1, pd, d, t) && TableOk(o, o1, pd, f);
      assert mem[tab][t] == Pte(s1, pd, d, t);
      if Present(mem[tab][t]) {
        NoTableNoPage(s, pd, d, t);
        return Remap;
      }
      LeafAdded(ram, s1, o1, pd, d, t, f, perm);
      TablesStay(ram, s1, o1, pd, d, t, Entry(f, perm));
      mem := mem[tab := Put(mem[tab], t, Entry(f, perm))];
      owner := owner[f := Used(pd, Leaf(d, t))];
      ListedSame(ram, free, o1, owner);
      WalkedThenAdded(s, s1, Now(), o, o1, owner, pd, d, t, f, perm);
      r := Done;
    }

    /** The page of a present entry freed and the entry cleared. */
    method FreeLeaf(pd: nat, d: nat, t: nat)
      requires Ok() && pd in dirs && d < KERNPDX && t < ENTRIES && Present(Pte(Now(), pd, d, t))
      modifies `mem, `free, `owner
      ensures Ok() && Dealloced(old(Now()), Now(), old(owner), owner, pd, d * ENTRIES + t, d * ENTRIES + t + 1)
    {
      LeafGone(ram, Now(), owner, pd, d, t);
      var tab := Frame(mem[pd][d]);
      assert tab == TabOf(Now(), pd, d);
      var f := Frame(mem[tab][t]);
      assert FreeOk(ram, free, owner, f);
      Returned(ram, free, owner, f);
      Kfree(f);
      mem := mem[tab := Put(mem[tab], t, 0)];
      owner := owner - {f};
    }

    /** The turn of the loop of deallocuvm at address a, and the address after it. */
    method ScanPage(pd: nat, a: nat, ghost lo: nat, ghost hi: nat, ghost s0: State, ghost o0: map<nat, Owner>)
      returns (next: nat)
      requires Ok() && pd in dirs && a < KERNBASE && a % PGSIZE == 0 && lo <= a / PGSIZE < hi
      requires Dealloced(s0, Now(), o0, owner, pd, lo, a / PGSIZE)
      modifies `mem, `free, `owner
      ensures Ok() && a < next <= KERNBASE && next % PGSIZE == 0
      ensures Dealloced(s0, Now(), o0, owner, pd, lo, Min(next / PGSIZE, hi))
    {
      ghost var s, o := Now(), owner;
      ghost var vp := a / PGSIZE;
      var d, t := PdxOf(a), PtxOf(a);
      Split(a);
      var tab := Walkpgdir(pd, d, false);
      if tab == 0 {
        next := Jump(a);
        ScanTable(ram, s, o, pd, d, vp, Min(next / PGSIZE, hi));
      } else {
        next := (a + PGSIZE) % WORD;
        Stepped(a);
        ScanEntry(pd, d, t, tab);
      }
      ScanMore(s0, s, Now(), o0, o, owner, pd, lo, vp, Min(next / PGSIZE, hi));
    }

    /** The entry freed if it is present. */
    method ScanEntry(pd: nat, d: nat, t: nat, tab: nat)
      requires Ok() && pd in dirs && d < KERNPDX && t < ENTRIES && tab == TabOf(Now(), pd, d) != 0
      modifies `mem, `free, `owner
      ensures Ok() && Dealloced(old(Now()), Now(), old(owner), owner, pd, d * ENTRIES + t, d * ENTRIES + t + 1)
    {
      TabIsTable(ram, Now(), owner, pd, d);
      if Present(mem[tab][t]) {
        FreeLeaf(pd, d, t);
      } else {
        ghost var s := Now();
        forall e: nat, u: nat | InSpan(d * ENTRIES + t, d * ENTRIES + t + 1, e, u) ensures !Present(Pte(s, pd, e, u)) {
          SpanOne(d, t, e, u);
        }
        ScanAbsent(ram, s, owner, pd, d * ENTRIES + t, d * ENTRIES + t + 1);
      }
    }

    /** deallocuvm: frees what a page-by-page scan of the range would. */
    method Deallocuvm(pd: nat, oldsz: nat, newsz: nat) returns (r: nat)
      requires Ok() && pd in dirs && oldsz <= KERNBASE
      modifies `mem, `free, `owner
      ensures Ok() && r == Min(newsz, oldsz)
      ensures Dealloced(old(Now()), Now(), old(owner), owner, pd, PageUp(newsz), PageUp(oldsz))
    {
      ghost var s0, o0 := Now(), owner;
      ghost var lo, hi := PageUp(newsz), PageUp(oldsz);
      if newsz >= oldsz {
        ScanNone(s0, o0, pd, lo, hi);
        return oldsz;
      }
      RoundedUp(newsz);
      ScanNone(s0, o0, pd, lo, lo);
      var a := RoundUp(newsz);
      while a < oldsz
        invariant Ok() && a % PGSIZE == 0 && lo * PGSIZE <= a <= KERNBASE
        invariant Dealloced(s0, Now(), o0, owner, pd, lo, Min(a / PGSIZE, hi))
        decreases KERNBASE - a
      {
        a := ScanPage(pd, a, lo, hi, s0, o0);
      }
      r := newsz;
    }

    /** The loop of freevm over the directory, and the directory itself. */
    method FreeTables(pd: nat)
      requires Ok() && pd in dirs && forall f :: f in owner && Of(owner[f], pd) ==> !owner[f].slot.Leaf?
      modifies `mem, `free, `dirs, `owner
      ensures Ok() && dirs == old(dirs) - {pd} && owner == Without(old(owner), pd) && |mem| == |old(mem)|
      ensures forall f :: 0 <= f < |mem| && !(f in old(owner) && Of(old(owner)[f], pd)) ==> mem[f] == old(mem)[f]
    {
      ghost var s, o := Now(), owner;
      MinusNone(o, pd);
      for d := 0 to ENTRIES
        invariant dirs == s.dirs && |mem| == |s.mem| && mem[pd] == s.mem[pd] && Listed(ram, free, Minus(o, pd, d))
        invariant forall f :: 0 <= f < |mem| ==> |mem[f]| == ENTRIES
        invariant forall f :: 0 <= f < |mem| && !(f in o && Of(o[f], pd)) ==> mem[f] == s.mem[f]
      {
        MinusNext(ram, s, o, pd, d);
        var pde := mem[pd][d];
        assert pde == Pde(s, pd, d) && EntryOk(s, pd, d, 0);
        if Present(pde) {
          var tab := Frame(pde);
          TabIsTable(ram, s, o, pd, d);
          assert FreeOk(ram, free, Minus(o, pd, d), tab);
          Returned(ram, free, Minus(o, pd, d), tab);
          Kfree(tab);
        }
      }
      MinusAll(ram, s, o, pd);
      assert FreeOk(ram, free, Minus(o, pd, ENTRIES), pd);
      Returned(ram, free, Minus(o, pd, ENTRIES), pd);
      Kfree(pd);
      DirDropped(ram, s, o, pd, mem);
      dirs := dirs - {pd};
      owner := Without(o, pd);
    }

    /** freevm: every page of the address space is freed, none of them twice, and no other. */
    method Freevm(pd: nat)
      requires Ok() && pd in dirs
      modifies `mem, `free, `dirs, `owner
      ensures Ok() && dirs == old(dirs) - {pd} && owner == Without(old(owner), pd)
      ensures Outside(old(Now()), Now(), old(owner), owner, pd)
    {
      ghost var s, o := Now(), owner;
      var r := Deallocuvm(pd, KERNBASE, 0);
      ghost var s1, o1 := Now(), owner;
      forall f: nat
        ensures f in o1 && Of(o1[f], pd) ==> !o1[f].slot.Leaf?
        ensures (f in o && !Of(o[f], pd)) <==> (f in o1 && !Of(o1[f], pd))
        ensures f in o1 ==> f in o && o1[f] == o[f]
      {
        NoLeafLeft(ram, s, s1, o, o1, pd, f);
      }
      FreeTables(pd);
      assert owner == Without(o, pd);
      forall f: nat ensures OutsideOk(s, Now(), o, owner, pd, f) {
        assert OutsideOk(s, s1, o, o1, pd, f) && OwnerOk(ram, s, o, f);
      }
    }

    /** A new page with contents p mapped at (d, t). If there is no page for a table, the new page
        is still held by the caller. */
    method AllocPage(pd: nat, d: nat, t: nat, p: Page, perm: nat) returns (r: Mapping, f: nat)
      requires Ok() && pd in dirs && d < KERNPDX && t < ENTRIES && perm < 4096 && |p| == ENTRIES
      modifies `mem, `free, `owner
      ensures Ok()
      ensures r == Done ==>
        && NewPage(old(Now()), Now(), old(owner), owner, pd, d, t, if perm % 2 == 1 then perm else perm + 1, p)
        && Slack(Now(), free, pd) == Slack(old(Now()), old(free), pd) - 1
      ensures r != Done && f == 0 ==> mem == old(mem) && owner == old(owner) && free == old(free)
      ensures r != Done && f != 0 ==>
        ram.lo <= f < |old(mem)| && f !in old(owner) && owner == old(owner)[f := Held] && mem == old(mem)[f := p]
      ensures r == NoPages ==> free == [] && Slack(old(Now()), old(free), pd) <= 0
      ensures r == Remap ==> Present(Pte(old(Now()), pd, d, t))
      ensures r == Done ==> !Present(Pte(old(Now()), pd, d, t))
    {
      ghost var s, o := Now(), owner;
      f := Kalloc();
      if f == 0 {
        return NoPages, 0;
      }
      Fill(f, p);
      PokedSame(ram, s, o, f, p, pd, d, t);
      PokedTables(ram, s, o, f, p, pd);
      r := MapPage(pd, d, t, f, perm);
      if r == Done {
        PageIsNew(ram, s, Now(), o, owner, pd, d, t, f, perm, p);
      }
    }

    /** The failure path of allocuvm: f is a page that could not be mapped, or 0. */
    method Undo(pd: nat, oldsz: nat, newsz: nat, f: nat, ghost p: Page, ghost s: State, ghost o: map<nat, Owner>)
      requires Ok() && pd in dirs && oldsz <= newsz <= KERNBASE
      requires Core(ram, s, o) && pd in s.dirs && |p| == ENTRIES
      requires f == 0 ==> Now() == s && owner == o
      requires f != 0 ==> ram.lo <= f < ram.hi && f !in o && Now() == Poked(s, f, p) && owner == o[f := Held]
      modifies `mem, `free, `owner
      ensures Ok() && Dealloced(s, Now(), o, owner, pd, PageUp(oldsz), PageUp(newsz))
    {
      var r := Deallocuvm(pd, newsz, oldsz);
      if f != 0 {
        HeldAside(ram, s, o, f, p, Now(), owner, pd, PageUp(oldsz), PageUp(newsz));
        FreeHeld(f);
      }
    }

    /** allocuvm; None is the panic of mappages. When the range is empty, as it is in growproc, there
        is no panic, and on failure every old page is as it was and only tables are kept. */
    method Allocuvm(pd: nat, oldsz: nat, newsz: nat) returns (r: Option<nat>)
      requires Ok() && pd in dirs && oldsz <= KERNBASE
      modifies `mem, `free, `owner
      ensures Ok()
      ensures newsz >= KERNBASE ==> r == Some(0) && Now() == old(Now()) && owner == old(owner)
      ensures newsz < oldsz && newsz < KERNBASE ==> r == Some(oldsz) && Now() == old(Now()) && owner == old(owner)
      ensures oldsz <= newsz < KERNBASE ==>
        AllocResult(old(Now()), Now(), old(owner), owner, pd, oldsz, newsz, |old(free)|, r)
    {
      if newsz >= KERNBASE {
        return Some(0);
      }
      if newsz < oldsz {
        return Some(oldsz);
      }
      ghost var s0, o0, n0 := Now(), owner, |free|;
      RoundedUp(oldsz);
      AllocNone(s0, o0, pd, PageUp(oldsz), PageUp(oldsz));
      var a := RoundUp(oldsz);
      while a < newsz
        invariant a % PGSIZE == 0 && PageUp(oldsz) <= a / PGSIZE <= PageUp(newsz) && a / PGSIZE * PGSIZE == a
        invariant Growing(pd, PageUp(oldsz), a / PGSIZE, s0, o0, n0)
        decreases newsz - a
      {
        Split(a);
        Stepped(a);
        var more;
        r, more := GrowPage(pd, oldsz, newsz, PdxOf(a), PtxOf(a), s0, o0, n0);
        if !more {
          return;
        }
        a := a + PGSIZE;
      }
      r := Some(newsz);
    }

    /** allocuvm has added the pages from lo up to vp. */
    ghost predicate Growing(pd: nat, lo: nat, vp: nat, s0: State, o0: map<nat, Owner>, n0: nat)
      reads this
    {
      && Ok() && pd in dirs && pd in s0.dirs && Core(ram, s0, o0) && lo <= vp
      && Alloced(s0, Now(), o0, owner, pd, lo, vp) && Vacant(s0, pd, lo, vp)
      && Slack(Now(), free, pd) == n0 - |Missing(s0, pd)| - (vp - lo)
    }

    /** One turn of the loop of allocuvm: one more page, or the end of the call. */
    method GrowPage(pd: nat, oldsz: nat, newsz: nat, d: nat, t: nat, ghost s0: State, ghost o0: map<nat, Owner>,
                    ghost n0: nat)
      returns (r: Option<nat>, more: bool)
      requires oldsz <= newsz < KERNBASE && InSpan(PageUp(oldsz), PageUp(newsz), d, t)
      requires Growing(pd, PageUp(oldsz), d * ENTRIES + t, s0, o0, n0)
      modifies `mem, `free, `owner
      ensures more ==> Growing(pd, PageUp(oldsz), d * ENTRIES + t + 1, s0, o0, n0)
      ensures !more ==> Ok() && AllocResult(s0, Now(), o0, owner, pd, oldsz, newsz, n0, r)
    {
      ghost var lo, hi, vp, s, o := PageUp(oldsz), PageUp(newsz), d * ENTRIES + t, Now(), owner;
      assert AllocOk(s0, s, pd, lo, vp, d, t);
      var m, f := AllocPage(pd, d, t, Zeros(), 6);
      if m == Remap {
        Occupied(s0, s, pd, lo, hi, d, t);
        return None, false;
      }
      if m == NoPages {
        Undo(pd, oldsz, newsz, f, Zeros(), s, o);
        AllocFailed(ram, s0, s, Now(), o0, o, owner, pd, oldsz, newsz, vp, n0);
        return Some(0), false;
      }
      AllocMore(s0, s, Now(), o0, o, owner, pd, lo, d, t);
      VacantMore(s0, s, pd, lo, d, t);
      return Some(0), true;
    }

    /** mappages of one page of the kernel's half. */
    method MapKernelPage(pd: nat, d: nat, t: nat, frame: nat, perm: nat) returns (ok: bool)
      requires Ok() && pd in dirs && KERNPDX <= d < ENTRIES && t < ENTRIES && perm < 4096
        && !Present(Pte(Now(), pd, d, t))
      modifies `mem, `free, `owner
      ensures Ok() && Outside(old(Now()), Now(), old(owner), owner, pd)
        && Slack(Now(), free, pd) == Slack(old(Now()), old(free), pd)
      ensures !ok ==> Slack(Now(), free, pd) < 0
      ensures ok ==> KeptBut(old(Now()), Now(), pd, d, t) && Pte(Now(), pd, d, t) == Entry(frame, perm)
    {
      ghost var s, o := Now(), owner;
      var tab := Walkpgdir(pd, d, true);
      if tab == 0 {
        MissingSome(s, pd, d);
        return false;
      }
      ghost var s1 := Now();
      TablesStay(ram, s1, owner, pd, d, t, Entry(frame, perm));
      EntryParts(frame, perm);
      KernelWord(ram, s1, owner, pd, d, t, Entry(frame, perm));
      mem := mem[tab := Put(mem[tab], t, Entry(frame, perm))];
      OutsideAgain(s, s1, Now(), o, owner, owner, pd);
      forall e: nat, u: nat | (e, u) != (d, t) ensures Kept(s, Now(), pd, e, u) {
        assert Kept(s, s1, pd, e, u) && Kept(s1, Now(), pd, e, u);
      }
      ok := true;
    }

    /** The turn of the loop of mappages at page vp of region k. */
    method MapNext(pd: nat, kmap: seq<Region>, k: nat, vp: nat, frame: nat, ghost s0: State, ghost o0: map<nat, Owner>)
      returns (ok: bool)
      requires Ok() && pd in dirs && k < |kmap| && Mappable(kmap) && InRegion(kmap[k], vp)
        && KERNPAGE <= vp < ENTRIES * ENTRIES
      requires frame == kmap[k].start / PGSIZE + (vp - kmap[k].virt / PGSIZE)
      requires Outside(s0, Now(), o0, owner, pd) && Part(Now(), pd, kmap, k, vp)
      modifies `mem, `free, `owner
      ensures Ok() && Outside(s0, Now(), o0, owner, pd) && Slack(Now(), free, pd) == Slack(old(Now()), old(free), pd)
      ensures !ok ==> Slack(Now(), free, pd) < 0
      ensures ok ==> Part(Now(), pd, kmap, k, vp + 1)
    {
      ghost var s, o := Now(), owner;
      assert PartOk(s, pd, kmap, k, vp, vp / ENTRIES, vp % ENTRIES);
      NotYet(kmap, k, k, vp);
      ok := MapKernelPage(pd, vp / ENTRIES, vp % ENTRIES, frame, kmap[k].perm);
      OutsideAgain(s0, s, Now(), o0, o, owner, pd);
      if ok {
        PartNext(s, Now(), pd, kmap, k, vp);
      }
    }

    /** mappages of region k, in 32-bit arithmetic. */
    method MapRegion(pd: nat, kmap: seq<Region>, k: nat) returns (ok: bool)
      requires Ok() && pd in dirs && k < |kmap| && Mappable(kmap) && Kernel(Now(), pd, kmap, k)
      modifies `mem, `free, `owner
      ensures Ok() && Outside(old(Now()), Now(), old(owner), owner, pd)
        && Slack(Now(), free, pd) == Slack(old(Now()), old(free), pd)
      ensures !ok ==> Slack(Now(), free, pd) < 0
      ensures ok ==> Kernel(Now(), pd, kmap, k + 1)
    {
      ghost var s0, o0 := Now(), owner;
      var r := kmap[k];
      var a: nat := r.virt / PGSIZE * PGSIZE;
      var last: nat := (r.virt + Size(r) - 1) % WORD / PGSIZE * PGSIZE;
      var pa: nat := r.start;
      LastPage(r);
      PartStart(s0, pd, kmap, k);
      OutsideSelf(s0, o0, pd);
      while true
        invariant Ok() && Outside(s0, Now(), o0, owner, pd) && Slack(Now(), free, pd) == Slack(s0, old(free), pd)
        invariant InPages(r, a, pa, last) && Part(Now(), pd, kmap, k, a / PGSIZE)
        decreases last - a
      {
        PageOf(r, a, pa, last);
        ok := MapNext(pd, kmap, k, a / PGSIZE, pa / PGSIZE, s0, o0);
        if !ok {
          return;
        }
        if a == last {
          break;
        }
        a := (a + PGSIZE) % WORD;
        pa := (pa + PGSIZE) % WORD;
      }
      PartEnd(Now(), pd, kmap, k, a / PGSIZE + 1);
      ok := true;
    }

    /** setupkvm: a directory with exactly the kernel's mappings, or 0 and nothing has changed. */
    method Setupkvm(kmap: seq<Region>) returns (pd: nat)
      requires Ok() && Mappable(kmap)
      modifies `mem, `free, `dirs, `owner
      ensures Ok()
      ensures pd == 0 ==>
        && owner == old(owner) && AsBefore(old(Now()), Now(), owner) && SamePages(old(free), free)
        && |old(free)| <= ENTRIES
      ensures pd != 0 ==> Slack(Now(), free, pd) == |old(free)| - 1 - ENTRIES
      ensures pd != 0 ==>
        && pd !in old(owner) && dirs == old(dirs) + {pd} && Kernel(Now(), pd, kmap, |kmap|)
        && Outside(old(Now()), Now(), old(owner), owner, pd)
    {
      ghost var s0, o0 := Now(), owner;
      pd := Kalloc();
      if pd == 0 {
        forall f: nat ensures SameData(s0, Now(), owner, f) {}
        return;
      }
      DirIsNew(ram, s0, o0, pd, kmap);
      mem := mem[pd := Zeros()];
      dirs := dirs + {pd};
      owner := o0[pd := Used(pd, Self)];
      ListedSame(ram, free, o0[pd := Held], owner);
      MissingAll(Now(), pd, ENTRIES);
      for k := 0 to |kmap|
        invariant Slack(Now(), free, pd) == |old(free)| - 1 - ENTRIES
        invariant Ok() && dirs == s0.dirs + {pd} && Outside(s0, Now(), o0, owner, pd) && Kernel(Now(), pd, kmap, k)
      {
        ghost var s, o := Now(), owner;
        var ok := MapRegion(pd, kmap, k);
        OutsideAgain(s0, s, Now(), o0, o, owner, pd);
        if !ok {
          Discard(pd, s0, o0);
          SameFree(ram, old(free), free, owner);
          return 0;
        }
      }
    }

    /** freevm of an address space made since s0: all is as it was then. */
    method Discard(pd: nat, ghost s0: State, ghost o0: map<nat, Owner>)
      requires Ok() && pd in dirs && Core(ram, s0, o0) && pd !in o0 && Outside(s0, Now(), o0, owner, pd)
      modifies `mem, `free, `dirs, `owner
      ensures Ok() && owner == o0 && AsBefore(s0, Now(), o0)
    {
      ghost var s, o := Now(), owner;
      Freevm(pd);
      Restored(ram, s0, o0, s, o, Now(), pd);
    }

    /** The turn of the loop of copyuvm for page (d, t); on failure the page that could not be
        mapped is freed again. */
    method CopyPage(pd: nat, child: nat, d: nat, t: nat, kmap: seq<Region>, ghost s0: State, ghost o0: map<nat, Owner>)
      returns (ok: bool)
      requires Ok() && child in dirs && pd != child && Mappable(kmap) && d < KERNPDX && t < ENTRIES
      requires Core(ram, s0, o0) && pd in s0.dirs && See(s0, pd, d, t).Mapped? && Outside(s0, Now(), o0, owner, child)
      requires Copied(s0, Now(), pd, child, kmap, d * ENTRIES + t)
      modifies `mem, `free, `owner
      ensures Ok() && Outside(s0, Now(), o0, owner, child)
      ensures ok ==>
        && Copied(s0, Now(), pd, child, kmap, d * ENTRIES + t + 1)
        && Slack(Now(), free, child) == Slack(old(Now()), old(free), child) - 1
      ensures !ok ==> Slack(old(Now()), old(free), child) <= 0
    {
      ghost var s, o := Now(), owner;
      OutsideSeen(ram, s0, s, o0, o, child, pd, d, t);
      CopyNext(s0, s, pd, child, kmap, d, t);
      assert pd in s0.dirs - {child};
      var tab := Walkpgdir(pd, d, false);
      TabIsTable(ram, s, o, pd, d);
      var w := mem[tab][t];
      assert w == Pte(s, pd, d, t) && EntryOk(s, pd, d, t) && SlotOk(s, o, pd, Leaf(d, t))
        && OwnerOk(ram, s, o, Frame(w));
      var m, f := AllocPage(child, d, t, mem[Frame(w)], Flags(w));
      ok := m == Done;
      if ok {
        OutsideAgain(s0, s, Now(), o0, o, owner, child);
        CopyMore(s0, s, Now(), o, owner, pd, child, kmap, d, t);
      } else if f != 0 {
        FreeHeld(f);
        assert owner == o;
        OutsideFreed(s0, s, Now(), o0, o, child, f);
      }
    }

    /** Whether a page is there, by walkpgdir without alloc. */
    method IsThere(pd: nat, d: nat, t: nat) returns (there: bool)
      requires Ok() && pd in dirs && d < KERNPDX && t < ENTRIES
      modifies `mem, `free, `owner
      ensures there <==> Present(Pte(Now(), pd, d, t))
      ensures mem == old(mem) && free == old(free) && owner == old(owner)
    {
      var tab := Walkpgdir(pd, d, false);
      if tab == 0 {
        return false;
      }
      TabIsTable(ram, Now(), owner, pd, d);
      assert mem[tab][t] == Pte(Now(), pd, d, t);
      there := Present(mem[tab][t]);
    }

    /** copyuvm: a child that sees what the parent sees below sz, or 0 and nothing has changed. None
        is the panic when a page below sz is missing; a missing page always prevents the copy. */
    method Copyuvm(pd: nat, sz: nat, kmap: seq<Region>) returns (child: Option<nat>)
      requires Ok() && pd in dirs && Mappable(kmap) && sz <= KERNBASE
      modifies `mem, `free, `dirs, `owner
      ensures child == None ==> !Filled(old(Now()), pd, PageUp(sz))
      ensures child.Some? ==> Ok()
      ensures child == Some(0) ==>
        owner == old(owner) && AsBefore(old(Now()), Now(), owner) && SamePages(old(free), free)
        && |old(free)| <= ENTRIES + PageUp(sz)
      ensures child.Some? && child.value != 0 ==>
        && Filled(old(Now()), pd, PageUp(sz)) && child.value !in old(owner) && dirs == old(dirs) + {child.value}
        && Copied(old(Now()), Now(), pd, child.value, kmap, PageUp(sz))
           && Outside(old(Now()), Now(), old(owner), owner, child.value)
    {
      ghost var s0, o0, n0 := Now(), owner, |free|;
      var c := Setupkvm(kmap);
      if c == 0 {
        return Some(0);
      }
      NoneOf(ram, s0, o0, c);
      CopyNone(s0, Now(), pd, c, kmap);
      var i: nat := 0;
      while i < sz
        invariant i % PGSIZE == 0 && i / PGSIZE <= PageUp(sz)
        invariant Copying(pd, c, kmap, i / PGSIZE, s0, o0, n0)
        decreases sz - i
      {
        Split(i);
        Stepped(i);
        var there, ok := CopyTurn(pd, c, kmap, PdxOf(i), PtxOf(i), s0, o0, n0);
        if !there {
          NotFilled(s0, pd, PageUp(sz), PdxOf(i), PtxOf(i));
          return None;
        }
        if !ok {
          Discard(c, s0, o0);
          SameFree(ram, old(free), free, owner);
          return Some(0);
        }
        i := (i + PGSIZE) % WORD;
      }
      child := Some(c);
    }

    /** One turn of the loop of copyuvm: whether the page is there, and whether it could be copied. */
    method CopyTurn(pd: nat, child: nat, kmap: seq<Region>, d: nat, t: nat, ghost s0: State, ghost o0: map<nat, Owner>,
                    ghost n0: nat)
      returns (there: bool, ok: bool)
      requires Mappable(kmap) && d < KERNPDX && t < ENTRIES && Copying(pd, child, kmap, d * ENTRIES + t, s0, o0, n0)
      modifies `mem, `free, `owner
      ensures there <==> Present(Pte(s0, pd, d, t))
      ensures there && ok ==> Copying(pd, child, kmap, d * ENTRIES + t + 1, s0, o0, n0)
      ensures there && !ok ==> Ok() && Outside(s0, Now(), o0, owner, child) && n0 <= 1 + ENTRIES + d * ENTRIES + t
    {
      ok := false;
      there := IsThere(pd, d, t);
      OutsideSeen(ram, s0, Now(), o0, owner, child, pd, d, t);
      if there {
        ok := CopyPage(pd, child, d, t, kmap, s0, o0);
        FilledMore(s0, pd, d, t);
      }
    }

    /** copyuvm has copied the pages below vp. */
    ghost predicate Copying(pd: nat, child: nat, kmap: seq<Region>, vp: nat, s0: State, o0: map<nat, Owner>, n0: nat)
      reads this
      requires Mappable(kmap)
    {
      && Ok() && pd in s0.dirs && Core(ram, s0, o0) && child !in o0 && child !in s0.dirs
      && dirs == s0.dirs + {child} && Outside(s0, Now(), o0, owner, child)
      && Slack(Now(), free, child) == n0 - 1 - ENTRIES - vp
      && Copied(s0, Now(), pd, child, kmap, vp) && Filled(s0, pd, vp)
    }

    /** growproc: -1 is false. Shrinking to nothing frees the pages and is then taken for a failure,
        so that the size no longer tells which pages are there. */
    method Growproc(pd: nat, sz: nat, n: int) returns (ok: bool, sz': nat)
      requires Ok() && pd in dirs && sz < KERNBASE && -0x8000_0000 <= n < 0x8000_0000 && Whole(Now(), pd, sz)
      modifies `mem, `free, `owner
      ensures Ok() && (!ok ==> sz' == sz)
      ensures n == 0 ==> ok && sz' == sz && Now() == old(Now())
      ensures n > 0 && ok ==>
        sz' == sz + n && Alloced(old(Now()), Now(), old(owner), owner, pd, PageUp(sz), PageUp(sz'))
      ensures n > 0 && !ok ==> Walked(old(Now()), Now(), old(owner), owner, pd)
      ensures n > 0 && !ok ==>
        sz + n >= KERNBASE || |old(free)| < |Missing(old(Now()), pd)| + PageUp(sz + n) - PageUp(sz)
      ensures n < 0 && sz + n >= 0 ==> Dealloced(old(Now()), Now(), old(owner), owner, pd, PageUp(sz + n), PageUp(sz))
      ensures n < 0 ==> (ok <==> sz + n != 0 && sz != 0)
      ensures n < 0 && ok ==> sz' == if sz + n > 0 then sz + n else sz
      ensures Whole(Now(), pd, sz') <==> !(n < 0 && sz + n == 0)
    {
      ghost var s, o := Now(), owner;
      sz' := sz;
      if n > 0 {
        WalkedSelf(s, o, pd);
        WholeVacant(s, pd, sz, PageUp((sz + n) % WORD));
        var r := Allocuvm(pd, sz, (sz + n) % WORD);
        if r.value == 0 {
          WholeWalked(s, Now(), o, owner, pd, sz);
          return false, sz;
        }
        sz' := r.value;
        WholeGrown(s, Now(), o, owner, pd, sz, sz');
      } else if n < 0 {
        var newsz: nat := if sz + n >= 0 then sz + n else sz + n + WORD;
        var r := Deallocuvm(pd, sz, newsz);
        WholeShrunk(s, Now(), o, owner, pd, sz, newsz);
        if r == 0 {
          return false, sz;
        }
        sz' := r;
      }
      ok := true;
    }
  }

  ghost predicate WholeOk(s: State, pd: nat, sz: nat, d: nat, t: nat) {
    d < KERNPDX && t < ENTRIES ==> (Present(Pte(s, pd, d, t)) <==> d * ENTRIES + t < PageUp(sz))
  }

  /** The user pages that are there are exactly those below sz. */
  ghost predicate Whole(s: State, pd: nat, sz: nat) {
    forall d: nat, t: nat :: WholeOk(s, pd, sz, d, t)
  }

  lemma WholeVacant(s: State, pd: nat, sz: nat, hi: nat)
    requires Whole(s, pd, sz)
    ensures Vacant(s, pd, PageUp(sz), hi)
  {
    forall d: nat, t: nat ensures VacantAt(s, pd, PageUp(sz), hi, d, t) { assert WholeOk(s, pd, sz, d, t); }
  }

  lemma WholeWalked(s: State, s': State, o: map<nat, Owner>, o': map<nat, Owner>, pd: nat, sz: nat)
    requires Whole(s, pd, sz) && Walked(s, s', o, o', pd)
    ensures Whole(s', pd, sz)
  {
    forall d: nat, t: nat ensures WholeOk(s', pd, sz, d, t) {
      assert WholeOk(s, pd, sz, d, t) && Kept(s, s', pd, d, t);
    }
  }

  lemma WholeGrown(s: State, s': State, o: map<nat, Owner>, o': map<nat, Owner>, pd: nat, sz: nat, sz': nat)
    requires Whole(s, pd, sz) && sz <= sz' && Alloced(s, s', o, o', pd, PageUp(sz), PageUp(sz'))
    ensures Whole(s', pd, sz')
  {
    var lo, hi := PageUp(sz), PageUp(sz');
    forall d: nat, t: nat ensures WholeOk(s', pd, sz', d, t) {
      assert WholeOk(s, pd, sz, d, t) && AllocOk(s, s', pd, lo, hi, d, t);
    }
  }

  lemma WholeShrunk(s: State, s': State, o: map<nat, Owner>, o': map<nat, Owner>, pd: nat, sz: nat, newsz: nat)
    requires Whole(s, pd, sz) && sz < KERNBASE && Dealloced(s, s', o, o', pd, PageUp(newsz), PageUp(sz))
    ensures Whole(s', pd, Min(newsz, sz))
    ensures newsz == 0 < sz ==> !Whole(s', pd, sz)
  {
    var lo, hi, m := PageUp(newsz), PageUp(sz), Min(newsz, sz);
    assert lo >= hi || m == newsz;
    forall d: nat, t: nat ensures WholeOk(s', pd, m, d, t) {
      assert WholeOk(s, pd, sz, d, t) && Scanned(s, s', pd, lo, hi, d, t);
    }
    if newsz == 0 < sz {
      assert WholeOk(s', pd, m, 0, 0);
      assert !WholeOk(s', pd, sz, 0, 0);
    }
  }

  lemma WholeNew(s: State, pd: nat, kmap: seq<Region>)
    requires Mappable(kmap) && Kernel(s, pd, kmap, |kmap|)
    ensures Whole(s, pd, 0)
  {
    forall d: nat, t: nat ensures WholeOk(s, pd, 0, d, t) {
      assert KernelOk(s, pd, kmap, |kmap|, d, t);
      if d < KERNPDX && t < ENTRIES { UserHalf(kmap, |kmap|, d * ENTRIES + t); }
    }
  }

  /** A process that grows by one page and shrinks by it again: growproc fails, the size is still one
      page, and the page is gone. */
  method ShrinkToNothing() returns (vm: Vm, pd: nat, sz: nat, ok: bool)
    ensures vm.Ok() && pd in vm.dirs && sz == PGSIZE && !ok
    ensures Whole(vm.Now(), pd, 0) && !Whole(vm.Now(), pd, sz)
  {
    vm := new Vm(Ram(1, 2 * ENTRIES));
    KmapMappable(0x8010_8000);
    pd := vm.Setupkvm(Kmap(0x8010_8000));
    WholeNew(vm.Now(), pd, Kmap(0x8010_8000));
    ok, sz := vm.Growproc(pd, 0, PGSIZE);
    ghost var s, o := vm.Now(), vm.owner;
    ok, sz := vm.Growproc(pd, sz, -(PGSIZE as int));
    WholeShrunk(s, vm.Now(), o, vm.owner, pd, PGSIZE, 0);
  }

  lemma WalkedSelf(s: State, o: map<nat, Owner>, pd: nat)
    ensures Walked(s, s, o, o, pd)
  {
    forall f: nat ensures OutsideOk(s, s, o, o, pd, f) && TableOk(o, o, pd, f) {}
    forall d: nat, t: nat ensures Kept(s, s, pd, d, t) {}
  }

  /** What a free page holds makes no difference. */
  lemma OutsideFreed(s0: State, s: State, s': State, o0: map<nat, Owner>, o: map<nat, Owner>, pd: nat, f: nat)
    requires Outside(s0, s, o0, o, pd) && f !in o && s'.dirs == s.dirs && |s'.mem| == |s.mem|
    requires forall g :: 0 <= g < |s.mem| && g != f ==> s'.mem[g] == s.mem[g]
    ensures Outside(s0, s', o0, o, pd)
  {
    forall g: nat ensures OutsideOk(s0, s', o0, o, pd, g) {
      assert OutsideOk(s0, s, o0, o, pd, g);
    }
  }

  lemma OutsideSelf(s: State, o: map<nat, Owner>, pd: nat)
    ensures Outside(s, s, o, o, pd)
  {
    forall f: nat ensures OutsideOk(s, s, o, o, pd, f) {}
  }

  /** Page a of the region, with pa the physical page for it. */
  predicate InPages(r: Region, a: nat, pa: nat, last: nat) {
    Aligned(r) && r.virt <= a <= last && a % PGSIZE == 0 && pa == r.start + (a - r.virt)
      && last + PGSIZE == r.virt + Size(r)
  }

  lemma LastPage(r: Region)
    requires Aligned(r)
    ensures InPages(r, r.virt / PGSIZE * PGSIZE, r.start, (r.virt + Size(r) - 1) % WORD / PGSIZE * PGSIZE)
    ensures r.virt / PGSIZE * PGSIZE / PGSIZE == r.virt / PGSIZE
  {
    SizePages(r);
    var x := r.virt + Size(r);
    assert (x - 1) % WORD == x - 1 && (x - 1) / PGSIZE * PGSIZE == x - PGSIZE;
  }

  lemma SizePages(r: Region)
    requires Aligned(r)
    ensures Size(r) % PGSIZE == 0 && Size(r) >= PGSIZE && (r.virt + Size(r)) % PGSIZE == 0
  {}

  lemma PageOf(r: Region, a: nat, pa: nat, last: nat)
    requires InPages(r, a, pa, last)
    ensures InRegion(r, a / PGSIZE) && KERNPAGE <= a / PGSIZE < ENTRIES * ENTRIES
    ensures pa / PGSIZE == r.start / PGSIZE + (a / PGSIZE - r.virt / PGSIZE)
    ensures a < last ==>
      (a + PGSIZE) % WORD == a + PGSIZE && (pa + PGSIZE) % WORD == pa + PGSIZE
      && InPages(r, a + PGSIZE, pa + PGSIZE, last)
    ensures (a + PGSIZE) / PGSIZE == a / PGSIZE + 1 && a / PGSIZE * PGSIZE == a
    ensures last < WORD
  {
    if a < last { SizePages(r); }
  }

  lemma ListedSame(ram: Ram, free: seq<nat>, owner: map<nat, Owner>, owner': map<nat, Owner>)
    requires Listed(ram, free, owner) && owner'.Keys == owner.Keys
    ensures Listed(ram, free, owner')
  {
    forall f: nat ensures FreeOk(ram, free, owner', f) {
      assert FreeOk(ram, free, owner, f);
      assert f in owner'.Keys <==> f in owner.Keys;
    }
  }
}
