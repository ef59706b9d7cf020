/** Two-level page tables over physical pages, as kernel/vm.c lays them out in memory: which
    page is free, a directory, a table or a page of user memory, and what writing one entry
    does to every translation. Addresses are split as the hardware splits them: entry d of the
    directory, entry t of the table. */
module Paging {

  const ENTRIES: nat := 1024

  /** Directory entries below this one are user memory. */
  const KERNPDX: nat := 512

  /** A physical page as 1024 words; entries of directories and tables are such words. */
  type Page = seq<nat>

  /** mem: physical memory, page by page; dirs: the page directories. */
  datatype State = State(mem: seq<Page>, dirs: set<nat>)

  /** The pages from lo on and below hi are the allocator's. */
  datatype Ram = Ram(lo: nat, hi: nat)

  /** Where a directory holds a page: as itself, as the table of entry d, as user page t of table d. */
  datatype Slot = Self | Tab(d: nat) | Leaf(d: nat, t: nat)

  /** Held: taken from the allocator and not part of any directory. */
  datatype Owner = Held | Used(pd: nat, slot: Slot)

  // ---- Entries

  function Frame(w: nat): nat {
    w / 4096
  }

  function Flags(w: nat): nat {
    w % 4096
  }

  predicate Present(w: nat) {
    w % 2 == 1
  }

  /** pa | perm | PTE_P */
  function Entry(frame: nat, perm: nat): nat
    requires perm < 4096
  {
    frame * 4096 + (if perm % 2 == 1 then perm else perm + 1)
  }

  lemma EntryParts(frame: nat, perm: nat)
    requires perm < 4096
    ensures Present(Entry(frame, perm)) && Frame(Entry(frame, perm)) == frame
    ensures Flags(Entry(frame, perm)) == if perm % 2 == 1 then perm else perm + 1
  {}

  function Zeros(): (p: Page)
    ensures |p| == ENTRIES && forall k :: 0 <= k < ENTRIES ==> p[k] == 0
  {
    seq(ENTRIES, k => 0)
  }

  /** What kfree leaves in a page. */
  function Junk(): (p: Page)
    ensures |p| == ENTRIES
  {
    seq(ENTRIES, k => 0x01010101)
  }

  // ---- Walking

  /** Entry d of a directory. */
  function Pde(s: State, pd: nat, d: nat): nat {
    if pd < |s.mem| && |s.mem[pd]| == ENTRIES && d < ENTRIES then s.mem[pd][d] else 0
  }

  /** The table of entry d, or 0. */
  function TabOf(s: State, pd: nat, d: nat): nat {
    if Present(Pde(s, pd, d)) then Frame(Pde(s, pd, d)) else 0
  }

  /** The entry for page t of table d, or 0 if there is no table. */
  function Pte(s: State, pd: nat, d: nat, t: nat): nat {
    var tab := TabOf(s, pd, d);
    if tab != 0 && tab < |s.mem| && |s.mem[tab]| == ENTRIES && t < ENTRIES then s.mem[tab][t] else 0
  }

  /** The page in a slot, or 0. */
  function At(s: State, pd: nat, slot: Slot): nat {
    match slot
    case Self => pd
    case Tab(d) => TabOf(s, pd, d)
    case Leaf(d, t) => if d < KERNPDX && Present(Pte(s, pd, d, t)) then Frame(Pte(s, pd, d, t)) else 0
  }

  // ---- Who has which page

  ghost predicate SlotOk(s: State, owner: map<nat, Owner>, pd: nat, slot: Slot) {
    pd in s.dirs && At(s, pd, slot) != 0 ==> At(s, pd, slot) in owner && owner[At(s, pd, slot)] == Used(pd, slot)
  }

  /** A present entry names a page other than 0, and any other entry of a table is zero. */
  ghost predicate EntryOk(s: State, pd: nat, d: nat, t: nat) {
    pd in s.dirs ==>
      && (Present(Pde(s, pd, d)) ==> Frame(Pde(s, pd, d)) != 0)
      && (d < KERNPDX && Present(Pte(s, pd, d, t)) ==> Frame(Pte(s, pd, d, t)) != 0)
      && (Present(Pte(s, pd, d, t)) || Pte(s, pd, d, t) == 0)
  }

  ghost predicate OwnerOk(ram: Ram, s: State, owner: map<nat, Owner>, f: nat) {
    f in owner ==>
      && ram.lo <= f < ram.hi
      && (owner[f].Used? ==> owner[f].pd in s.dirs && At(s, owner[f].pd, owner[f].slot) == f)
  }

  ghost predicate Shaped(ram: Ram, s: State) {
    && 0 < ram.lo <= ram.hi == |s.mem|
    && (forall f :: 0 <= f < |s.mem| ==> |s.mem[f]| == ENTRIES)
    && (forall pd :: pd in s.dirs ==> ram.lo <= pd < ram.hi)
  }

  /** Every page in use has exactly one holder. */
  ghost predicate Core(ram: Ram, s: State, owner: map<nat, Owner>) {
    && Shaped(ram, s)
    && (forall pd: nat, slot: Slot :: SlotOk(s, owner, pd, slot))
    && (forall f: nat :: OwnerOk(ram, s, owner, f))
    && (forall pd: nat, d: nat, t: nat :: EntryOk(s, pd, d, t))
  }

  ghost predicate FreeOk(ram: Ram, free: seq<nat>, owner: map<nat, Owner>, f: nat) {
    f in free <==> ram.lo <= f < ram.hi && f !in owner
  }

  /** The free list holds exactly the other pages, each of them once. */
  ghost predicate Listed(ram: Ram, free: seq<nat>, owner: map<nat, Owner>) {
    && (forall f: nat :: FreeOk(ram, free, owner, f))
    && (forall i, j :: 0 <= i < j < |free| ==> free[i] != free[j])
  }

  ghost predicate Inv(ram: Ram, s: State, free: seq<nat>, owner: map<nat, Owner>) {
    Core(ram, s, owner) && Listed(ram, free, owner)
  }

  /** A page is free, or held by exactly one slot of one directory, or held outside of them. */
  lemma Partition(ram: Ram, s: State, free: seq<nat>, owner: map<nat, Owner>, f: nat)
    requires Inv(ram, s, free, owner) && ram.lo <= f < ram.hi
    ensures f in free <==> f !in owner
    ensures f in owner && owner[f].Used? ==> owner[f].pd in s.dirs && At(s, owner[f].pd, owner[f].slot) == f
    ensures forall pd: nat, slot: Slot :: pd in s.dirs && At(s, pd, slot) == f ==>
      f in owner && owner[f] == Used(pd, slot)
  {
    assert FreeOk(ram, free, owner, f) && OwnerOk(ram, s, owner, f);
    forall pd: nat, slot: Slot | pd in s.dirs && At(s, pd, slot) == f ensures f in owner && owner[f] == Used(pd, slot) {
      assert SlotOk(s, owner, pd, slot);
    }
  }

  // ---- Writing a page that is neither a directory nor a table

  /** Page f is user memory or not in a directory at all. */
  ghost predicate Plain(owner: map<nat, Owner>, f: nat) {
    f in owner ==> owner[f].Held? || owner[f].slot.Leaf?
  }

  function Poked(s: State, f: nat, p: Page): State
    requires f < |s.mem|
  {
    s.(mem := s.mem[f := p])
  }

  lemma PokedSame(ram: Ram, s: State, owner: map<nat, Owner>, f: nat, p: Page, pd: nat, d: nat, t: nat)
    requires Core(ram, s, owner) && f < |s.mem| && Plain(owner, f) && |p| == ENTRIES && pd in s.dirs
    ensures TabOf(Poked(s, f, p), pd, d) == TabOf(s, pd, d) && Pte(Poked(s, f, p), pd, d, t) == Pte(s, pd, d, t)
    ensures Pde(Poked(s, f, p), pd, d) == Pde(s, pd, d)
  {
    assert SlotOk(s, owner, pd, Self) && SlotOk(s, owner, pd, Tab(d));
    assert At(s, pd, Self) == pd && At(s, pd, Tab(d)) == TabOf(s, pd, d);
  }

  lemma PokedCore(ram: Ram, s: State, owner: map<nat, Owner>, f: nat, p: Page)
    requires Core(ram, s, owner) && f < |s.mem| && Plain(owner, f) && |p| == ENTRIES
    ensures Core(ram, Poked(s, f, p), owner)
  {
    var s' := Poked(s, f, p);
    forall pd: nat, slot: Slot ensures SlotOk(s', owner, pd, slot) {
      assert SlotOk(s, owner, pd, slot);
      if pd in s.dirs { PokedAt(ram, s, owner, f, p, pd, slot); }
    }
    forall g: nat ensures OwnerOk(ram, s', owner, g) {
      assert OwnerOk(ram, s, owner, g);
      if g in owner && owner[g].Used? { PokedAt(ram, s, owner, f, p, owner[g].pd, owner[g].slot); }
    }
    forall pd: nat, d: nat, t: nat ensures EntryOk(s', pd, d, t) {
      assert EntryOk(s, pd, d, t);
      if pd in s.dirs { PokedSame(ram, s, owner, f, p, pd, d, t); }
    }
  }

  lemma PokedAt(ram: Ram, s: State, owner: map<nat, Owner>, f: nat, p: Page, pd: nat, slot: Slot)
    requires Core(ram, s, owner) && f < |s.mem| && Plain(owner, f) && |p| == ENTRIES && pd in s.dirs
    ensures At(Poked(s, f, p), pd, slot) == At(s, pd, slot)
  {
    match slot
    case Self =>
    case Tab(d) => PokedSame(ram, s, owner, f, p, pd, d, 0);
    case Leaf(d, t) => PokedSame(ram, s, owner, f, p, pd, d, t);
  }

  // ---- Writing one entry of a table

  function Put(p: Page, k: nat, w: nat): Page
    requires k < |p|
  {
    p[k := w]
  }

  function WordSet(s: State, f: nat, k: nat, w: nat): State
    requires f < |s.mem| && k < |s.mem[f]|
  {
    s.(mem := s.mem[f := Put(s.mem[f], k, w)])
  }

  lemma TabIsTable(ram: Ram, s: State, owner: map<nat, Owner>, pd: nat, d: nat)
    requires Core(ram, s, owner) && pd in s.dirs && TabOf(s, pd, d) != 0
    ensures ram.lo <= TabOf(s, pd, d) < |s.mem| && |s.mem[TabOf(s, pd, d)]| == ENTRIES && d < ENTRIES
    ensures TabOf(s, pd, d) in owner && owner[TabOf(s, pd, d)] == Used(pd, Tab(d)) && TabOf(s, pd, d) !in s.dirs
  {
    var tab := TabOf(s, pd, d);
    assert At(s, pd, Tab(d)) == tab;
    assert SlotOk(s, owner, pd, Tab(d)) && OwnerOk(ram, s, owner, tab) && SlotOk(s, owner, tab, Self);
    assert At(s, tab, Self) == tab;
  }

  lemma PteWritten(ram: Ram, s: State, owner: map<nat, Owner>, pd: nat, d: nat, t: nat, w: nat, p: nat, e: nat, u: nat)
    requires Core(ram, s, owner) && pd in s.dirs && TabOf(s, pd, d) != 0 && t < ENTRIES && p in s.dirs
    ensures TabOf(s, pd, d) < |s.mem| && |s.mem[TabOf(s, pd, d)]| == ENTRIES
    ensures var s' := WordSet(s, TabOf(s, pd, d), t, w);
      && Pde(s', p, e) == Pde(s, p, e)
      && Pte(s', p, e, u) == if (p, e, u) == (pd, d, t) then w else Pte(s, p, e, u)
  {
    TabIsTable(ram, s, owner, pd, d);
    if TabOf(s, p, e) != 0 { TabIsTable(ram, s, owner, p, e); }
  }

  lemma PteWrittenAt(ram: Ram, s: State, owner: map<nat, Owner>, pd: nat, d: nat, t: nat, w: nat, p: nat, slot: Slot)
    requires Core(ram, s, owner) && pd in s.dirs && TabOf(s, pd, d) != 0 && t < ENTRIES && p in s.dirs
    ensures TabOf(s, pd, d) < |s.mem| && |s.mem[TabOf(s, pd, d)]| == ENTRIES
    ensures At(WordSet(s, TabOf(s, pd, d), t, w), p, slot) ==
      if p == pd && slot == Leaf(d, t) && d < KERNPDX then (if Present(w) then Frame(w) else 0) else At(s, p, slot)
  {
    PteWritten(ram, s, owner, pd, d, t, w, p, d, t);
    match slot
    case Self =>
    case Tab(e) => PteWritten(ram, s, owner, pd, d, t, w, p, e, 0);
    case Leaf(e, u) => PteWritten(ram, s, owner, pd, d, t, w, p, e, u);
  }

  /** What is in the tables and directories after an entry has been written, with owner' for owner. */
  lemma PteWrittenCore(ram: Ram, s: State, owner: map<nat, Owner>, pd: nat, d: nat, t: nat, w: nat, owner': map<nat,
                       Owner>)
    requires Core(ram, s, owner) && pd in s.dirs && TabOf(s, pd, d) != 0 && t < ENTRIES && (Present(w) || w == 0)
    requires d < KERNPDX && Present(w) ==>
      ram.lo <= Frame(w) < ram.hi && Frame(w) in owner' && owner'[Frame(w)] == Used(pd, Leaf(d, t))
    requires forall f ::
      f in owner && owner[f] != Used(pd, Leaf(d, t)) && !(d < KERNPDX && Present(w) && f == Frame(w)) ==>
        f in owner' && owner'[f] == owner[f]
    requires forall f :: f in owner' && !(d < KERNPDX && Present(w) && f == Frame(w)) ==>
               f in owner && owner'[f] == owner[f] && (d < KERNPDX ==> owner[f] != Used(pd, Leaf(d, t)))
    requires d < KERNPDX && Present(w) && Frame(w) in owner ==> owner[Frame(w)] == Held
    ensures TabOf(s, pd, d) < |s.mem| && |s.mem[TabOf(s, pd, d)]| == ENTRIES
    ensures Core(ram, WordSet(s, TabOf(s, pd, d), t, w), owner')
  {
    TabIsTable(ram, s, owner, pd, d);
    var s' := WordSet(s, TabOf(s, pd, d), t, w);
    forall p: nat, slot: Slot ensures SlotOk(s', owner', p, slot) {
      assert SlotOk(s, owner, p, slot);
      if p in s.dirs { PteWrittenAt(ram, s, owner, pd, d, t, w, p, slot); }
    }
    forall f: nat ensures OwnerOk(ram, s', owner', f) {
      assert OwnerOk(ram, s, owner, f);
      if f in owner' && owner'[f].Used? {
        PteWrittenAt(ram, s, owner, pd, d, t, w, owner'[f].pd, owner'[f].slot);
      }
    }
    forall p: nat, e: nat, u: nat ensures EntryOk(s', p, e, u) {
      assert EntryOk(s, p, e, u);
      if p in s.dirs { PteWritten(ram, s, owner, pd, d, t, w, p, e, u); }
    }
  }

  // ---- Adding a table

  lemma PdeWritten(ram: Ram, s: State, owner: map<nat, Owner>, pd: nat, d: nat, f: nat, p: nat, e: nat, u: nat)
    requires Core(ram, s, owner) && pd in s.dirs && d < ENTRIES && TabOf(s, pd, d) == 0 && p in s.dirs
    requires f in owner && owner[f] == Held && f < |s.mem| && s.mem[f] == Zeros()
    ensures var s' := WordSet(s, pd, d, Entry(f, 7));
      && TabOf(s', p, e) == (if (p, e) == (pd, d) then f else TabOf(s, p, e))
      && Pte(s', p, e, u) == Pte(s, p, e, u)
  {
    EntryParts(f, 7);
    assert OwnerOk(ram, s, owner, f) && SlotOk(s, owner, pd, Self) && At(s, pd, Self) == pd;
    if TabOf(s, p, e) != 0 { TabIsTable(ram, s, owner, p, e); }
  }

  lemma PdeWrittenAt(ram: Ram, s: State, owner: map<nat, Owner>, pd: nat, d: nat, f: nat, p: nat, slot: Slot)
    requires Core(ram, s, owner) && pd in s.dirs && d < ENTRIES && TabOf(s, pd, d) == 0 && p in s.dirs
    requires f in owner && owner[f] == Held && f < |s.mem| && s.mem[f] == Zeros()
    ensures At(WordSet(s, pd, d, Entry(f, 7)), p, slot) == if p == pd && slot == Tab(d) then f else At(s, p, slot)
  {
    match slot
    case Self =>
    case Tab(e) => PdeWritten(ram, s, owner, pd, d, f, p, e, 0);
    case Leaf(e, u) => PdeWritten(ram, s, owner, pd, d, f, p, e, u);
  }

  lemma PdeWrittenCore(ram: Ram, s: State, owner: map<nat, Owner>, pd: nat, d: nat, f: nat)
    requires Core(ram, s, owner) && pd in s.dirs && d < ENTRIES && TabOf(s, pd, d) == 0
    requires f in owner && owner[f] == Held && f < |s.mem| && s.mem[f] == Zeros()
    ensures Core(ram, WordSet(s, pd, d, Entry(f, 7)), owner[f := Used(pd, Tab(d))])
  {
    var s', owner' := WordSet(s, pd, d, Entry(f, 7)), owner[f := Used(pd, Tab(d))];
    assert OwnerOk(ram, s, owner, f);
    forall p: nat, slot: Slot ensures SlotOk(s', owner', p, slot) {
      assert SlotOk(s, owner, p, slot);
      if p in s.dirs { PdeWrittenAt(ram, s, owner, pd, d, f, p, slot); }
    }
    forall g: nat ensures OwnerOk(ram, s', owner', g) {
      assert OwnerOk(ram, s, owner, g);
      if g in owner' && owner'[g].Used? {
        PdeWrittenAt(ram, s, owner, pd, d, f, owner'[g].pd, owner'[g].slot);
      }
    }
    forall p: nat, e: nat, u: nat ensures EntryOk(s', p, e, u) {
      assert EntryOk(s, p, e, u);
      EntryParts(f, 7);
      if p in s.dirs { PdeWritten(ram, s, owner, pd, d, f, p, e, u); }
    }
  }

  // ---- A new directory, and one less

  lemma DirAdded(ram: Ram, s: State, owner: map<nat, Owner>, f: nat)
    requires Core(ram, s, owner) && f in owner && owner[f] == Held && f < |s.mem| && s.mem[f] == Zeros()
    ensures Core(ram, s.(dirs := s.dirs + {f}), owner[f := Used(f, Self)])
  {
    var s', owner' := s.(dirs := s.dirs + {f}), owner[f := Used(f, Self)];
    assert OwnerOk(ram, s, owner, f);
    assert f !in s.dirs by { assert SlotOk(s, owner, f, Self) && At(s, f, Self) == f; }
    forall p: nat, slot: Slot ensures SlotOk(s', owner', p, slot) {
      assert SlotOk(s, owner, p, slot);
    }
    forall g: nat ensures OwnerOk(ram, s', owner', g) {
      assert OwnerOk(ram, s, owner, g);
    }
    forall p: nat, e: nat, u: nat ensures EntryOk(s', p, e, u) {
      assert EntryOk(s, p, e, u);
    }
  }

  ghost function Without(owner: map<nat, Owner>, pd: nat): map<nat, Owner> {
    map f | f in owner && !(owner[f].Used? && owner[f].pd == pd) :: owner[f]
  }

  /** Once a directory is gone, nothing is left of it if only its own pages were changed. */
  lemma DirDropped(ram: Ram, s: State, owner: map<nat, Owner>, pd: nat, mem': seq<Page>)
    requires Core(ram, s, owner) && |mem'| == |s.mem| && (forall f :: 0 <= f < |mem'| ==> |mem'[f]| == ENTRIES)
    requires forall f :: 0 <= f < |mem'| && !(f in owner && owner[f].Used? && owner[f].pd == pd) ==> mem'[f] == s.mem[f]
    ensures Core(ram, State(mem', s.dirs - {pd}), Without(owner, pd))
    ensures forall p: nat, d: nat, t: nat :: PteSame(s, State(mem', s.dirs - {pd}), p, d, t) || p == pd
  {
    var s', owner' := State(mem', s.dirs - {pd}), Without(owner, pd);
    forall p: nat, slot: Slot ensures SlotOk(s', owner', p, slot) {
      assert SlotOk(s, owner, p, slot);
      if p in s'.dirs { OtherDirAt(ram, s, owner, pd, mem', p, slot); }
    }
    forall g: nat ensures OwnerOk(ram, s', owner', g) {
      assert OwnerOk(ram, s, owner, g);
      if g in owner' && owner'[g].Used? { OtherDirAt(ram, s, owner, pd, mem', owner'[g].pd, owner'[g].slot); }
    }
    forall p: nat, e: nat, u: nat ensures EntryOk(s', p, e, u) && (p != pd ==> PteSame(s, s', p, e, u)) {
      assert EntryOk(s, p, e, u);
      if p in s'.dirs { OtherDir(ram, s, owner, pd, mem', p, e, u); }
    }
  }

  lemma OtherDir(ram: Ram, s: State, owner: map<nat, Owner>, pd: nat, mem': seq<Page>, p: nat, e: nat, u: nat)
    requires Core(ram, s, owner) && |mem'| == |s.mem| && p in s.dirs && p != pd
    requires forall f :: 0 <= f < |mem'| && !(f in owner && owner[f].Used? && owner[f].pd == pd) ==> mem'[f] == s.mem[f]
    ensures Pde(State(mem', s.dirs - {pd}), p, e) == Pde(s, p, e)
      && Pte(State(mem', s.dirs - {pd}), p, e, u) == Pte(s, p, e, u)
  {
    assert SlotOk(s, owner, p, Self) && At(s, p, Self) == p;
    if TabOf(s, p, e) != 0 { TabIsTable(ram, s, owner, p, e); }
  }

  lemma OtherDirAt(ram: Ram, s: State, owner: map<nat, Owner>, pd: nat, mem': seq<Page>, p: nat, slot: Slot)
    requires Core(ram, s, owner) && |mem'| == |s.mem| && p in s.dirs && p != pd
    requires forall f :: 0 <= f < |mem'| && !(f in owner && owner[f].Used? && owner[f].pd == pd) ==> mem'[f] == s.mem[f]
    ensures At(State(mem', s.dirs - {pd}), p, slot) == At(s, p, slot)
  {
    match slot
    case Self =>
    case Tab(e) => OtherDir(ram, s, owner, pd, mem', p, e, 0);
    case Leaf(e, u) => OtherDir(ram, s, owner, pd, mem', p, e, u);
  }

  /** The same translation for a page. */
  ghost predicate PteSame(s: State, s': State, pd: nat, d: nat, t: nat) {
    pd in s.dirs ==> Pte(s', pd, d, t) == Pte(s, pd, d, t)
  }
}
