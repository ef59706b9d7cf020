/** The storage allocator of user/umalloc.c. Addresses count units of one header (8 bytes);
    a header at address a has fields next[a] and size[a], and size counts the header too.
    The free list is circular, ascends by address and starts again at base, the header in
    static storage below every address that sbrk returns. */
module Umalloc {
  import opened Basics

  const BASE: nat := 1
  const UNIT: nat := 8
  /** KERNBASE in units: user memory ends below it. */
  const LIMIT: nat := 0x1000_0000

  ghost predicate Link(next: map<nat, nat>, fl: seq<nat>, i: nat) {
    i < |fl| && fl[i] in next ==> next[fl[i]] == fl[Succ(|fl|, i)]
  }

  /** next links the addresses of fl into a circle. */
  ghost predicate Ring(next: map<nat, nat>, fl: seq<nat>) {
    (forall i :: 0 <= i < |fl| ==> fl[i] in next) && (forall i: nat :: Link(next, fl, i))
  }

  ghost predicate Ascending(fl: seq<nat>) {
    && |fl| > 0 && fl[0] == BASE
    && forall i, j :: 0 <= i < j < |fl| ==> fl[i] < fl[j]
  }

  /** No two neighbours in the list touch: what could be coalesced has been. */
  ghost predicate Coalesced(size: map<nat, nat>, fl: seq<nat>) {
    && (forall i :: 0 <= i < |fl| ==> fl[i] in size && (i > 0 ==> size[fl[i]] > 0))
    && (|fl| > 0 ==> size[fl[0]] == 0)
    && (forall i :: 0 < i < |fl| - 1 ==> Apart(size, fl, i))
  }

  ghost predicate Apart(size: map<nat, nat>, fl: seq<nat>, i: nat)
    requires i + 1 < |fl| && fl[i] in size
  {
    fl[i] + size[fl[i]] < fl[i + 1]
  }

  ghost predicate Disjoint(a: nat, n: nat, b: nat, m: nat) {
    a + n <= b || b + m <= a
  }

  /** On the circle of addresses, b comes after p and before q. */
  predicate Between(p: nat, b: nat, q: nat) {
    if p < q then p < b < q else p < b || b < q
  }

  ghost predicate Separate(live: map<nat, nat>, a: nat, b: nat) {
    a in live && b in live && a != b ==> Disjoint(a, live[a], b, live[b])
  }

  ghost predicate Clear(size: map<nat, nat>, fl: seq<nat>, live: map<nat, nat>, a: nat, i: nat) {
    a in live && 0 < i < |fl| && fl[i] in size ==> Disjoint(a, live[a], fl[i], size[fl[i]])
  }

  /** Live blocks have the size they were given and overlap nothing. */
  ghost predicate LiveOk(size: map<nat, nat>, fl: seq<nat>, live: map<nat, nat>) {
    && (forall a :: a in live ==> a > BASE && a in size && size[a] == live[a] > 0)
    && (forall a: nat, b: nat :: Separate(live, a, b))
    && (forall a: nat, i: nat :: Clear(size, fl, live, a, i))
  }

  ghost predicate Within(u: nat, a: nat, n: nat) {
    a <= u < a + n
  }

  ghost predicate InFree(size: map<nat, nat>, fl: seq<nat>, u: nat) {
    exists i :: 0 < i < |fl| && fl[i] in size && Within(u, fl[i], size[fl[i]])
  }

  ghost predicate InLive(live: map<nat, nat>, u: nat) {
    exists a :: a in live && Within(u, a, live[a])
  }

  ghost predicate UnitOk(size: map<nat, nat>, fl: seq<nat>, live: map<nat, nat>, arena: set<nat>, u: nat) {
    u in arena <==> InFree(size, fl, u) || InLive(live, u)
  }

  /** Units are conserved: those obtained from sbrk are exactly those in free or live blocks. */
  ghost predicate Conserved(size: map<nat, nat>, fl: seq<nat>, live: map<nat, nat>, arena: set<nat>) {
    forall u: nat :: UnitOk(size, fl, live, arena, u)
  }

  ghost predicate Good(next: map<nat, nat>, size: map<nat, nat>, fl: seq<nat>, live: map<nat, nat>) {
    Ring(next, fl) && Ascending(fl) && Coalesced(size, fl) && LiveOk(size, fl, live)
  }

  // ---- Edits of the list

  /** r is fl with the entries strictly between i and j replaced by mid. */
  ghost predicate Spliced(fl: seq<nat>, i: nat, mid: seq<nat>, j: nat, r: seq<nat>) {
    && i < j <= |fl| && |mid| <= 1 && |r| == i + 1 + |mid| + (|fl| - j)
    && (forall k {:trigger r[k]} :: 0 <= k <= i ==> r[k] == fl[k])
    && (mid != [] ==> r[i + 1] == mid[0])
    && (forall k {:trigger r[k]} :: i + 1 + |mid| <= k < |r| ==> r[k] == fl[k - (i + 1 + |mid|) + j])
  }

  lemma SpliceIs(fl: seq<nat>, i: nat, mid: seq<nat>, j: nat)
    requires i < j <= |fl| && |mid| <= 1
    ensures Spliced(fl, i, mid, j, fl[..i + 1] + mid + fl[j..])
  {}

  ghost function EntryAt(fl: seq<nat>, j: nat): nat
    requires 0 < |fl| && j <= |fl|
  {
    if j == |fl| then fl[0] else fl[j]
  }

  /** The links that an edit must leave: only those of fl[i] and of the new entry change. */
  ghost predicate Relinked(next': map<nat, nat>, fl: seq<nat>, i: nat, mid: seq<nat>, j: nat)
    requires i < j <= |fl|
  {
    && (forall k :: 0 <= k < |fl| && (k < i || j <= k) ==> fl[k] in next')
    && (forall k: nat :: k < i || j <= k ==> Link(next', fl, k))
    && fl[i] in next' && next'[fl[i]] == (if mid == [] then EntryAt(fl, j) else mid[0])
    && (mid != [] ==> mid[0] in next' && next'[mid[0]] == EntryAt(fl, j))
  }

  /** One link of an edited list. */
  lemma SpliceLink(next': map<nat, nat>, fl: seq<nat>, i: nat, mid: seq<nat>, j: nat, r: seq<nat>, k: nat)
    requires Spliced(fl, i, mid, j, r) && Relinked(next', fl, i, mid, j) && k < |r|
    ensures r[k] in next' && next'[r[k]] == r[Succ(|r|, k)]
  {
    var n := i + 1 + |mid|;
    if k < i {
      assert r[k] == fl[k] && r[k + 1] == fl[k + 1];
      assert Link(next', fl, k);
    } else if k < n {
      assert Succ(|r|, n - 1) == (if j == |fl| then 0 else n);
      assert r[Succ(|r|, n - 1)] == EntryAt(fl, j);
    } else {
      var m := k - n + j;
      assert r[k] == fl[m];
      assert Link(next', fl, m);
      if m + 1 < |fl| {
        assert r[k + 1] == fl[m + 1];
      }
    }
  }

  lemma SpliceRing(next': map<nat, nat>, fl: seq<nat>, i: nat, mid: seq<nat>, j: nat, r: seq<nat>)
    requires Spliced(fl, i, mid, j, r) && Relinked(next', fl, i, mid, j)
    ensures Ring(next', r)
  {
    forall k: nat ensures Link(next', r, k) {
      if k < |r| { SpliceLink(next', fl, i, mid, j, r, k); }
    }
  }

  lemma SpliceAscending(fl: seq<nat>, i: nat, mid: seq<nat>, j: nat, r: seq<nat>)
    requires Spliced(fl, i, mid, j, r) && Ascending(fl)
    requires mid != [] ==> fl[i] < mid[0] && (j < |fl| ==> mid[0] < fl[j])
    ensures Ascending(r)
  {}

  // ---- free

  /** The gap of the list into which block b belongs. */
  ghost predicate Gap(fl: seq<nat>, b: nat, i: nat) {
    i < |fl| && fl[i] < b && (i + 1 < |fl| ==> b < fl[i + 1])
  }

  /** Block b ends where the next free block begins. */
  ghost predicate Upper(size: map<nat, nat>, fl: seq<nat>, b: nat, i: nat)
    requires b in size
  {
    i + 1 < |fl| && b + size[b] == fl[i + 1]
  }

  /** The free block before it ends where b begins. */
  ghost predicate Lower(size: map<nat, nat>, fl: seq<nat>, b: nat, i: nat)
    requires i < |fl| && fl[i] in size
  {
    fl[i] + size[fl[i]] == b
  }

  ghost predicate Freeing(size: map<nat, nat>, fl: seq<nat>, live: map<nat, nat>, b: nat, i: nat) {
    && Ascending(fl) && Coalesced(size, fl) && LiveOk(size, fl, live)
    && b in live && b in size && Gap(fl, b, i)
  }

  /** The sizes after free: b takes in the block above, the block below takes in b. */
  ghost function Grown(size: map<nat, nat>, fl: seq<nat>, b: nat, i: nat): (n: nat)
    requires b in size && forall k :: 0 <= k < |fl| ==> fl[k] in size
  {
    size[b] + if Upper(size, fl, b, i) then size[fl[i + 1]] else 0
  }

  ghost function FreedSize(size: map<nat, nat>, fl: seq<nat>, b: nat, i: nat): (s: map<nat, nat>)
    requires b in size && i < |fl| && forall k :: 0 <= k < |fl| ==> fl[k] in size
  {
    FreedSizes(size, b, fl[i], if Upper(size, fl, b, i) then size[fl[i + 1]] else 0, Lower(size, fl, b, i))
  }

  ghost function FreedSizes(size: map<nat, nat>, b: nat, p: nat, above: nat, lower: bool): map<nat, nat>
    requires b in size && p in size
  {
    var n := size[b] + above;
    if lower then size[b := n][p := size[p] + n] else size[b := n]
  }

  ghost predicate FreedList(size: map<nat, nat>, fl: seq<nat>, b: nat, i: nat, r: seq<nat>)
    requires b in size && i < |fl| && fl[i] in size
  {
    Spliced(fl, i, if Lower(size, fl, b, i) then [] else [b], if Upper(size, fl, b, i) then i + 2 else i + 1, r)
  }

  /** Neither neighbour of the gap overlaps the block. */
  lemma GapFits(size: map<nat, nat>, fl: seq<nat>, live: map<nat, nat>, b: nat, i: nat)
    requires Freeing(size, fl, live, b, i)
    ensures b in size && size[b] > 0 && fl[i] in size
    ensures fl[i] + size[fl[i]] <= b
    ensures i + 1 < |fl| ==> fl[i + 1] in size && b + size[b] <= fl[i + 1]
    ensures Lower(size, fl, b, i) ==> i > 0
    ensures forall k :: 0 <= k < |fl| ==> fl[k] != b
  {
    assert Clear(size, fl, live, b, i) && Clear(size, fl, live, b, i + 1);
  }

  lemma FreedCoalesced(size: map<nat, nat>, fl: seq<nat>, live: map<nat, nat>, b: nat, i: nat, r: seq<nat>)
    requires Freeing(size, fl, live, b, i) && FreedList(size, fl, b, i, r)
    ensures Ascending(r) && Coalesced(FreedSize(size, fl, b, i), r)
  {
    GapFits(size, fl, live, b, i);
    var lower, upper := Lower(size, fl, b, i), Upper(size, fl, b, i);
    var mid, j := if lower then [] else [b], if upper then i + 2 else i + 1;
    SpliceAscending(fl, i, mid, j, r);
    var s := FreedSize(size, fl, b, i);
    forall k | 0 < k < |r| ensures r[k] in s && s[r[k]] > 0 && (k + 1 < |r| ==> Apart(s, r, k)) {
      FreedGap(size, fl, live, b, i, r, k);
    }
    assert r[0] == BASE;
  }

  /** The free blocks around the gap still do not touch. */
  lemma FreedGap(size: map<nat, nat>, fl: seq<nat>, live: map<nat, nat>, b: nat, i: nat, r: seq<nat>, k: nat)
    requires Freeing(size, fl, live, b, i) && FreedList(size, fl, b, i, r) && 0 < k < |r|
    ensures var s := FreedSize(size, fl, b, i);
      r[k] in s && s[r[k]] > 0 && (k + 1 < |r| ==> Apart(s, r, k))
  {
    GapFits(size, fl, live, b, i);
    var lower, upper := Lower(size, fl, b, i), Upper(size, fl, b, i);
    var mid, j := if lower then [] else [b], if upper then i + 2 else i + 1;
    if k < i {
      assert r[k] == fl[k] && r[k + 1] == fl[k + 1];
      assert Apart(size, fl, k);
    } else if k > i + |mid| {
      var m := k - (i + 1 + |mid|) + j;
      assert r[k] == fl[m];
      assert k + 1 < |r| ==> r[k + 1] == fl[m + 1] && Apart(size, fl, m);
    } else if k == i && !lower {
      assert r[k] == fl[i] && r[k + 1] == b;
    } else {
      assert k + 1 < |r| ==> r[k + 1] == fl[j];
      assert upper && i + 2 < |fl| ==> Apart(size, fl, i + 1);
    }
  }

  lemma FreedLive(size: map<nat, nat>, fl: seq<nat>, live: map<nat, nat>, b: nat, i: nat, r: seq<nat>)
    requires Freeing(size, fl, live, b, i) && FreedList(size, fl, b, i, r)
    ensures LiveOk(FreedSize(size, fl, b, i), r, live - {b})
  {
    GapFits(size, fl, live, b, i);
    var s := FreedSize(size, fl, b, i);
    forall a: nat, k: nat ensures Clear(s, r, live - {b}, a, k) {
      FreedClear(size, fl, live, b, i, r, a, k);
    }
    forall a | a in live - {b} ensures a > BASE && a in s && s[a] == live[a] > 0 {
      assert Separate(live, a, b) && Clear(size, fl, live, a, i);
    }
    forall a: nat, c: nat ensures Separate(live - {b}, a, c) {
      assert Separate(live, a, c);
    }
  }

  /** The block that contains b after free. */
  lemma FreedHost(size: map<nat, nat>, fl: seq<nat>, live: map<nat, nat>, b: nat, i: nat, r: seq<nat>)
    requires Freeing(size, fl, live, b, i) && FreedList(size, fl, b, i, r)
    ensures var s := FreedSize(size, fl, b, i);
      var h := if Lower(size, fl, b, i) then i else i + 1;
      && 0 < h < |r| && r[h] in s
      && r[h] == (if Lower(size, fl, b, i) then fl[i] else b)
      && r[h] + s[r[h]] == b + Grown(size, fl, b, i)
  {
    GapFits(size, fl, live, b, i);
  }

  /** Another free block keeps its place and its size. */
  lemma FreedOther(size: map<nat, nat>, fl: seq<nat>, live: map<nat, nat>, b: nat, i: nat, r: seq<nat>, k: nat)
    requires Freeing(size, fl, live, b, i) && FreedList(size, fl, b, i, r)
    requires 0 < k < |r| && k != if Lower(size, fl, b, i) then i else i + 1
    ensures var s := FreedSize(size, fl, b, i);
      var shift := (if Upper(size, fl, b, i) then 1 else 0) - (if Lower(size, fl, b, i) then 0 else 1);
      var m := if k <= i then k else k + shift;
      0 < m < |fl| && r[k] == fl[m] && r[k] in s && s[r[k]] == size[fl[m]]
  {
    GapFits(size, fl, live, b, i);
  }

  /** No other live block overlaps a free block after free. */
  lemma FreedClear(size: map<nat, nat>, fl: seq<nat>, live: map<nat, nat>, b: nat, i: nat, r: seq<nat>, a: nat, k: nat)
    requires Freeing(size, fl, live, b, i) && FreedList(size, fl, b, i, r)
    ensures Clear(FreedSize(size, fl, b, i), r, live - {b}, a, k)
  {
    if a in live - {b} && 0 < k < |r| {
      if k == (if Lower(size, fl, b, i) then i else i + 1) {
        FreedHost(size, fl, live, b, i, r);
        GapFits(size, fl, live, b, i);
        assert Separate(live, a, b) && Clear(size, fl, live, a, i) && Clear(size, fl, live, a, i + 1);
      } else {
        FreedOther(size, fl, live, b, i, r, k);
        var shift := (if Upper(size, fl, b, i) then 1 else 0) - (if Lower(size, fl, b, i) then 0 else 1);
        assert Clear(size, fl, live, a, if k <= i then k else k + shift);
      }
    }
  }

  /** Where the units of the old blocks are after free. */
  lemma FreedKeeps(size: map<nat, nat>, fl: seq<nat>, live: map<nat, nat>, b: nat, i: nat, r: seq<nat>, u: nat)
    requires Freeing(size, fl, live, b, i) && FreedList(size, fl, b, i, r)
    requires InFree(size, fl, u) || InLive(live, u)
    ensures InFree(FreedSize(size, fl, b, i), r, u) || InLive(live - {b}, u)
  {
    GapFits(size, fl, live, b, i);
    FreedHost(size, fl, live, b, i, r);
    var lower, upper := Lower(size, fl, b, i), Upper(size, fl, b, i);
    var s, h := FreedSize(size, fl, b, i), if lower then i else i + 1;
    if Within(u, r[h], s[r[h]]) {
    } else if InFree(size, fl, u) {
      var m :| 0 < m < |fl| && fl[m] in size && Within(u, fl[m], size[fl[m]]);
      var k := if m <= i then m else m - (if upper then 1 else 0) + (if lower then 0 else 1);
      FreedOther(size, fl, live, b, i, r, k);
      assert Within(u, r[k], s[r[k]]);
    } else {
      var a :| a in live && Within(u, a, live[a]);
      assert a in live - {b} && Within(u, a, (live - {b})[a]);
    }
  }

  /** Free makes up no units. */
  lemma FreedAddsNone(size: map<nat, nat>, fl: seq<nat>, live: map<nat, nat>, b: nat, i: nat, r: seq<nat>, u: nat)
    requires Freeing(size, fl, live, b, i) && FreedList(size, fl, b, i, r)
    requires InFree(FreedSize(size, fl, b, i), r, u) || InLive(live - {b}, u)
    ensures InFree(size, fl, u) || InLive(live, u)
  {
    GapFits(size, fl, live, b, i);
    FreedHost(size, fl, live, b, i, r);
    var lower, upper := Lower(size, fl, b, i), Upper(size, fl, b, i);
    var s, h := FreedSize(size, fl, b, i), if lower then i else i + 1;
    if Within(u, r[h], s[r[h]]) {
      if u < b {
        assert Within(u, fl[i], size[fl[i]]);
      } else if u < b + size[b] {
        assert b in live && Within(u, b, live[b]);
      } else {
        assert Within(u, fl[i + 1], size[fl[i + 1]]);
      }
    } else if InFree(s, r, u) {
      var k :| 0 < k < |r| && r[k] in s && Within(u, r[k], s[r[k]]);
      FreedOther(size, fl, live, b, i, r, k);
    } else {
      var a :| a in live - {b} && Within(u, a, (live - {b})[a]);
      assert a in live && Within(u, a, live[a]);
    }
  }

  lemma FreedConserved(size: map<nat, nat>, fl: seq<nat>, live: map<nat, nat>, b: nat, i: nat, r: seq<nat>,
                       arena: set<nat>)
    requires Freeing(size, fl, live, b, i) && FreedList(size, fl, b, i, r) && Conserved(size, fl, live, arena)
    ensures Conserved(FreedSize(size, fl, b, i), r, live - {b}, arena)
  {
    var s := FreedSize(size, fl, b, i);
    forall u: nat ensures UnitOk(s, r, live - {b}, arena, u) {
      assert UnitOk(size, fl, live, arena, u);
      if InFree(size, fl, u) || InLive(live, u) { FreedKeeps(size, fl, live, b, i, r, u); }
      if InFree(s, r, u) || InLive(live - {b}, u) { FreedAddsNone(size, fl, live, b, i, r, u); }
    }
  }

  // ---- malloc

  lemma FreeBlocksDisjoint(size: map<nat, nat>, fl: seq<nat>, a: nat, b: nat)
    requires Ascending(fl) && Coalesced(size, fl) && 0 < a < b < |fl|
    ensures fl[a] + size[fl[a]] < fl[b]
  {
    assert Apart(size, fl, a);
  }

  /** The sizes after a free block p gives away n units, all of it or its upper end. */
  ghost function TakenAt(size: map<nat, nat>, p: nat, n: nat): nat
    requires p in size && n <= size[p]
  {
    p + size[p] - n
  }

  ghost function TakenSize(size: map<nat, nat>, p: nat, n: nat): map<nat, nat>
    requires p in size && n <= size[p]
  {
    if size[p] == n then size else size[p := size[p] - n][TakenAt(size, p, n) := n]
  }

  ghost predicate Taking(size: map<nat, nat>, fl: seq<nat>, live: map<nat, nat>, i: nat, n: nat) {
    && Ascending(fl) && Coalesced(size, fl) && LiveOk(size, fl, live)
    && i + 1 < |fl| && 0 < n <= size[fl[i + 1]]
  }

  ghost predicate TakenList(size: map<nat, nat>, fl: seq<nat>, i: nat, n: nat, r: seq<nat>)
    requires i + 1 < |fl| && fl[i + 1] in size
  {
    if size[fl[i + 1]] == n then Spliced(fl, i, [], i + 2, r) else r == fl
  }

  /** The units taken belong to no live block and to no other free block. */
  lemma TakenFresh(size: map<nat, nat>, fl: seq<nat>, live: map<nat, nat>, i: nat, n: nat)
    requires Taking(size, fl, live, i, n)
    ensures var q := TakenAt(size, fl[i + 1], n);
      && q > BASE && q !in live
      && (forall a :: a in live ==> Disjoint(a, live[a], q, n))
      && (forall k :: 0 < k < |fl| && k != i + 1 ==> fl[k] != q && Disjoint(q, n, fl[k], size[fl[k]]))
      && (q != fl[i + 1] ==> forall k :: 0 <= k < |fl| ==> fl[k] != q)
  {
    var p := fl[i + 1];
    forall k | 0 < k < |fl| && k != i + 1 ensures Disjoint(p, size[p], fl[k], size[fl[k]]) {
      if k < i + 1 { FreeBlocksDisjoint(size, fl, k, i + 1); } else { FreeBlocksDisjoint(size, fl, i + 1, k); }
    }
    forall a | a in live ensures a != p && Disjoint(a, live[a], p, size[p]) {
      assert Clear(size, fl, live, a, i + 1);
    }
  }

  lemma TakenCoalesced(size: map<nat, nat>, fl: seq<nat>, live: map<nat, nat>, i: nat, n: nat, r: seq<nat>)
    requires Taking(size, fl, live, i, n) && TakenList(size, fl, i, n, r)
    ensures Ascending(r) && Coalesced(TakenSize(size, fl[i + 1], n), r)
  {
    var p := fl[i + 1];
    var s := TakenSize(size, p, n);
    TakenFresh(size, fl, live, i, n);
    if size[p] == n { SpliceAscending(fl, i, [], i + 2, r); }
    forall k | 0 < k < |r| - 1 ensures Apart(s, r, k) {
      if size[p] != n {
        assert Apart(size, fl, k);
      } else if k == i {
        FreeBlocksDisjoint(size, fl, i, i + 2);
      } else {
        assert Apart(size, fl, if k < i then k else k + 1);
      }
    }
  }

  lemma TakenLive(size: map<nat, nat>, fl: seq<nat>, live: map<nat, nat>, i: nat, n: nat, r: seq<nat>)
    requires Taking(size, fl, live, i, n) && TakenList(size, fl, i, n, r)
    ensures LiveOk(TakenSize(size, fl[i + 1], n), r, live[TakenAt(size, fl[i + 1], n) := n])
  {
    var p := fl[i + 1];
    var q, s := TakenAt(size, p, n), TakenSize(size, p, n);
    TakenFresh(size, fl, live, i, n);
    var live' := live[q := n];
    forall a | a in live' ensures a > BASE && a in s && s[a] == live'[a] > 0 {
      assert Clear(size, fl, live, a, i + 1);
    }
    forall a: nat, c: nat ensures Separate(live', a, c) {
      assert Separate(live, a, c);
    }
    forall a: nat, k: nat ensures Clear(s, r, live', a, k) {
      TakenClear(size, fl, live, i, n, r, a, k);
    }
  }

  lemma TakenClear(size: map<nat, nat>, fl: seq<nat>, live: map<nat, nat>, i: nat, n: nat, r: seq<nat>, a: nat, k: nat)
    requires Taking(size, fl, live, i, n) && TakenList(size, fl, i, n, r)
    ensures Clear(TakenSize(size, fl[i + 1], n), r, live[TakenAt(size, fl[i + 1], n) := n], a, k)
  {
    TakenFresh(size, fl, live, i, n);
    if 0 < k < |r| {
      var m := if size[fl[i + 1]] != n || k <= i then k else k + 1;
      assert r[k] == fl[m];
      assert Clear(size, fl, live, a, m);
    }
  }

  lemma TakenConserved(size: map<nat, nat>, fl: seq<nat>, live: map<nat, nat>, i: nat, n: nat, r: seq<nat>,
                       arena: set<nat>)
    requires Taking(size, fl, live, i, n) && TakenList(size, fl, i, n, r) && Conserved(size, fl, live, arena)
    ensures Conserved(TakenSize(size, fl[i + 1], n), r, live[TakenAt(size, fl[i + 1], n) := n], arena)
  {
    var s, live' := TakenSize(size, fl[i + 1], n), live[TakenAt(size, fl[i + 1], n) := n];
    forall u: nat ensures UnitOk(s, r, live', arena, u) {
      assert UnitOk(size, fl, live, arena, u);
      if InFree(size, fl, u) || InLive(live, u) { TakenKeeps(size, fl, live, i, n, r, u); }
      if InFree(TakenSize(size, fl[i + 1], n), r, u) || InLive(live[TakenAt(size, fl[i + 1], n) := n], u) {
        TakenAddsNone(size, fl, live, i, n, r, u);
      }
    }
  }

  lemma TakenKeeps(size: map<nat, nat>, fl: seq<nat>, live: map<nat, nat>, i: nat, n: nat, r: seq<nat>, u: nat)
    requires Taking(size, fl, live, i, n) && TakenList(size, fl, i, n, r)
    requires InFree(size, fl, u) || InLive(live, u)
    ensures InFree(TakenSize(size, fl[i + 1], n), r, u) || InLive(live[TakenAt(size, fl[i + 1], n) := n], u)
  {
    var p := fl[i + 1];
    var q, s := TakenAt(size, p, n), TakenSize(size, p, n);
    var live' := live[q := n];
    TakenFresh(size, fl, live, i, n);
    if Within(u, q, n) {
      assert q in live' && Within(u, q, live'[q]);
    } else if InFree(size, fl, u) {
      var m :| 0 < m < |fl| && fl[m] in size && Within(u, fl[m], size[fl[m]]);
      var k := if size[p] != n || m <= i then m else m - 1;
      assert r[k] == fl[m] && Within(u, r[k], s[r[k]]);
    } else {
      var a :| a in live && Within(u, a, live[a]);
      assert a in live' && Within(u, a, live'[a]);
    }
  }

  lemma TakenAddsNone(size: map<nat, nat>, fl: seq<nat>, live: map<nat, nat>, i: nat, n: nat, r: seq<nat>, u: nat)
    requires Taking(size, fl, live, i, n) && TakenList(size, fl, i, n, r)
    requires InFree(TakenSize(size, fl[i + 1], n), r, u) || InLive(live[TakenAt(size, fl[i + 1], n) := n], u)
    ensures InFree(size, fl, u) || InLive(live, u)
  {
    var p := fl[i + 1];
    var q, s := TakenAt(size, p, n), TakenSize(size, p, n);
    TakenFresh(size, fl, live, i, n);
    if InFree(s, r, u) {
      var k :| 0 < k < |r| && r[k] in s && Within(u, r[k], s[r[k]]);
      var m := if size[p] != n || k <= i then k else k + 1;
      assert r[k] == fl[m] && Within(u, fl[m], size[fl[m]]);
    } else {
      var a :| a in live[q := n] && Within(u, a, live[q := n][a]);
      if a == q {
        assert Within(u, p, size[p]);
      } else {
        assert a in live && Within(u, a, live[a]);
      }
    }
  }

  // ---- The request size

  /** nunits in malloc, in 32-bit arithmetic. */
  function Units(nbytes: nat): (n: nat)
    ensures 0 < n <= WORD / UNIT
  {
    (nbytes + UNIT - 1) % WORD / UNIT + 1
  }

  /** What morecore asks for: at least 4096 units. */
  function Asked(nu: nat): nat {
    if nu < 4096 then 4096 else nu
  }

  /** The argument that sbrk gets: a product of 32 bits, taken as a signed int. */
  function SbrkArg(nu: nat): int {
    var product := Asked(nu) * UNIT % WORD;
    if product < WORD / 2 then product else product - WORD
  }

  /** The block has room for the request behind its header exactly when the addition does
      not wrap around. */
  lemma RoomExactly(nbytes: nat)
    requires nbytes < WORD
    ensures (Units(nbytes) - 1) * UNIT >= nbytes <==> nbytes <= WORD - UNIT
  {}

  /** sbrk is asked for the units that morecore then treats as its own exactly when they are fewer
      than 2^28; otherwise it is asked for nothing, or to shrink the process. */
  lemma AskedExactly(nu: nat)
    requires nu <= WORD / UNIT
    ensures SbrkArg(nu) == Asked(nu) * UNIT <==> nu < LIMIT
    ensures nu >= LIMIT ==> SbrkArg(nu) <= 0
  {}

  /** The sizes for which malloc, when it has to grow the heap, both counts enough units and asks
      for them. */
  lemma ServedExactly(nbytes: nat)
    requires nbytes < WORD
    ensures (Units(nbytes) - 1) * UNIT >= nbytes && SbrkArg(Units(nbytes)) == Asked(Units(nbytes)) * UNIT
      <==> nbytes <= 0x7FFF_FFF0
  {
    RoomExactly(nbytes);
    AskedExactly(Units(nbytes));
  }

  /** morecore makes sbrk shrink the process by exactly its size. */
  predicate LosesHeap(top: nat, nu: nat) {
    top * UNIT + SbrkArg(nu) == 0
  }

  /** With the break at top units, these are the sizes: eight of them, one header and the whole
      process short of 2^32 bytes. */
  lemma LostExactly(top: nat, nbytes: nat)
    requires 0 < top < LIMIT && nbytes < WORD
    ensures Units(nbytes) >= LIMIT && LosesHeap(top, Units(nbytes)) <==>
      WORD - (top + 2) * UNIT < nbytes <= WORD - (top + 1) * UNIT
  {
    AskedExactly(Units(nbytes));
  }

  /** A process of three pages that asks for such a size. */
  lemma LostRequest()
    ensures Units(0xFFFF_CFF8) >= LIMIT && SbrkArg(Units(0xFFFF_CFF8)) == -0x3000
      && LosesHeap(0x600, Units(0xFFFF_CFF8))
  {}

  /** Three sizes beyond: the first makes sbrk shrink the process by nearly 2^31 bytes, which growproc
      takes for no change in a smaller process; the second asks for no memory at all; the third
      counts one unit. */
  lemma HugeRequests()
    ensures Units(0x8000_0000) == LIMIT + 1 && SbrkArg(LIMIT + 1) == -0x7FFF_FFF8
    ensures Units(0xFFFF_FFF8) == 2 * LIMIT && SbrkArg(2 * LIMIT) == 0
    ensures Units(0xFFFF_FFF9) == 1
  {}

  // ---- The allocator

  ghost predicate Below(size: map<nat, nat>, fl: seq<nat>, live: map<nat, nat>, top: nat) {
    && BASE < top
    && (forall a: nat :: LiveBelow(live, top, a))
    && (forall i: nat :: FreeBelow(size, fl, top, i))
  }

  ghost predicate LiveBelow(live: map<nat, nat>, top: nat, a: nat) {
    a in live ==> a + live[a] <= top
  }

  ghost predicate FreeBelow(size: map<nat, nat>, fl: seq<nat>, top: nat, i: nat) {
    0 < i < |fl| && fl[i] in size ==> fl[i] + size[fl[i]] <= top
  }

  lemma FindGap(fl: seq<nat>, b: nat) returns (i: nat)
    requires Ascending(fl) && BASE < b && forall k :: 0 <= k < |fl| ==> fl[k] != b
    ensures Gap(fl, b, i)
  {
    i := 0;
    while i + 1 < |fl| && fl[i + 1] < b
      invariant i < |fl| && fl[i] < b
    {
      i := i + 1;
    }
  }

  /** How far it is around the list from entry k to entry f, at least one step. */
  function Around(n: nat, k: nat, f: nat): nat
    requires k < n && f < n
  {
    if k < f then f - k else f - k + n
  }

  /** The links after free of b behind p. */
  ghost function FreedNext(next: map<nat, nat>, b: nat, p: nat, upper: bool, lower: bool): map<nat, nat>
    requires p in next && (upper ==> next[p] in next)
  {
    var t := if upper then next[next[p]] else next[p];
    next[b := t][p := if lower then t else b]
  }

  /** The units [b, b + n) lie inside one free block. */
  ghost predicate Hosted(size: map<nat, nat>, fl: seq<nat>, b: nat, n: nat) {
    exists k :: 0 < k < |fl| && fl[k] in size && fl[k] <= b && b + n <= fl[k] + size[fl[k]]
  }

  ghost predicate HasRoom(size: map<nat, nat>, fl: seq<nat>, n: nat) {
    exists k :: 0 < k < |fl| && fl[k] in size && size[fl[k]] >= n
  }

  lemma HostedRoom(size: map<nat, nat>, fl: seq<nat>, b: nat, n: nat, m: nat)
    requires Hosted(size, fl, b, n) && m <= n
    ensures HasRoom(size, fl, m)
  {}

  lemma NotListed(size: map<nat, nat>, fl: seq<nat>, live: map<nat, nat>, b: nat)
    requires Ascending(fl) && Coalesced(size, fl) && LiveOk(size, fl, live) && b in live
    ensures BASE < b && forall k :: 0 <= k < |fl| ==> fl[k] != b
  {
    forall k | 0 < k < |fl| ensures fl[k] != b { assert Clear(size, fl, live, b, k); }
  }

  /** What free finds at the gap is what the links and sizes say about the list. */
  lemma FreeReady(next: map<nat, nat>, size: map<nat, nat>, fl: seq<nat>, live: map<nat, nat>, b: nat, i: nat)
    requires Ring(next, fl) && Freeing(size, fl, live, b, i)
    ensures b in size && fl[i] in size && fl[i] in next && fl[i] != b
    ensures b + size[b] == next[fl[i]] <==> Upper(size, fl, b, i)
    ensures Upper(size, fl, b, i) ==>
      next[fl[i]] == fl[i + 1] && fl[i + 1] in next && fl[i + 1] in size && fl[i + 1] != b
  {
    GapFits(size, fl, live, b, i);
    assert Link(next, fl, i) && Link(next, fl, i + 1);
  }

  lemma FreedRelinked(next: map<nat, nat>, size: map<nat, nat>, fl: seq<nat>, live: map<nat, nat>, b: nat, i: nat)
    requires Ring(next, fl) && Freeing(size, fl, live, b, i)
    ensures b in size && fl[i] in size && fl[i] in next && (Upper(size, fl, b, i) ==> next[fl[i]] in next)
    ensures var upper, lower := Upper(size, fl, b, i), Lower(size, fl, b, i);
      Relinked(FreedNext(next, b, fl[i], upper, lower), fl, i, if lower then [] else [b], if upper then i + 2
               else i + 1)
  {
    GapFits(size, fl, live, b, i);
    FreeReady(next, size, fl, live, b, i);
    RelinkFreed(next, fl, b, i, Upper(size, fl, b, i), Lower(size, fl, b, i));
  }

  lemma RelinkFreed(next: map<nat, nat>, fl: seq<nat>, b: nat, i: nat, upper: bool, lower: bool)
    requires Ring(next, fl) && i < |fl| && (upper ==> i + 1 < |fl|)
    requires forall k :: 0 <= k < |fl| ==> fl[k] != b && (k != i ==> fl[k] != fl[i])
    ensures upper ==> next[fl[i]] in next
    ensures Relinked(FreedNext(next, b, fl[i], upper, lower), fl, i, if lower then [] else [b], if upper then i + 2
                     else i + 1)
  {
    assert Link(next, fl, i) && Link(next, fl, i + 1);
    var next' := FreedNext(next, b, fl[i], upper, lower);
    forall k: nat | k != i ensures Link(next', fl, k) {
      assert Link(next, fl, k);
    }
  }

  ghost function FreedEntries(size: map<nat, nat>, fl: seq<nat>, b: nat, i: nat): seq<nat>
    requires b in size && i < |fl| && fl[i] in size
  {
    fl[..i + 1] + (if Lower(size, fl, b, i) then [] else [b]) + fl[if Upper(size, fl, b, i) then i + 2 else i + 1..]
  }

  /** Everything that free keeps. */
  lemma FreedGood(next: map<nat, nat>, size: map<nat, nat>, fl: seq<nat>, live: map<nat, nat>, b: nat, i: nat,
                  r: seq<nat>, arena: set<nat>, top: nat)
    requires Ring(next, fl) && Freeing(size, fl, live, b, i) && b in size && r == FreedEntries(size, fl, b, i)
    requires Conserved(size, fl, live, arena) && Below(size, fl, live, top)
    ensures fl[i] in next && (Upper(size, fl, b, i) ==> next[fl[i]] in next) && fl[i] in r
    ensures var upper, lower := Upper(size, fl, b, i), Lower(size, fl, b, i);
      var next', size' := FreedNext(next, b, fl[i], upper, lower), FreedSize(size, fl, b, i);
      && Good(next', size', r, live - {b}) && Conserved(size', r, live - {b}, arena)
      && Below(size', r, live - {b}, top) && Hosted(size', r, b, live[b])
  {
    var mid, j := if Lower(size, fl, b, i) then [] else [b], if Upper(size, fl, b, i) then i + 2 else i + 1;
    SpliceIs(fl, i, mid, j);
    FreedRelinked(next, size, fl, live, b, i);
    SpliceRing(FreedNext(next, b, fl[i], Upper(size, fl, b, i), Lower(size, fl, b, i)), fl, i, mid, j, r);
    FreedCoalesced(size, fl, live, b, i, r);
    FreedLive(size, fl, live, b, i, r);
    FreedConserved(size, fl, live, b, i, r, arena);
    FreedBelow(size, fl, live, b, i, r, top);
    FreedHost(size, fl, live, b, i, r);
    GapFits(size, fl, live, b, i);
    assert r[i] == fl[i];
  }

  lemma RelinkTaken(next: map<nat, nat>, fl: seq<nat>, i: nat)
    requires Ring(next, fl) && i + 1 < |fl| && forall k :: 0 <= k < |fl| && k != i ==> fl[k] != fl[i]
    ensures Relinked(next[fl[i] := next[fl[i + 1]]], fl, i, [], i + 2)
  {
    assert Link(next, fl, i) && Link(next, fl, i + 1);
    var next' := next[fl[i] := next[fl[i + 1]]];
    forall k: nat | k != i ensures Link(next', fl, k) {
      assert Link(next, fl, k);
    }
  }

  ghost function TakenNext(next: map<nat, nat>, size: map<nat, nat>, prev: nat, p: nat, n: nat): map<nat, nat>
    requires p in next && p in size
  {
    if size[p] == n then next[prev := next[p]] else next
  }

  ghost function TakenEntries(size: map<nat, nat>, fl: seq<nat>, i: nat, n: nat): seq<nat>
    requires i + 1 < |fl| && fl[i + 1] in size
  {
    if size[fl[i + 1]] == n then fl[..i + 1] + fl[i + 2..] else fl
  }

  /** Everything that taking n units out of a free block keeps. */
  lemma TakenGood(next: map<nat, nat>, size: map<nat, nat>, fl: seq<nat>, live: map<nat, nat>, i: nat, n: nat,
                  r: seq<nat>, arena: set<nat>, top: nat)
    requires Ring(next, fl) && Taking(size, fl, live, i, n) && r == TakenEntries(size, fl, i, n)
    requires Conserved(size, fl, live, arena) && Below(size, fl, live, top)
    ensures fl[i] in r
    ensures var p := fl[i + 1]; var q := TakenAt(size, p, n);
      var next', size' := TakenNext(next, size, fl[i], p, n), TakenSize(size, p, n);
      && Good(next', size', r, live[q := n]) && Conserved(size', r, live[q := n], arena)
      && Below(size', r, live[q := n], top) && q !in live && q > BASE
  {
    var p := fl[i + 1];
    if size[p] == n {
      assert fl[..i + 1] + fl[i + 2..] == fl[..i + 1] + [] + fl[i + 2..];
      SpliceIs(fl, i, [], i + 2);
      RelinkTaken(next, fl, i);
      SpliceRing(next[fl[i] := next[p]], fl, i, [], i + 2, r);
    }
    assert r[i] == fl[i];
    TakenCoalesced(size, fl, live, i, n, r);
    TakenLive(size, fl, live, i, n, r);
    TakenConserved(size, fl, live, i, n, r, arena);
    TakenFresh(size, fl, live, i, n);
    TakenBelow(size, fl, live, i, n, r, top);
  }

  lemma TakenBelow(size: map<nat, nat>, fl: seq<nat>, live: map<nat, nat>, i: nat, n: nat, r: seq<nat>, top: nat)
    requires Taking(size, fl, live, i, n) && TakenList(size, fl, i, n, r) && Below(size, fl, live, top)
    ensures Below(TakenSize(size, fl[i + 1], n), r, live[TakenAt(size, fl[i + 1], n) := n], top)
  {
    TakenFresh(size, fl, live, i, n);
    var s, live' := TakenSize(size, fl[i + 1], n), live[TakenAt(size, fl[i + 1], n) := n];
    forall k: nat ensures FreeBelow(s, r, top, k) {
      var m: nat := if size[fl[i + 1]] != n || k <= i then k else k + 1;
      assert 0 < k < |r| ==> r[k] == fl[m];
      assert FreeBelow(size, fl, top, m);
    }
    forall a: nat ensures LiveBelow(live', top, a) {
      assert LiveBelow(live, top, a) && FreeBelow(size, fl, top, i + 1);
    }
  }

  lemma AddRemove(m: map<nat, nat>, k: nat, v: nat)
    requires k !in m
    ensures m[k := v] - {k} == m
  {}

  ghost function Interval(p: nat, n: nat): set<nat> {
    set u: nat | p <= u < p + n && Within(u, p, n)
  }

  /** A region above the break is new to every block. */
  lemma RegionNew(size: map<nat, nat>, fl: seq<nat>, live: map<nat, nat>, top: nat, p: nat)
    requires Ascending(fl) && Coalesced(size, fl) && LiveOk(size, fl, live) && Below(size, fl, live, top) && top <= p
    ensures p !in live && forall k :: 0 <= k < |fl| ==> fl[k] != p
  {
    assert LiveBelow(live, top, p);
    forall k | 0 < k < |fl| ensures fl[k] != p { assert FreeBelow(size, fl, top, k); }
  }

  lemma RegionCoalesced(size: map<nat, nat>, fl: seq<nat>, p: nat, n: nat)
    requires Coalesced(size, fl) && forall k :: 0 <= k < |fl| ==> fl[k] != p
    ensures Coalesced(size[p := n], fl)
  {
    var s := size[p := n];
    forall k | 0 < k < |fl| - 1 ensures Apart(s, fl, k) { assert Apart(size, fl, k); }
  }

  lemma RegionLiveOk(size: map<nat, nat>, fl: seq<nat>, live: map<nat, nat>, top: nat, p: nat, n: nat)
    requires LiveOk(size, fl, live) && Below(size, fl, live, top) && top <= p && 0 < n
    requires p !in live && forall k :: 0 <= k < |fl| ==> fl[k] != p
    ensures LiveOk(size[p := n], fl, live[p := n]) && Below(size[p := n], fl, live[p := n], p + n)
  {
    var s, live' := size[p := n], live[p := n];
    forall a: nat, b: nat ensures Separate(live', a, b) {
      assert Separate(live, a, b) && LiveBelow(live, top, a) && LiveBelow(live, top, b);
    }
    forall a: nat, k: nat ensures Clear(s, fl, live', a, k) {
      assert Clear(size, fl, live, a, k) && FreeBelow(size, fl, top, k);
    }
    var top' := p + n;
    forall a: nat ensures LiveBelow(live', top', a) { assert LiveBelow(live, top, a); }
    forall k: nat ensures FreeBelow(s, fl, top', k) { assert FreeBelow(size, fl, top, k); }
  }

  /** A fresh region counts as live until free links it in. */
  lemma RegionConserved(size: map<nat, nat>, fl: seq<nat>, live: map<nat, nat>, arena: set<nat>, top: nat, p: nat,
                        n: nat)
    requires Conserved(size, fl, live, arena) && Below(size, fl, live, top) && top <= p
    requires p !in live && forall k :: 0 <= k < |fl| ==> fl[k] != p && fl[k] in size
    ensures Interval(p, n) !! arena
    ensures Conserved(size[p := n], fl, live[p := n], arena + Interval(p, n))
  {
    var s, live', arena' := size[p := n], live[p := n], arena + Interval(p, n);
    forall u: nat ensures UnitOk(s, fl, live', arena', u) {
      assert UnitOk(size, fl, live, arena, u);
      RegionFree(size, size[p := n], fl, u);
      RegionLive(live, p, n, u);
      assert u in Interval(p, n) <==> Within(u, p, n);
    }
    forall u | u in arena ensures u < top {
      assert UnitOk(size, fl, live, arena, u);
      UsedBelow(size, fl, live, top, u);
    }
  }

  lemma UsedBelow(size: map<nat, nat>, fl: seq<nat>, live: map<nat, nat>, top: nat, u: nat)
    requires Below(size, fl, live, top) && (InFree(size, fl, u) || InLive(live, u))
    ensures u < top
  {
    if InFree(size, fl, u) {
      var k: nat :| 0 < k < |fl| && fl[k] in size && Within(u, fl[k], size[fl[k]]);
      assert FreeBelow(size, fl, top, k);
    } else {
      var a :| a in live && Within(u, a, live[a]);
      assert LiveBelow(live, top, a);
    }
  }

  lemma RegionFree(size: map<nat, nat>, s: map<nat, nat>, fl: seq<nat>, u: nat)
    requires forall k :: 0 <= k < |fl| ==> fl[k] in size && fl[k] in s && s[fl[k]] == size[fl[k]]
    ensures InFree(s, fl, u) <==> InFree(size, fl, u)
  {
    if InFree(s, fl, u) {
      var k :| 0 < k < |fl| && fl[k] in s && Within(u, fl[k], s[fl[k]]);
      assert Within(u, fl[k], size[fl[k]]);
    }
    if InFree(size, fl, u) {
      var k :| 0 < k < |fl| && fl[k] in size && Within(u, fl[k], size[fl[k]]);
      assert Within(u, fl[k], s[fl[k]]);
    }
  }

  lemma RegionLive(live: map<nat, nat>, p: nat, n: nat, u: nat)
    requires p !in live
    ensures InLive(live[p := n], u) <==> InLive(live, u) || Within(u, p, n)
  {
    var l := live[p := n];
    if InLive(l, u) {
      var a :| a in l && Within(u, a, l[a]);
      assert a != p ==> a in live && Within(u, a, live[a]);
    }
    if InLive(live, u) {
      var a :| a in live && Within(u, a, live[a]);
      assert a in l && Within(u, a, l[a]);
    }
    if Within(u, p, n) { assert p in l && Within(u, p, l[p]); }
  }

  /** The entries after f up to k, going around the list. */
  ghost predicate Passed(f: nat, k: nat, m: nat) {
    if f <= k then f < m <= k else m > f || m <= k
  }

  ghost predicate AllSmall(size: map<nat, nat>, fl: seq<nat>, f: nat, k: nat, n: nat)
    requires forall m :: 0 <= m < |fl| ==> fl[m] in size
  {
    forall m :: 0 <= m < |fl| && Passed(f, k, m) ==> size[fl[m]] < n
  }

  /** NoMemory and Lost are the return value 0. Unbacked: sbrk has succeeded without giving the memory
      that morecore takes for its own. Lost: sbrk was asked to shrink the process by exactly its size,
      has freed all of its pages and has failed. Nothing is claimed of what happens from then on. */
  datatype Outcome = Block(header: nat) | NoMemory | Unbacked | Lost

  class Heap {
    var next: map<nat, nat>
    var size: map<nat, nat>
    /** 0 before the first call of malloc */
    var freep: nat
    /** the break, as far as sbrk has moved it */
    var top: nat
    ghost var fl: seq<nat>
    ghost var live: map<nat, nat>
    ghost var arena: set<nat>

    ghost predicate Valid()
      reads this
    {
      && top < LIMIT && Below(size, fl, live, top)
      && Conserved(size, fl, live, arena)
      && if freep == 0 then fl == [] && live == map[] else freep in fl && Good(next, size, fl, live)
    }

    constructor (heapStart: nat)
      requires BASE < heapStart < LIMIT
      ensures Valid() && live == map[] && arena == {}
    {
      next, size, freep, top := map[], map[], 0, heapStart;
      fl, live, arena := [], map[], {};
    }

    /** The search of free: from freep around the list to the gap where b belongs. */
    method FindPlace(b: nat) returns (p: nat, ghost i: nat)
      requires Ring(next, fl) && Ascending(fl) && freep in fl
      requires BASE < b && forall k :: 0 <= k < |fl| ==> fl[k] != b
      ensures Gap(fl, b, i) && p == fl[i]
      ensures p in next && Between(p, b, next[p])
    {
      ghost var gap := FindGap(fl, b);
      p := freep;
      i :| 0 <= i < |fl| && fl[i] == freep;
      while !(b > p && b < next[p])
        invariant i < |fl| && p == fl[i]
        decreases if i <= gap then gap - i else gap - i + |fl|
      {
        assert Link(next, fl, i);
        if p >= next[p] && (b > p || b < next[p]) {
          break;
        }
        p := next[p];
        i := Succ(|fl|, i);
      }
      assert Link(next, fl, i);
    }

    /** The rest of free: coalesce b with the block above and the block below, or link it in. */
    method Insert(b: nat, p: nat)
      requires b in size && p in size && p in next && p != b
      requires b + size[b] == next[p] ==> next[p] in next && next[p] in size && next[p] != b
      modifies this`next, this`size, this`freep
      ensures var upper, lower := b + old(size)[b] == old(next)[p], p + old(size)[p] == b;
        && next == FreedNext(old(next), b, p, upper, lower)
        && size == FreedSizes(old(size), b, p, if upper then old(size)[old(next)[p]] else 0, lower)
      ensures freep == p
    {
      if b + size[b] == next[p] {
        size := size[b := size[b] + size[next[p]]];
        next := next[b := next[next[p]]];
      } else {
        assert size == size[b := size[b]];
        next := next[b := next[p]];
      }
      if p + size[p] == b {
        size := size[p := size[p] + size[b]];
        next := next[p := next[b]];
      } else {
        next := next[p := b];
      }
      freep := p;
    }

    /** free of the block whose header is at b: its units become part of one free block. */
    method Free(b: nat)
      requires Valid() && freep != 0 && b in live
      modifies this
      ensures Valid() && freep != 0
      ensures live == old(live) - {b} && arena == old(arena) && top == old(top)
      ensures Hosted(size, fl, b, old(live)[b])
    {
      NotListed(size, fl, live, b);
      var p, i := FindPlace(b);
      FreeReady(next, size, fl, live, b, i);
      FreedGood(next, size, fl, live, b, i, FreedEntries(size, fl, b, i), arena, top);
      ghost var r := FreedEntries(size, fl, b, i);
      Insert(b, p);
      fl := r;
      live := live - {b};
    }

    /** Other code of the process has moved the break up. */
    method Raise(units: nat)
      requires Valid() && top + units < LIMIT
      modifies this`top
      ensures Valid() && top == old(top) + units
    {
      BelowMore(size, fl, live, top, top + units);
      top := top + units;
    }

    /** sys_sbrk over growproc, for n a multiple of the unit. Shrinking below nothing changes nothing
        and succeeds; shrinking to nothing frees every page and is then reported as a failure. */
    method Sbrk(n: int) returns (ok: bool)
      requires n % UNIT == 0 && 0 < top < LIMIT
      modifies this`top
      ensures ok && n > 0 ==> top == old(top) + n / UNIT < LIMIT
      ensures n == 0 ==> ok && top == old(top)
      ensures n < 0 ==> (ok <==> old(top) * UNIT + n != 0)
      ensures ok && n < 0 ==> top == if old(top) * UNIT + n > 0 then (old(top) * UNIT + n) / UNIT else old(top)
      ensures !ok ==> top == old(top)
    {
      if n > 0 {
        ok := *;
        ok := ok && top + n / UNIT < LIMIT;
        if ok {
          top := top + n / UNIT;
        }
      } else {
        ok := top * UNIT + n != 0;
        if n < 0 && top * UNIT + n > 0 {
          top := (top * UNIT + n) / UNIT;
        }
      }
    }

    /** morecore: ask sbrk for at least 4096 units and free them, so that some free block has
        room for nu units. backed: sbrk was asked for as many units as are freed. If it was not,
        nothing is known afterwards, because memory may be gone. */
    method Morecore(nu: nat) returns (ok: bool, backed: bool)
      requires Valid() && freep != 0 && 0 < nu <= WORD / UNIT
      modifies this
      ensures backed <==> nu < LIMIT
      ensures ok && backed ==>
        && Valid() && freep != 0 && live == old(live) && HasRoom(size, fl, nu)
        && Interval(old(top), Asked(nu)) !! old(arena) && arena == old(arena) + Interval(old(top), Asked(nu))
      ensures !ok && backed ==>
        && Valid() && freep != 0 && live == old(live) && arena == old(arena) && size == old(size) && fl == old(fl)
      ensures !backed ==> (ok <==> !LosesHeap(old(top), nu))
    {
      AskedExactly(nu);
      backed := SbrkArg(nu) == Asked(nu) * UNIT;
      var at := top;
      ok := Sbrk(SbrkArg(nu));
      if ok && backed {
        top := at;
        RegionNew(size, fl, live, top, at);
        Extend(at, Asked(nu), nu);
      }
    }

    method Extend(hp: nat, units: nat, ghost nu: nat)
      requires Valid() && freep != 0 && hp >= top && 0 < nu <= units && hp !in live && hp + units < LIMIT
      modifies this
      ensures Valid() && freep != 0 && live == old(live) && HasRoom(size, fl, nu) && top == hp + units
      ensures Interval(hp, units) !! old(arena) && arena == old(arena) + Interval(hp, units)
    {
      AddRemove(live, hp, units);
      Claim(hp, units);
      Free(hp);
      HostedRoom(size, fl, hp, units, nu);
    }

    /** sbrk hands out a region, whose header is then filled in. */
    method Claim(hp: nat, units: nat)
      requires Valid() && freep != 0 && hp >= top && units > 0 && hp + units < LIMIT
      modifies this`top, this`size, this`live, this`arena
      ensures Valid() && top == hp + units && hp !in old(live) && live == old(live)[hp := units]
      ensures Interval(hp, units) !! old(arena) && arena == old(arena) + Interval(hp, units)
    {
      RegionNew(size, fl, live, top, hp);
      RegionCoalesced(size, fl, hp, units);
      RegionLiveOk(size, fl, live, top, hp, units);
      RegionConserved(size, fl, live, arena, top, hp, units);
      top := hp + units;
      size := size[hp := units];
      live := live[hp := units];
      arena := arena + Interval(hp, units);
    }

    /** malloc has found a block with room behind prevp: take all of it, or its upper end. */
    method Take(prevp: nat, p: nat, n: nat, ghost f: nat, ghost i: nat) returns (q: nat)
      requires Searching(prevp, p, f, i, n) && n > 0 && p in size && size[p] >= n
      modifies this
      ensures Valid() && freep != 0 && arena == old(arena)
      ensures q != 0 && q !in old(live) && live == old(live)[q := n]
      ensures n < LIMIT
    {
      AllFit(size, fl, live, top, Succ(|fl|, i));
      q := Split(prevp, p, n, i);
    }

    method Split(prevp: nat, p: nat, n: nat, ghost i: nat) returns (q: nat)
      requires freep != 0 && top < LIMIT && Taking(size, fl, live, i, n) && prevp == fl[i] && p == fl[i + 1]
      requires Ring(next, fl) && Conserved(size, fl, live, arena) && Below(size, fl, live, top)
      modifies this
      ensures Valid() && freep != 0 && arena == old(arena)
      ensures q != 0 && q !in old(live) && live == old(live)[q := n]
    {
      TakenGood(next, size, fl, live, i, n, TakenEntries(size, fl, i, n), arena, top);
      ghost var r := TakenEntries(size, fl, i, n);
      q := Carve(prevp, p, n);
      fl := r;
      live := live[q := n];
    }

    method Carve(prevp: nat, p: nat, n: nat) returns (q: nat)
      requires p in size && n <= size[p] && p in next
      modifies this`next, this`size, this`freep
      ensures freep == prevp && q == TakenAt(old(size), p, n)
      ensures next == TakenNext(old(next), old(size), prevp, p, n) && size == TakenSize(old(size), p, n)
    {
      q := p;
      if size[p] == n {
        next := next[prevp := next[p]];
      } else {
        size := size[p := size[p] - n];
        q := q + size[p];
        size := size[q := n];
      }
      freep := prevp;
    }

    /** base.s.ptr = freep = prevp = &base on the first call. */
    method Start()
      requires Valid()
      modifies this`next, this`size, this`freep, this`fl
      ensures Valid() && freep != 0
    {
      if freep == 0 {
        Started(size, live, arena, top);
        next := next[BASE := BASE];
        size := size[BASE := 0];
        freep := BASE;
        fl := [BASE];
      }
    }

    /** malloc. The result is a block of as many units as the size calls for that overlaps nothing,
        or 0 when no free block has room and sbrk has failed. The list is searched once around from
        freep; morecore succeeds at most once, because the block it frees has room and the search
        comes past it before it is back at freep. A request of 2^28 units or more is never served:
        sbrk succeeds without giving memory, or, for the sizes that LostExactly names, it fails
        after it has freed the whole process. */
    method Malloc(nbytes: nat) returns (r: Outcome, grown: nat)
      requires Valid() && nbytes < WORD
      modifies this
      ensures grown <= 1
      ensures r.Lost? <==> Units(nbytes) >= LIMIT && LosesHeap(old(top), Units(nbytes))
      ensures r.Unbacked? <==> Units(nbytes) >= LIMIT && !LosesHeap(old(top), Units(nbytes))
      ensures r.NoMemory? || r.Block? ==>
        Valid() && freep != 0 && old(arena) <= arena && (grown == 0 ==> arena == old(arena))
      ensures r.NoMemory? ==>
        live == old(live) && arena == old(arena) && grown == 0 && !HasRoom(size, fl, Units(nbytes))
      ensures r.Block? ==> r.header != 0 && r.header !in old(live) && live == old(live)[r.header := Units(nbytes)]
    {
      var n := Units(nbytes);
      Start();
      grown := 0;
      ghost var f := FreepAt();
      ghost var k := f;
      var prevp := freep;
      var p := NextOf(prevp, k);
      while true
        invariant Searching(prevp, p, f, k, n)
        invariant live == old(live) && old(arena) <= arena
        invariant grown <= 1 && (grown == 0 ==> arena == old(arena) && top == old(top))
          && (grown == 1 ==> HasRoom(size, fl, n) && n < LIMIT)
        decreases 1 - grown, Around(|fl|, k, f)
      {
        if size[p] >= n {
          var q := Take(prevp, p, n, f, k);
          return Block(q), grown;
        }
        if p == freep {
          SearchedAll(size, fl, f, k, n);
          var ok, backed := Morecore(n);
          if !ok {
            return if backed then NoMemory else Lost, grown;
          }
          grown := grown + 1;
          if !backed {
            return Unbacked, grown;
          }
          p := freep;
          f := FreepAt();
          k := f;
        } else {
          Advance(size, fl, f, k, n);
          k := Succ(|fl|, k);
        }
        prevp := p;
        p := NextOf(prevp, k);
      }
    }

    /** Where freep stands in the list. */
    ghost method FreepAt() returns (f: nat)
      requires Valid() && freep != 0
      ensures f < |fl| && freep == fl[f]
    {
      f :| 0 <= f < |fl| && fl[f] == freep;
    }

    /** The search stands at p behind prevp; everything since freep has been too small. */
    ghost predicate Searching(prevp: nat, p: nat, f: nat, k: nat, n: nat)
      reads this
    {
      && Valid() && freep != 0
      && f < |fl| && k < |fl| && freep == fl[f] && prevp == fl[k] && p == fl[Succ(|fl|, k)]
      && AllSmall(size, fl, f, k, n)
    }

    /** p->s.ptr */
    method NextOf(p: nat, ghost k: nat) returns (r: nat)
      requires freep != 0 && Ring(next, fl) && k < |fl| && p == fl[k]
      ensures r == fl[Succ(|fl|, k)]
    {
      assert Link(next, fl, k);
      r := next[p];
    }
  }

  /** The list with only the static header has no free units. */
  lemma Started(size: map<nat, nat>, live: map<nat, nat>, arena: set<nat>, top: nat)
    requires Conserved(size, [], live, arena) && Below(size, [], live, top)
    ensures Conserved(size[BASE := 0], [BASE], live, arena) && Below(size[BASE := 0], [BASE], live, top)
  {
    var s := size[BASE := 0];
    forall u: nat ensures UnitOk(s, [BASE], live, arena, u) { assert UnitOk(size, [], live, arena, u); }
    forall k: nat ensures FreeBelow(s, [BASE], top, k) {}
  }

  lemma BelowMore(size: map<nat, nat>, fl: seq<nat>, live: map<nat, nat>, top: nat, top': nat)
    requires Below(size, fl, live, top) && top <= top'
    ensures Below(size, fl, live, top')
  {
    forall a: nat ensures LiveBelow(live, top', a) { assert LiveBelow(live, top, a); }
    forall k: nat ensures FreeBelow(size, fl, top', k) { assert FreeBelow(size, fl, top, k); }
  }

  /** A free block is smaller than the address space. */
  lemma AllFit(size: map<nat, nat>, fl: seq<nat>, live: map<nat, nat>, top: nat, k: nat)
    requires Coalesced(size, fl) && Below(size, fl, live, top) && k < |fl|
    ensures size[fl[k]] <= top
  {
    assert FreeBelow(size, fl, top, k);
  }

  /** Moving past one more small entry. */
  lemma Advance(size: map<nat, nat>, fl: seq<nat>, f: nat, k: nat, n: nat)
    requires Ascending(fl) && (forall m :: 0 <= m < |fl| ==> fl[m] in size)
    requires f < |fl| && k < |fl| && AllSmall(size, fl, f, k, n)
    requires size[fl[Succ(|fl|, k)]] < n && Succ(|fl|, k) != f
    ensures AllSmall(size, fl, f, Succ(|fl|, k), n)
    ensures Around(|fl|, Succ(|fl|, k), f) < Around(|fl|, k, f)
  {}

  /** Back at freep, the whole list has been seen. */
  lemma SearchedAll(size: map<nat, nat>, fl: seq<nat>, f: nat, k: nat, n: nat)
    requires (forall m :: 0 <= m < |fl| ==> fl[m] in size) && f < |fl| && k < |fl|
    requires AllSmall(size, fl, f, k, n) && Succ(|fl|, k) == f && size[fl[f]] < n
    ensures !HasRoom(size, fl, n)
  {}

  lemma FreedBelow(size: map<nat, nat>, fl: seq<nat>, live: map<nat, nat>, b: nat, i: nat, r: seq<nat>, top: nat)
    requires Freeing(size, fl, live, b, i) && FreedList(size, fl, b, i, r) && Below(size, fl, live, top)
    ensures Below(FreedSize(size, fl, b, i), r, live - {b}, top)
  {
    GapFits(size, fl, live, b, i);
    var s := FreedSize(size, fl, b, i);
    forall k: nat ensures FreeBelow(s, r, top, k) {
      if 0 < k < |r| {
        if k == (if Lower(size, fl, b, i) then i else i + 1) {
          FreedHost(size, fl, live, b, i, r);
          assert LiveBelow(live, top, b) && FreeBelow(size, fl, top, i + 1);
        } else {
          FreedOther(size, fl, live, b, i, r, k);
          var shift := (if Upper(size, fl, b, i) then 1 else 0) - (if Lower(size, fl, b, i) then 0 else 1);
          assert FreeBelow(size, fl, top, if k <= i then k else k + shift);
        }
      }
    }
    forall a: nat ensures LiveBelow(live - {b}, top, a) { assert LiveBelow(live, top, a); }
  }
}
