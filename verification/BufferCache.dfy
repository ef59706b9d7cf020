/** The buffer cache of kernel/bio.c: NBUF buffers on a doubly linked list through prev and
    next, most recently used first, with the list head as one more node. */
module BufferCache {
  import opened Basics
  import opened Options
  import opened Sets

  datatype Buf = Buf(dev: nat, blockno: nat, refcnt: nat, valid: bool, dirty: bool)

  const FRESH_BUF: Buf := Buf(0, 0, 0, false, false)

  // ---- Circular lists

  ghost predicate InRange(ring: seq<nat>, n: nat) {
    forall i :: 0 <= i < |ring| ==> ring[i] < n
  }

  /** Entry i and the one after it point at each other. */
  ghost predicate Link(next: seq<nat>, prev: seq<nat>, ring: seq<nat>, i: nat)
    requires i < |ring| && InRange(ring, |next|) && |prev| == |next|
  {
    next[ring[i]] == ring[Succ(|ring|, i)] && prev[ring[Succ(|ring|, i)]] == ring[i]
  }

  /** prev and next are inverse to each other on one cycle through the entries of ring. */
  ghost predicate Cycle(next: seq<nat>, prev: seq<nat>, ring: seq<nat>) {
    && |ring| > 0 && |prev| == |next| && InRange(ring, |next|) && Distinct(ring)
    && forall i :: 0 <= i < |ring| ==> Link(next, prev, ring, i)
  }

  /** The list without entry k. */
  ghost predicate Without(ring: seq<nat>, k: nat, r: seq<nat>) {
    && 0 < k < |ring| && |r| == |ring| - 1
    && forall i {:trigger r[i]} :: 0 <= i < |r| ==> r[i] == ring[if i < k then i else i + 1]
  }

  /** The list with b behind the head. */
  ghost predicate Pushed(ring: seq<nat>, b: nat, r: seq<nat>) {
    && |ring| > 0 && |r| == |ring| + 1 && r[0] == ring[0] && r[1] == b
    && forall i {:trigger r[i]} :: 2 <= i < |r| ==> r[i] == ring[i - 1]
  }

  ghost function Before(ring: seq<nat>, k: nat): nat
    requires 0 < k <= |ring|
  {
    ring[k - 1]
  }

  ghost function After(ring: seq<nat>, k: nat): nat
    requires k < |ring|
  {
    ring[Succ(|ring|, k)]
  }

  /** b->next->prev = b->prev; b->prev->next = b->next */
  lemma Unlinked(next: seq<nat>, prev: seq<nat>, ring: seq<nat>, k: nat, r: seq<nat>)
    requires Cycle(next, prev, ring) && Without(ring, k, r)
    ensures Cycle(next[Before(ring, k) := After(ring, k)], prev[After(ring, k) := Before(ring, k)], r)
  {
    var next', prev' := next[Before(ring, k) := After(ring, k)], prev[After(ring, k) := Before(ring, k)];
    forall i, j | 0 <= i < j < |r| ensures r[i] != r[j] {}
    forall i | 0 <= i < |r| ensures Link(next', prev', r, i) {
      UnlinkedAt(next, prev, ring, k, r, i);
    }
  }

  lemma UnlinkedAt(next: seq<nat>, prev: seq<nat>, ring: seq<nat>, k: nat, r: seq<nat>, i: nat)
    requires Cycle(next, prev, ring) && Without(ring, k, r) && i < |r|
    ensures InRange(r, |next|)
    ensures Link(next[Before(ring, k) := After(ring, k)], prev[After(ring, k) := Before(ring, k)], r, i)
  {
    var m := if i < k then i else i + 1;
    assert r[i] == ring[m];
    var j := Succ(|r|, i);
    assert r[j] == ring[if j < k then j else j + 1];
    if i != k - 1 {
      assert Link(next, prev, ring, m);
      assert ring[m] != ring[k - 1];
      assert ring[Succ(|ring|, m)] != After(ring, k);
    }
  }

  /** b->next = head.next; b->prev = &head; head.next->prev = b; head.next = b */
  lemma PushedIn(next: seq<nat>, prev: seq<nat>, ring: seq<nat>, b: nat, r: seq<nat>)
    requires Cycle(next, prev, ring) && Pushed(ring, b, r) && b < |next| && b !in ring
    ensures var first := After(ring, 0);
      Cycle(next[b := first][ring[0] := b], prev[b := ring[0]][first := b], r)
  {
    var first := After(ring, 0);
    var next', prev' := next[b := first][ring[0] := b], prev[b := ring[0]][first := b];
    assert Link(next, prev, ring, 0);
    forall i, j | 0 <= i < j < |r| ensures r[i] != r[j] {
      assert i >= 2 ==> r[i] == ring[i - 1];
      assert j >= 2 ==> r[j] == ring[j - 1];
    }
    forall i | 0 <= i < |r| ensures r[i] < |next| {}
    forall i | 0 <= i < |r| ensures Link(next', prev', r, i) {
      PushedAt(next, prev, ring, b, r, i);
    }
  }

  lemma PushedAt(next: seq<nat>, prev: seq<nat>, ring: seq<nat>, b: nat, r: seq<nat>, i: nat)
    requires Cycle(next, prev, ring) && Pushed(ring, b, r) && b < |next| && b !in ring && i < |r|
    ensures InRange(r, |next|)
    ensures var first := After(ring, 0);
      Link(next[b := first][ring[0] := b], prev[b := ring[0]][first := b], r, i)
  {
    assert Link(next, prev, ring, 0);
    if i >= 2 {
      assert Link(next, prev, ring, i - 1);
      assert ring[i - 1] != ring[0];
      assert i + 1 < |r| ==> r[i + 1] == ring[i];
    }
  }

  // ---- The cache

  ghost predicate Caches(x: Buf, dev: nat, blockno: nat) {
    x.dev == dev && x.blockno == blockno
  }

  /** At most one buffer for each block, except block 0 of device 0: every buffer starts out as that. */
  ghost predicate Unique(buf: seq<Buf>) {
    forall i, j, dev, blockno :: 0 <= i < j < |buf| && Caches(buf[i], dev, blockno) && (dev != 0 || blockno != 0) ==>
      !Caches(buf[j], dev, blockno)
  }

  predicate Recyclable(x: Buf) {
    x.refcnt == 0 && !x.dirty
  }

  /** b comes last in the list among the buffers that could be recycled. */
  ghost predicate LastRecyclable(buf: seq<Buf>, order: seq<nat>, b: nat)
    requires forall i :: 0 <= i < |order| ==> order[i] < |buf|
  {
    exists k :: 0 <= k < |order| && order[k] == b
                && (forall j :: k < j < |order| ==> !Recyclable(buf[order[j]]))
  }

  /** The order in which the list goes through the buffers. */
  ghost predicate Listed(nbuf: nat, next: seq<nat>, prev: seq<nat>, order: seq<nat>) {
    && |next| == nbuf + 1 && Cycle(next, prev, [nbuf] + order)
    && (forall b :: 0 <= b < nbuf ==> b in order)
    && (forall i :: 0 <= i < |order| ==> order[i] < nbuf)
  }

  ghost predicate SomeRecyclable(buf: seq<Buf>) {
    exists b :: 0 <= b < |buf| && Recyclable(buf[b])
  }

  ghost predicate SettlesAt(x: Buf, y: Buf) {
    y.refcnt == x.refcnt && (y.dirty ==> x.dirty && Caches(x, y.dev, y.blockno))
  }

  /** The same references, and nothing dirty that was not. */
  ghost predicate Settles(was: seq<Buf>, buf: seq<Buf>) {
    |buf| == |was| && forall b :: 0 <= b < |was| ==> SettlesAt(was[b], buf[b])
  }

  /** log_write marks a buffer dirty only while its contents are valid. */
  ghost predicate DirtyValid(buf: seq<Buf>) {
    forall b :: 0 <= b < |buf| && buf[b].dirty ==> buf[b].valid
  }

  /** A dirty buffer holds the block. */
  ghost predicate Pinned(buf: seq<Buf>, dev: nat, blockno: nat) {
    exists b :: 0 <= b < |buf| && Caches(buf[b], dev, blockno) && buf[b].dirty
  }

  /** Of the blocks listed, those from k on are pinned and those before are not. */
  ghost predicate PinnedFrom(buf: seq<Buf>, dev: nat, lh: seq<nat>, k: nat) {
    forall i :: 0 <= i < |lh| ==> (Pinned(buf, dev, lh[i]) <==> k <= i)
  }

  class Cache {
    const nbuf: nat
    var buf: seq<Buf>
    var next: seq<nat>
    var prev: seq<nat>
    ghost var order: seq<nat>

    ghost predicate Valid()
      reads this
    {
      |buf| == nbuf && Listed(nbuf, next, prev, order) && Unique(buf) && DirtyValid(buf)
    }

    /** binit: every buffer is pushed behind the head in turn. */
    constructor (n: nat)
      ensures Valid() && nbuf == n && forall b :: 0 <= b < n ==> buf[b] == FRESH_BUF
    {
      nbuf := n;
      var nx: seq<nat> := seq(n + 1, _ => n);
      var pv: seq<nat> := seq(n + 1, _ => n);
      ghost var list: seq<nat> := [];
      assert Link(nx, pv, [n], 0);
      for b := 0 to n
        invariant |nx| == |pv| == n + 1 && Cycle(nx, pv, [n] + list)
        invariant (forall i :: 0 <= i < |list| ==> list[i] < b) && (forall x :: 0 <= x < b ==> x in list)
      {
        var first := nx[n];
        assert Link(nx, pv, [n] + list, 0);
        assert first == After([n] + list, 0);
        PushedIn(nx, pv, [n] + list, b, [n] + ([b] + list));
        nx := nx[b := first][n := b];
        pv := pv[b := n][first := b];
        list := [b] + list;
      }
      buf, next, prev, order := seq(n, _ => FRESH_BUF), nx, pv, list;
    }

    /** First loop of bget: from head.next on, the buffer that holds the block. */
    method Find(dev: nat, blockno: nat) returns (r: Option<nat>)
      requires Valid()
      ensures r.Some? ==> r.value < nbuf && Caches(buf[r.value], dev, blockno)
      ensures r == None ==> forall b :: 0 <= b < nbuf ==> !Caches(buf[b], dev, blockno)
    {
      ghost var ring := [nbuf] + order;
      ghost var k := 1;
      assert Link(next, prev, ring, 0);
      var b := next[nbuf];
      while b != nbuf
        invariant 1 <= k <= |ring| && b == (if k == |ring| then nbuf else ring[k])
        invariant forall j :: 1 <= j < k ==> !Caches(buf[ring[j]], dev, blockno)
        decreases |ring| - k
      {
        if buf[b].dev == dev && buf[b].blockno == blockno {
          return Some(b);
        }
        assert Link(next, prev, ring, k);
        b := next[b];
        k := k + 1;
      }
      forall x | 0 <= x < nbuf ensures !Caches(buf[x], dev, blockno) {
        assert x in order;
        var i :| 0 <= i < |order| && order[i] == x;
        assert ring[i + 1] == x;
      }
      r := None;
    }

    /** Second loop of bget: from head.prev back, the least recently used buffer that is
        neither referenced nor dirty. */
    method FindVictim() returns (r: Option<nat>)
      requires Valid()
      ensures r.Some? ==> r.value < nbuf && Recyclable(buf[r.value])
      ensures r.Some? ==> LastRecyclable(buf, order, r.value)
      ensures r == None ==> forall b :: 0 <= b < nbuf ==> !Recyclable(buf[b])
    {
      ghost var ring := [nbuf] + order;
      ghost var k := |ring| - 1;
      assert Link(next, prev, ring, k);
      var b := prev[nbuf];
      while b != nbuf
        invariant 0 <= k < |ring| && b == ring[k]
        invariant forall j :: k < j < |ring| ==> !Recyclable(buf[ring[j]])
        decreases k
      {
        if buf[b].refcnt == 0 && !buf[b].dirty {
          assert order[k - 1] == b;
          forall j | k - 1 < j < |order| ensures !Recyclable(buf[order[j]]) { assert ring[j + 1] == order[j]; }
          return Some(b);
        }
        assert Link(next, prev, ring, k - 1);
        b := prev[b];
        k := k - 1;
      }
      forall x | 0 <= x < nbuf ensures !Recyclable(buf[x]) {
        assert x in order;
        var i :| 0 <= i < |order| && order[i] == x;
        assert ring[i + 1] == x;
      }
      r := None;
    }

    /** bget. None is the panic "bget: no buffers". */
    method Bget(dev: nat, blockno: nat) returns (r: Option<nat>)
      requires Valid()
      modifies this`buf
      ensures Valid()
      ensures r.Some? ==> r.value < nbuf && Caches(buf[r.value], dev, blockno)
      ensures r.Some? && Caches(old(buf)[r.value], dev, blockno) ==>
        buf == old(buf)[r.value := old(buf)[r.value].(refcnt := old(buf)[r.value].refcnt + 1)]
      ensures r.Some? && !Caches(old(buf)[r.value], dev, blockno) ==>
        && Recyclable(old(buf)[r.value]) && (forall b :: 0 <= b < nbuf ==> !Caches(old(buf)[b], dev, blockno))
        && buf == old(buf)[r.value := Buf(dev, blockno, 1, false, false)]
        && LastRecyclable(old(buf), order, r.value)
      ensures r == None <==>
        forall b :: 0 <= b < nbuf ==> !Caches(old(buf)[b], dev, blockno) && !Recyclable(old(buf)[b])
      ensures r == None ==> buf == old(buf)
    {
      r := Find(dev, blockno);
      if r.Some? {
        buf := buf[r.value := buf[r.value].(refcnt := buf[r.value].refcnt + 1)];
        return;
      }
      r := FindVictim();
      if r.Some? {
        buf := buf[r.value := Buf(dev, blockno, 1, false, false)];
      }
    }

    /** brelse: the last reference moves the buffer to the front of the list. */
    method Brelse(b: nat)
      requires Valid() && b < nbuf && buf[b].refcnt > 0
      modifies this
      ensures Valid()
      ensures buf == old(buf)[b := old(buf)[b].(refcnt := old(buf)[b].refcnt - 1)]
      ensures buf[b].refcnt > 0 ==> order == old(order)
      ensures buf[b].refcnt == 0 ==> MovedToFront(old(order), b, order)
    {
      buf := buf[b := buf[b].(refcnt := buf[b].refcnt - 1)];
      if buf[b].refcnt == 0 {
        MoveToFront(b);
      }
    }

    /** The relinking at the end of brelse. */
    method MoveToFront(b: nat)
      requires |buf| == nbuf && Listed(nbuf, next, prev, order) && b < nbuf
      modifies this`next, this`prev, this`order
      ensures Listed(nbuf, next, prev, order)
      ensures MovedToFront(old(order), b, order)
    {
      assert b in order;
      ghost var i :| 0 <= i < |order| && order[i] == b;
      ghost var rest := order[..i] + order[i + 1..];
      NotInRest(nbuf, order, i, rest);
      Unlink(b, order, i, rest);
      Push(b, rest);
      FrontMembers(nbuf, order, i, [b] + rest);
      order := [b] + rest;
    }

    method Unlink(b: nat, ghost list: seq<nat>, ghost i: nat, ghost rest: seq<nat>)
      requires Cycle(next, prev, [nbuf] + list) && i < |list| && list[i] == b && rest == list[..i] + list[i + 1..]
      modifies this`next, this`prev
      ensures |next| == |old(next)| && Cycle(next, prev, [nbuf] + rest)
    {
      ghost var ring, k := [nbuf] + list, i + 1;
      assert Link(next, prev, ring, k) && Link(next, prev, ring, k - 1);
      Unlinked(next, prev, ring, k, [nbuf] + rest);
      prev := prev[next[b] := prev[b]];
      next := next[prev[b] := next[b]];
    }

    method Push(b: nat, ghost rest: seq<nat>)
      requires Cycle(next, prev, [nbuf] + rest) && b < nbuf < |next| && b !in rest
      modifies this`next, this`prev
      ensures |next| == |old(next)| && Cycle(next, prev, [nbuf] + ([b] + rest))
    {
      assert Link(next, prev, [nbuf] + rest, 0);
      PushedIn(next, prev, [nbuf] + rest, b, [nbuf] + ([b] + rest));
      var first := next[nbuf];
      next := next[b := first];
      prev := prev[b := nbuf];
      prev := prev[first := b];
      next := next[nbuf := b];
    }

    /** bwrite of a locked buffer: after iderw it is valid and clean. */
    method Bwrite(b: nat)
      requires Valid() && b < nbuf
      modifies this`buf
      ensures Valid() && buf == old(buf)[b := old(buf)[b].(valid := true, dirty := false)]
    {
      buf := buf[b := buf[b].(valid := true, dirty := false)];
    }

    /** bread when something can be recycled: bget does not panic. */
    method Fetch(dev: nat, blockno: nat) returns (b: nat)
      requires Valid() && (SomeRecyclable(buf) || Pinned(buf, dev, blockno))
      modifies this`buf
      ensures Valid() && Fetched(old(buf), buf, dev, blockno, b)
    {
      var r := Bget(dev, blockno);
      b := r.value;
      if !buf[b].valid {
        buf := buf[b := buf[b].(valid := true, dirty := false)]; // iderw
      }
    }

    /** One iteration of write_log (or, with install, of install_trans) as the cache sees it:
        two buffers are fetched, one of them is written, both are released. */
    method CommitBlock(dev: nat, logBlock: nat, home: nat, install: bool)
      requires Valid() && dev != 0 && logBlock != home && SomeRecyclable(buf) && Pinned(buf, dev, home)
      modifies this
      ensures Valid() && SomeRecyclable(buf) && Settles(old(buf), buf)
      ensures forall b :: b != logBlock && (install ==> b != home) && Pinned(old(buf), dev, b) ==> Pinned(buf, dev, b)
      ensures install ==> !Pinned(buf, dev, home)
    {
      ghost var was := buf;
      var to := Fetch(dev, logBlock);
      ghost var mid := buf;
      StillPinned(was, mid, to, dev, logBlock, home);
      var from := Fetch(dev, home);
      ghost var both := buf;
      FetchedApart(was, mid, both, to, from, dev, logBlock, home);
      if install {
        WriteAndRelease(from, to);
      } else {
        WriteAndRelease(to, from);
      }
      Traffic(was, mid, both, buf, to, from, dev, logBlock, home, install);
    }

    /** bwrite of w, then brelse of both. */
    method WriteAndRelease(w: nat, other: nat)
      requires Valid() && w < nbuf && other < nbuf && w != other && buf[w].refcnt > 0 && buf[other].refcnt > 0
      modifies this
      ensures Valid() && Returned(old(buf), buf, w, other)
    {
      Bwrite(w);
      Brelse(other);
      Brelse(w);
    }

    /** The cache traffic of write_log (or of install_trans) over the whole header. */
    method CommitTraffic(dev: nat, start: nat, lh: seq<nat>, install: bool)
      requires Valid() && dev != 0 && SomeRecyclable(buf)
      requires PinnedFrom(buf, dev, lh, 0) && Distinct(lh) && forall i :: 0 <= i < |lh| ==>
        !(start <= lh[i] <= start + |lh|)
      modifies this
      ensures Valid() && SomeRecyclable(buf) && Settles(old(buf), buf)
      ensures PinnedFrom(buf, dev, lh, if install then |lh| else 0)
    {
      for tail := 0 to |lh|
        invariant Valid() && SomeRecyclable(buf) && Settles(old(buf), buf)
        invariant PinnedFrom(buf, dev, lh, if install then tail else 0)
      {
        ghost var was := buf;
        CommitBlock(dev, start + tail + 1, lh[tail], install);
        SettlesAgain(old(buf), was, buf);
        if install { UnpinnedNext(was, buf, dev, lh, tail); }
      }
    }

    /** write_head */
    method HeadTraffic(dev: nat, start: nat)
      requires Valid() && SomeRecyclable(buf)
      modifies this
      ensures Valid() && SomeRecyclable(buf) && Settles(old(buf), buf)
      ensures forall b :: b != start && Pinned(old(buf), dev, b) ==> Pinned(buf, dev, b)
    {
      ghost var was := buf;
      var b := Fetch(dev, start);
      ghost var mid := buf;
      Bwrite(b);
      Brelse(b);
      HeadTrafficIs(was, mid, buf, b, dev, start);
    }

    /** commit as the cache sees it. If the blocks listed and the buffers that others reference
        are together fewer than the buffers, no bread of a commit meets "bget: no buffers", and at
        the end no buffer is dirty. */
    method Commit(dev: nat, start: nat, lh: seq<nat>, ghost refs: set<nat>)
      requires Valid() && dev != 0 && OnlyLogged(buf, dev, lh) && ReferencedIn(buf, refs) && |lh| + |refs| < nbuf
      requires PinnedFrom(buf, dev, lh, 0) && Distinct(lh) && forall i :: 0 <= i < |lh| ==>
        !(start <= lh[i] <= start + |lh|)
      modifies this
      ensures Valid() && SomeRecyclable(buf) && Settles(old(buf), buf)
      ensures forall b :: 0 <= b < nbuf ==> !buf[b].dirty
    {
      FewBusy(buf, dev, lh, refs);
      if |lh| > 0 {
        CommitTraffic(dev, start, lh, false);
        ghost var was := buf;
        HeadTraffic(dev, start);
        SettlesAgain(old(buf), was, buf);
        was := buf;
        CommitTraffic(dev, start, lh, true);
        SettlesAgain(old(buf), was, buf);
        was := buf;
        HeadTraffic(dev, start);
        SettlesAgain(old(buf), was, buf);
        forall i | 0 <= i < |lh| ensures !Pinned(buf, dev, lh[i]) { StaysClean(was, buf, dev, lh[i]); }
        assert PinnedFrom(buf, dev, lh, |lh|);
      }
      AllClean(old(buf), buf, dev, lh);
    }
  }

  /** The dirty buffers are those of the blocks that the header lists. */
  ghost predicate OnlyLogged(buf: seq<Buf>, dev: nat, lh: seq<nat>) {
    forall b :: 0 <= b < |buf| && buf[b].dirty ==> buf[b].dev == dev && buf[b].blockno in lh
  }

  ghost predicate ReferencedIn(buf: seq<Buf>, refs: set<nat>) {
    forall b :: 0 <= b < |buf| && buf[b].refcnt > 0 ==> b in refs
  }

  /** Block blockno is in buffer b, with one more reference; nothing else has changed. */
  ghost predicate Fetched(was: seq<Buf>, buf: seq<Buf>, dev: nat, blockno: nat, b: nat) {
    && |buf| == |was| && b < |was| && Caches(buf[b], dev, blockno)
    && (forall x :: 0 <= x < |was| && x != b ==> buf[x] == was[x])
    && buf[b].refcnt == was[b].refcnt + 1 && buf[b].dirty == was[b].dirty
    && (Caches(was[b], dev, blockno) || Recyclable(was[b]))
  }

  /** Fetching another block does not touch a pinned one. */
  lemma StillPinned(was: seq<Buf>, buf: seq<Buf>, to: nat, dev: nat, other: nat, home: nat)
    requires Fetched(was, buf, dev, other, to) && other != home && Pinned(was, dev, home)
    ensures Pinned(buf, dev, home)
  {
    var b :| 0 <= b < |was| && Caches(was[b], dev, home) && was[b].dirty;
    assert b != to;
    assert Caches(buf[b], dev, home) && buf[b].dirty;
  }

  ghost function Released(x: Buf, written: bool): Buf
    requires x.refcnt > 0
  {
    x.(refcnt := x.refcnt - 1, valid := written || x.valid, dirty := !written && x.dirty)
  }

  /** The buffers after brelse of w, which has been written, and of other. */
  ghost predicate Returned(was: seq<Buf>, buf: seq<Buf>, w: nat, other: nat) {
    && |buf| == |was| && w < |was| && other < |was| && was[w].refcnt > 0 && was[other].refcnt > 0
    && buf[w] == Released(was[w], true) && (other != w ==> buf[other] == Released(was[other], false))
    && forall x :: 0 <= x < |was| && x != w && x != other ==> buf[x] == was[x]
  }

  /** Fetching a block and giving it up again, written or not, leaves its buffer to be recycled if
      it was so before, and pins nothing. */
  lemma FetchedGivenUp(x: Buf, y: Buf, dev: nat, blockno: nat, written: bool)
    requires Caches(x, dev, blockno) || Recyclable(x)
    requires Caches(y, dev, blockno) && y.refcnt == x.refcnt + 1 && y.dirty == x.dirty
    ensures SettlesAt(x, Released(y, written)) && (Recyclable(x) ==> Recyclable(Released(y, written)))
    ensures x.dirty && !written ==> Caches(Released(y, written), x.dev, x.blockno) && Released(y, written).dirty
  {}

  lemma FetchedApart(was: seq<Buf>, mid: seq<Buf>, both: seq<Buf>, to: nat, from: nat, dev: nat, logBlock: nat,
                     home: nat)
    requires Fetched(was, mid, dev, logBlock, to) && Fetched(mid, both, dev, home, from) && logBlock != home
    ensures to != from && both[to].refcnt > 0 && both[from].refcnt > 0
  {}

  /** Two blocks are fetched and given up, one of them written. */
  ghost predicate Traded(was: seq<Buf>, mid: seq<Buf>, both: seq<Buf>, buf: seq<Buf>,
                         to: nat, from: nat, dev: nat, logBlock: nat, home: nat, install: bool) {
    && Fetched(was, mid, dev, logBlock, to) && Fetched(mid, both, dev, home, from) && logBlock != home && to != from
    && if install then Returned(both, buf, from, to) else Returned(both, buf, to, from)
  }

  lemma TradedAt(was: seq<Buf>, mid: seq<Buf>, both: seq<Buf>, buf: seq<Buf>,
                 to: nat, from: nat, dev: nat, logBlock: nat, home: nat, install: bool, b: nat)
    requires Traded(was, mid, both, buf, to, from, dev, logBlock, home, install) && b < |was|
    ensures |buf| == |was|
    ensures SettlesAt(was[b], buf[b]) && (Recyclable(was[b]) ==> Recyclable(buf[b]))
    ensures was[b].dirty && b != (if install then from else to) ==>
      Caches(buf[b], was[b].dev, was[b].blockno) && buf[b].dirty
    ensures b == from ==> Caches(buf[b], dev, home) && (install ==> !buf[b].dirty)
  {
    if b == to {
      FetchedGivenUp(was[b], both[b], dev, logBlock, !install);
    } else if b == from {
      FetchedGivenUp(was[b], both[b], dev, home, install);
    }
  }

  lemma TradedPins(was: seq<Buf>, mid: seq<Buf>, both: seq<Buf>, buf: seq<Buf>,
                   to: nat, from: nat, dev: nat, logBlock: nat, home: nat, install: bool, c: nat)
    requires Traded(was, mid, both, buf, to, from, dev, logBlock, home, install)
    requires c != logBlock && (install ==> c != home) && Pinned(was, dev, c)
    ensures Pinned(buf, dev, c)
  {
    var b :| 0 <= b < |was| && Caches(was[b], dev, c) && was[b].dirty;
    TradedAt(was, mid, both, buf, to, from, dev, logBlock, home, install, b);
    assert Caches(buf[b], dev, c) && buf[b].dirty;
  }

  lemma Traffic(was: seq<Buf>, mid: seq<Buf>, both: seq<Buf>, buf: seq<Buf>,
                to: nat, from: nat, dev: nat, logBlock: nat, home: nat, install: bool)
    requires Traded(was, mid, both, buf, to, from, dev, logBlock, home, install)
    requires SomeRecyclable(was) && Unique(buf) && dev != 0
    ensures SomeRecyclable(buf) && Settles(was, buf) && (install ==> !Pinned(buf, dev, home))
    ensures forall c :: c != logBlock && (install ==> c != home) && Pinned(was, dev, c) ==> Pinned(buf, dev, c)
  {
    forall b | 0 <= b < |was| ensures SettlesAt(was[b], buf[b]) && (Recyclable(was[b]) ==> Recyclable(buf[b])) {
      TradedAt(was, mid, both, buf, to, from, dev, logBlock, home, install, b);
    }
    TradedAt(was, mid, both, buf, to, from, dev, logBlock, home, install, from);
    forall c | c != logBlock && (install ==> c != home) && Pinned(was, dev, c) ensures Pinned(buf, dev, c) {
      TradedPins(was, mid, both, buf, to, from, dev, logBlock, home, install, c);
    }
  }

  lemma HeadTrafficIs(was: seq<Buf>, mid: seq<Buf>, buf: seq<Buf>, b: nat, dev: nat, start: nat)
    requires Fetched(was, mid, dev, start, b) && Returned(mid, buf, b, b) && SomeRecyclable(was)
    ensures SomeRecyclable(buf) && Settles(was, buf)
    ensures forall c :: c != start && Pinned(was, dev, c) ==> Pinned(buf, dev, c)
  {
    FetchedGivenUp(was[b], mid[b], dev, start, true);
    var r :| 0 <= r < |was| && Recyclable(was[r]);
    assert Recyclable(buf[r]);
    forall c | c != start && Pinned(was, dev, c) ensures Pinned(buf, dev, c) {
      var x :| 0 <= x < |was| && Caches(was[x], dev, c) && was[x].dirty;
      assert Caches(buf[x], dev, c) && buf[x].dirty;
    }
  }

  lemma SettlesAgain(a: seq<Buf>, b: seq<Buf>, c: seq<Buf>)
    requires Settles(a, b) && Settles(b, c)
    ensures Settles(a, c)
  {
    forall x | 0 <= x < |a| ensures SettlesAt(a[x], c[x]) { assert SettlesAt(a[x], b[x]) && SettlesAt(b[x], c[x]); }
  }

  lemma StaysClean(was: seq<Buf>, buf: seq<Buf>, dev: nat, c: nat)
    requires Settles(was, buf) && !Pinned(was, dev, c)
    ensures !Pinned(buf, dev, c)
  {
    forall b | 0 <= b < |buf| && Caches(buf[b], dev, c) ensures !buf[b].dirty { assert SettlesAt(was[b], buf[b]); }
  }

  lemma UnpinnedNext(was: seq<Buf>, buf: seq<Buf>, dev: nat, lh: seq<nat>, k: nat)
    requires Settles(was, buf) && PinnedFrom(was, dev, lh, k) && k < |lh| && !Pinned(buf, dev, lh[k])
    requires forall i :: k < i < |lh| ==> Pinned(buf, dev, lh[i])
    ensures PinnedFrom(buf, dev, lh, k + 1)
  {
    forall i | 0 <= i < k ensures !Pinned(buf, dev, lh[i]) { StaysClean(was, buf, dev, lh[i]); }
  }

  lemma AllClean(was: seq<Buf>, buf: seq<Buf>, dev: nat, lh: seq<nat>)
    requires Settles(was, buf) && PinnedFrom(buf, dev, lh, |lh|) && OnlyLogged(was, dev, lh)
    ensures forall b :: 0 <= b < |buf| ==> !buf[b].dirty
  {
    forall b | 0 <= b < |buf| ensures !buf[b].dirty {
      assert SettlesAt(was[b], buf[b]);
      if was[b].dirty {
        var i :| 0 <= i < |lh| && lh[i] == was[b].blockno;
        assert !Pinned(buf, dev, lh[i]);
      }
    }
  }

  /** A set of buffers with different blocks out of a list is no larger than the list. */
  lemma {:induction false} DirtyAtMost(buf: seq<Buf>, dev: nat, lh: seq<nat>, dirty: set<nat>)
    requires Unique(buf) && dev != 0
    requires forall b :: b in dirty ==> b < |buf| && buf[b].dev == dev && buf[b].blockno in lh
    ensures |dirty| <= |lh|
    decreases |lh|
  {
    if lh == [] {
      assert dirty == {};
    } else {
      var n := |lh| - 1;
      var rest := set b | b in dirty && buf[b].blockno != lh[n];
      forall b | b in rest ensures buf[b].blockno in lh[..n] {}
      DirtyAtMost(buf, dev, lh[..n], rest);
      if b :| b in dirty && b !in rest {
        assert dirty == rest + {b} by {
          forall x | x in dirty && x != b ensures x in rest {
            assert Caches(buf[b], dev, lh[n]);
          }
        }
      } else {
        assert dirty == rest;
      }
    }
  }

  lemma {:induction false} FewNotAll(n: nat, some: set<nat>)
    requires |some| < n
    ensures exists b: nat :: b < n && b !in some
  {
    if n - 1 in some {
      assert |some - {n - 1}| == |some| - 1;
      FewNotAll(n - 1, some - {n - 1});
      var b: nat :| b < n - 1 && b !in some - {n - 1};
      assert b !in some;
    }
  }

  /** What a commit needs is there as long as the blocks logged and the buffers in use elsewhere
      do not take up the whole cache. */
  lemma FewBusy(buf: seq<Buf>, dev: nat, lh: seq<nat>, refs: set<nat>)
    requires Unique(buf) && dev != 0 && OnlyLogged(buf, dev, lh) && ReferencedIn(buf, refs) && |lh| + |refs| < |buf|
    ensures SomeRecyclable(buf)
  {
    var dirty := set b | 0 <= b < |buf| && buf[b].dirty;
    DirtyAtMost(buf, dev, lh, dirty);
    SumSize(dirty, refs);
    FewNotAll(|buf|, dirty + refs);
    var b: nat :| b < |buf| && b !in dirty + refs;
    assert Recyclable(buf[b]);
  }

  lemma NotInRest(nbuf: nat, list: seq<nat>, i: nat, rest: seq<nat>)
    requires Distinct([nbuf] + list) && i < |list| && rest == list[..i] + list[i + 1..]
    ensures list[i] !in rest
  {
    var ring := [nbuf] + list;
    forall j | 0 <= j < |list| && j != i ensures list[j] != list[i] {
      assert ring[j + 1] == list[j] && ring[i + 1] == list[i];
    }
  }

  lemma FrontMembers(nbuf: nat, was: seq<nat>, i: nat, order: seq<nat>)
    requires i < |was| && order == [was[i]] + (was[..i] + was[i + 1..])
    requires (forall x :: 0 <= x < nbuf ==> x in was) && (forall j :: 0 <= j < |was| ==> was[j] < nbuf)
    ensures (forall x :: 0 <= x < nbuf ==> x in order) && (forall j :: 0 <= j < |order| ==> order[j] < nbuf)
  {
    forall x | 0 <= x < nbuf ensures x in order {
      assert x in was;
      var j :| 0 <= j < |was| && was[j] == x;
      assert j != i ==> order[if j < i then j + 1 else j] == x;
    }
  }

  /** b has moved to the front; the others keep their order. */
  ghost predicate MovedToFront(was: seq<nat>, b: nat, order: seq<nat>) {
    exists i :: 0 <= i < |was| && was[i] == b && order == [b] + (was[..i] + was[i + 1..])
  }
}
