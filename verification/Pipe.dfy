/** Pipes of kernel/pipe.c. Ring is the buffer with its 32-bit counters; the machine below it
    interleaves any number of readers, writers, closers and kills, one segment at a time,
    where a segment is what a call does between two points at which it gives up p->lock. */
module Pipe {
  import opened Basics

  const PIPESIZE: nat := 512

  lemma IndexSurvivesWrap(x: nat)
    ensures (x % WORD) % PIPESIZE == x % PIPESIZE
  {
    var q := x / WORD;
    assert x == WORD * q + x % WORD;
    assert WORD * q == PIPESIZE * (8388608 * q);
    ModPlus(8388608 * q, x % WORD);
  }

  lemma ModPlus(k: nat, r: nat)
    ensures (PIPESIZE * k + r) % PIPESIZE == r % PIPESIZE
  {}

  lemma CounterNext(x: nat)
    ensures (x % WORD + 1) % WORD == (x + 1) % WORD
  {}

  /** The fullness test compares counters modulo 2^32. */
  lemma FullAcrossWrap(r: nat, w: nat)
    requires r <= w <= r + PIPESIZE
    ensures w % WORD == (r % WORD + PIPESIZE) % WORD <==> w == r + PIPESIZE
    ensures r % WORD == w % WORD <==> r == w
  {}

  /** n bytes of a ring from position r on. */
  ghost function Bytes(d: seq<char>, r: nat, n: nat): (s: seq<char>)
    requires |d| == PIPESIZE
    ensures |s| == n
  {
    seq(n, i requires 0 <= i < n => d[(r + i) % PIPESIZE])
  }

  lemma BytesPut(d: seq<char>, r: nat, n: nat, c: char)
    requires |d| == PIPESIZE && n < PIPESIZE
    ensures Bytes(d[(r + n) % PIPESIZE := c], r, n + 1) == Bytes(d, r, n) + [c]
  {
    var d' := d[(r + n) % PIPESIZE := c];
    forall i | 0 <= i < n ensures Bytes(d', r, n + 1)[i] == Bytes(d, r, n)[i] {
      DistinctSlots(r + i, r + n);
    }
  }

  lemma BytesGet(d: seq<char>, r: nat, n: nat)
    requires |d| == PIPESIZE && n > 0
    ensures Bytes(d, r, n) == [d[r % PIPESIZE]] + Bytes(d, r + 1, n - 1)
  {}

  lemma DistinctSlots(a: nat, b: nat)
    requires a < b < a + PIPESIZE
    ensures a % PIPESIZE != b % PIPESIZE
  {}

  class Ring {
    const data: array<char>
    var nread: nat
    var nwrite: nat
    ghost var read: nat     // bytes read in all
    ghost var written: nat  // bytes written in all

    ghost predicate Valid()
      reads this
    {
      && data.Length == PIPESIZE
      && read <= written <= read + PIPESIZE
      && nread == read % WORD && nwrite == written % WORD
    }

    /** The bytes in the pipe, oldest first. */
    ghost function Contents(): (s: seq<char>)
      requires Valid()
      reads this, data
      ensures |s| == written - read
    {
      Bytes(data[..], read, written - read)
    }

    constructor ()
      ensures Valid() && Contents() == [] && fresh(data)
    {
      data := new char[PIPESIZE];
      nread, nwrite, read, written := 0, 0, 0, 0;
    }

    method Put(c: char)
      requires Valid() && |Contents()| < PIPESIZE
      modifies this, data
      ensures Valid() && Contents() == old(Contents()) + [c]
    {
      IndexSurvivesWrap(written);
      CounterNext(written);
      ghost var was := data[..];
      BytesPut(was, read, written - read, c);
      data[nwrite % PIPESIZE] := c;
      assert data[..] == was[nwrite % PIPESIZE := c];
      nwrite := (nwrite + 1) % WORD;
      written := written + 1;
    }

    method Get() returns (c: char)
      requires Valid() && |Contents()| > 0
      modifies this
      ensures Valid() && [c] + Contents() == old(Contents())
    {
      IndexSurvivesWrap(read);
      CounterNext(read);
      BytesGet(data[..], read, written - read);
      c := data[nread % PIPESIZE];
      nread := (nread + 1) % WORD;
      read := read + 1;
    }

    /** pipewrite from byte i on, until it is done or finds the pipe full. */
    method Write(addr: seq<char>, i: nat) returns (j: nat)
      requires Valid() && i <= |addr|
      modifies this, data
      ensures Valid() && i <= j <= |addr|
      ensures Contents() == old(Contents()) + addr[i..j]
      ensures j == i + Min(|addr| - i, PIPESIZE - |old(Contents())|)
    {
      j := i;
      while j < |addr|
        invariant Valid() && i <= j <= |addr|
        invariant Contents() == old(Contents()) + addr[i..j]
      {
        FullAcrossWrap(read, written);
        if nwrite == (nread + PIPESIZE) % WORD {
          break;
        }
        Put(addr[j]);
        assert addr[i..j + 1] == addr[i..j] + [addr[j]];
        j := j + 1;
      }
    }

    /** The copying part of piperead. */
    method Read(n: nat) returns (got: seq<char>)
      requires Valid()
      modifies this
      ensures Valid() && got + Contents() == old(Contents())
      ensures |got| == Min(n, |old(Contents())|)
    {
      got := [];
      while |got| < n
        invariant Valid() && |got| <= n
        invariant got + Contents() == old(Contents())
      {
        FullAcrossWrap(read, written);
        if nread == nwrite {
          break;
        }
        ghost var before := Contents();
        var c := Get();
        assert got + before == got + [c] + Contents();
        got := got + [c];
      }
    }
  }

  // ---- Readers and writers

  /** What a process is doing with the pipe. rest is what is left of its write. */
  datatype Call =
    | Out
    | Writing(rest: seq<char>, asleep: bool)
    | Reading(n: nat, asleep: bool)

  /** sent and got are the histories of bytes put into and taken out of the pipe. */
  datatype State = State(
    buf: seq<char>, readopen: bool, writeopen: bool, calls: seq<Call>, killed: set<Pid>,
    sent: seq<char>, got: seq<char>)

  datatype Label =
    | CallWrite(p: Pid, addr: seq<char>)
    | CallRead(p: Pid, n: nat)
    | WriteOn(p: Pid)
    | ReadOn(p: Pid, result: int)
    | CloseWrite
    | CloseRead
    | Kill(p: Pid)

  ghost predicate Init(s: State) {
    && s.buf == [] && s.readopen && s.writeopen && s.killed == {} && s.sent == [] && s.got == []
    && forall p :: 0 <= p < |s.calls| ==> s.calls[p] == Out
  }

  function WokenReader(c: Call): Call {
    if c.Reading? then Reading(c.n, false) else c
  }

  function WokenWriter(c: Call): Call {
    if c.Writing? then Writing(c.rest, false) else c
  }

  /** wakeup(&p->nread) */
  function WakeReaders(calls: seq<Call>): (r: seq<Call>)
    ensures |r| == |calls| && forall p :: 0 <= p < |calls| ==> r[p] == WokenReader(calls[p])
  {
    seq(|calls|, p requires 0 <= p < |calls| => WokenReader(calls[p]))
  }

  /** wakeup(&p->nwrite) */
  function WakeWriters(calls: seq<Call>): (r: seq<Call>)
    ensures |r| == |calls| && forall p :: 0 <= p < |calls| ==> r[p] == WokenWriter(calls[p])
  {
    seq(|calls|, p requires 0 <= p < |calls| => WokenWriter(calls[p]))
  }

  /** One segment of pipewrite: fill the pipe; then finish, fail, or wake readers and sleep. */
  ghost predicate WriteStep(s: State, p: Pid, s': State) {
    && p < |s.calls| && s.calls[p].Writing? && !s.calls[p].asleep && |s.buf| <= PIPESIZE
    && var rest := s.calls[p].rest;
       var k := Min(|rest|, PIPESIZE - |s.buf|);
       var t := s.(buf := s.buf + rest[..k], sent := s.sent + rest[..k]);
       if k == |rest| then
         s' == t.(calls := WakeReaders(s.calls)[p := Out])
       else if !s.readopen || p in s.killed then
         s' == t.(calls := s.calls[p := Out])
       else
         s' == t.(calls := WakeReaders(s.calls)[p := Writing(rest[k..], true)])
  }

  /** One segment of piperead: sleep or fail on an empty pipe that may still be written,
      otherwise take what there is. result is the return value, or -2 for going to sleep. */
  ghost predicate ReadStep(s: State, p: Pid, result: int, s': State) {
    && p < |s.calls| && s.calls[p].Reading? && !s.calls[p].asleep
    && var n := s.calls[p].n;
       if s.buf == [] && s.writeopen then
         if p in s.killed then result == -1 && s' == s.(calls := s.calls[p := Out])
         else result == -2 && s' == s.(calls := s.calls[p := Reading(n, true)])
       else
         var k := Min(n, |s.buf|);
         && result == k
         && s' == s.(buf := s.buf[k..], got := s.got + s.buf[..k], calls := WakeWriters(s.calls)[p := Out])
  }

  /** A process inside a call keeps its descriptor, so that end of the pipe stays open. */
  ghost predicate Step(s: State, l: Label, s': State) {
    match l
    case CallWrite(p, addr) =>
      p < |s.calls| && s.calls[p] == Out && s.writeopen && s' == s.(calls := s.calls[p := Writing(addr, false)])
    case CallRead(p, n) =>
      p < |s.calls| && s.calls[p] == Out && s.readopen && s' == s.(calls := s.calls[p := Reading(n, false)])
    case WriteOn(p) => WriteStep(s, p, s')
    case ReadOn(p, result) => ReadStep(s, p, result, s')
    case CloseWrite =>
      && (forall p :: 0 <= p < |s.calls| ==> !s.calls[p].Writing?)
      && s' == s.(writeopen := false, calls := WakeReaders(s.calls))
    case CloseRead =>
      && (forall p :: 0 <= p < |s.calls| ==> !s.calls[p].Reading?)
      && s' == s.(readopen := false, calls := WakeWriters(s.calls))
    case Kill(p) =>
      && p < |s.calls|
      && s' == s.(killed := s.killed + {p}, calls := s.calls[p := WokenWriter(WokenReader(s.calls[p]))])
  }

  ghost predicate Next(s: State, s': State) {
    exists l :: Step(s, l, s')
  }

  ghost predicate Run(t: seq<State>) {
    && |t| > 0 && Init(t[0])
    && forall i: nat :: Follows(t, i)
  }

  ghost predicate Follows(t: seq<State>, i: nat) {
    0 < i < |t| ==> Next(t[i - 1], t[i])
  }

  // ---- Invariants

  ghost predicate Flow(s: State) {
    && |s.buf| <= PIPESIZE
    && s.got + s.buf == s.sent
    && (forall p :: 0 <= p < |s.calls| && s.calls[p].Reading? ==> s.readopen)
    && (forall p :: 0 <= p < |s.calls| && s.calls[p].Writing? ==> s.writeopen)
  }

  /** Whoever sleeps has something to wait for. */
  ghost predicate Rested(s: State) {
    forall p :: 0 <= p < |s.calls| ==> RestsRightly(s, s.calls[p])
  }

  ghost predicate RestsRightly(s: State, c: Call) {
    && (c.Reading? && c.asleep ==> s.buf == [] && s.writeopen)
    && (c.Writing? && c.asleep ==> |s.buf| == PIPESIZE && s.readopen)
  }

  lemma BytesFlow(s: State, l: Label, s': State)
    requires |s.buf| <= PIPESIZE && s.got + s.buf == s.sent && Step(s, l, s')
    ensures |s'.buf| <= PIPESIZE && s'.got + s'.buf == s'.sent
  {}

  lemma EndsOpen(s: State, l: Label, s': State, q: Pid)
    requires Step(s, l, s') && q < |s.calls| && (s.calls[q].Reading? ==> s.readopen)
      && (s.calls[q].Writing? ==> s.writeopen)
    ensures |s'.calls| == |s.calls| && (s'.calls[q].Reading? ==> s'.readopen) && (s'.calls[q].Writing? ==> s'.writeopen)
  {}

  lemma FlowStep(s: State, l: Label, s': State)
    requires Flow(s) && Step(s, l, s')
    ensures Flow(s')
  {
    BytesFlow(s, l, s');
    assert |s'.calls| == |s.calls|;
    forall q | 0 <= q < |s.calls|
      ensures (s'.calls[q].Reading? ==> s'.readopen) && (s'.calls[q].Writing? ==> s'.writeopen)
    {
      EndsOpen(s, l, s', q);
    }
  }

  /** This segment fills the pipe and then leaves because its process was killed, which skips
      the wakeup of the reader that has been asleep since the pipe was empty. */
  ghost predicate LeavesReaderAsleep(s: State, l: Label) {
    && l.WriteOn? && l.p < |s.calls| && s.calls[l.p].Writing?
    && l.p in s.killed && |s.calls[l.p].rest| > PIPESIZE - |s.buf|
    && exists q :: 0 <= q < |s.calls| && s.calls[q].Reading? && s.calls[q].asleep
  }

  lemma StillRests(s: State, l: Label, s': State, q: Pid)
    requires |s.buf| <= PIPESIZE && Step(s, l, s') && q < |s.calls| && RestsRightly(s, s.calls[q])
      && !LeavesReaderAsleep(s, l)
    requires s.calls[q].Reading? ==> s.readopen
    requires s.calls[q].Writing? ==> s.writeopen
    ensures |s'.calls| == |s.calls| && RestsRightly(s', s'.calls[q])
  {}

  /** Every step keeps the sleepers rested, except exactly that one. */
  lemma RestedExactly(s: State, l: Label, s': State)
    requires Flow(s) && Rested(s) && Step(s, l, s')
    ensures Rested(s') <==> !LeavesReaderAsleep(s, l)
  {
    if LeavesReaderAsleep(s, l) {
      var q :| 0 <= q < |s.calls| && s.calls[q].Reading? && s.calls[q].asleep;
      assert s'.calls[q].Reading? && s'.calls[q].asleep;
      assert |s'.buf| == PIPESIZE;
      assert !RestsRightly(s', s'.calls[q]);
    } else {
      assert |s'.calls| == |s.calls|;
      forall q | 0 <= q < |s.calls| ensures RestsRightly(s', s'.calls[q]) {
        assert RestsRightly(s, s.calls[q]);
        StillRests(s, l, s', q);
      }
    }
  }

  lemma NextFlow(s: State, s': State)
    requires Flow(s) && Next(s, s')
    ensures Flow(s')
  {
    var l :| Step(s, l, s');
    FlowStep(s, l, s');
  }

  lemma {:induction false} RunFlow(t: seq<State>, i: nat)
    requires Run(t) && i < |t|
    ensures Flow(t[i])
  {
    if i > 0 {
      RunFlow(t, i - 1);
      assert Follows(t, i);
      NextFlow(t[i - 1], t[i]);
    }
  }

  // ---- Main results

  /** Whatever the interleaving, the bytes read so far followed by the bytes in the pipe are
      the bytes written so far, in order. */
  lemma InOrderWithoutLoss(t: seq<State>, i: nat)
    requires Run(t) && i < |t|
    ensures t[i].got + t[i].buf == t[i].sent && |t[i].buf| <= PIPESIZE
  {
    RunFlow(t, i);
  }

  /** A read of n > 0 bytes reports end of file only when the pipe is drained and its write
      end is closed; then everything written has been read. */
  lemma EndOfFile(t: seq<State>, i: nat, p: Pid)
    requires Run(t) && i + 1 < |t| && Step(t[i], ReadOn(p, 0), t[i + 1])
    requires t[i].calls[p].n > 0
    ensures t[i].buf == [] && !t[i].writeopen && t[i].got == t[i].sent
  {
    RunFlow(t, i);
  }

  ghost predicate NoKills(t: seq<State>) {
    forall i :: 0 <= i < |t| ==> t[i].killed == {}
  }

  /** In runs without kill, a sleeping reader means an empty pipe that may still be written,
      and a sleeping writer a full pipe that may still be read. */
  lemma {:induction false} SleepersRested(t: seq<State>, i: nat)
    requires Run(t) && NoKills(t) && i < |t|
    ensures Rested(t[i])
  {
    if i > 0 {
      SleepersRested(t, i - 1);
      RunFlow(t, i - 1);
      assert Follows(t, i);
      assert t[i - 1].killed == {};
      NextRested(t[i - 1], t[i]);
    }
  }

  lemma NextRested(s: State, s': State)
    requires Flow(s) && Rested(s) && Next(s, s') && s.killed == {}
    ensures Rested(s')
  {
    var l :| Step(s, l, s');
    RestedExactly(s, l, s');
  }

  /** With kill it can happen: a reader goes to sleep, a writer of 513 bytes is killed before
      its first segment, and the reader sleeps on beside a full pipe. */
  lemma KilledWriterStrandsReader()
    ensures exists t :: Run(t) && !Rested(t[|t| - 1])
  {
    var addr := seq(PIPESIZE + 1, _ => 'a');
    var none: seq<char> := [];
    var s0 := State([], true, true, [Out, Out], {}, [], []);
    var s1 := s0.(calls := [Reading(1, false), Out]);
    var s2 := s0.(calls := [Reading(1, true), Out]);
    var s3 := s0.(calls := [Reading(1, true), Writing(addr, false)]);
    var s4 := s3.(killed := {1});
    var s5 := s4.(buf := none + addr[..PIPESIZE], sent := none + addr[..PIPESIZE], calls := [Reading(1, true), Out]);
    assert s1.calls == s0.calls[0 := Reading(1, false)] && Step(s0, CallRead(0, 1), s1);
    assert s2.calls == s1.calls[0 := Reading(1, true)] && Step(s1, ReadOn(0, -2), s2);
    assert s3.calls == s2.calls[1 := Writing(addr, false)] && Step(s2, CallWrite(1, addr), s3);
    assert s4.calls == s3.calls[1 := WokenWriter(WokenReader(s3.calls[1]))] && Step(s3, Kill(1), s4);
    assert s5.calls == s4.calls[1 := Out] && Step(s4, WriteOn(1), s5);
    assert s5.calls[0].Reading? && s5.calls[0].asleep && s5.buf != [];
    var t := [s0, s1, s2, s3, s4, s5];
    assert Run(t);
  }
}
