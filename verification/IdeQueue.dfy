/** The disk driver of kernel/ide.c as a queue of requests served one at a time by a device
    that works on its own and interrupts when it is done, proved to refine the memory disk of
    kernel/memide.c, which serves every request at once. */
module IdeQueue {

  import opened Options

  type Block = string

  /** A buffer: B_VALID, B_DIRTY and its contents for one block. */
  datatype Buf = Buf(blockno: nat, valid: bool, dirty: bool, data: Block)

  // ---- The specification: iderw of kernel/memide.c

  datatype Store = Store(disk: seq<Block>, bufs: seq<Buf>)

  predicate NeedsIo(x: Buf) {
    !(x.valid && !x.dirty)
  }

  function Synced(x: Buf, disk: seq<Block>): Buf
    requires x.blockno < |disk|
  {
    if x.dirty then x.(dirty := false, valid := true) else x.(data := disk[x.blockno], valid := true)
  }

  ghost function MemRw(m: Store, b: nat): Store
    requires b < |m.bufs| && m.bufs[b].blockno < |m.disk|
  {
    var x := m.bufs[b];
    Store(if x.dirty then m.disk[x.blockno := x.data] else m.disk, m.bufs[b := Synced(x, m.disk)])
  }

  // ---- The driver

  /** The request the device was given by idestart; answer holds what a read found once the
      device is done. */
  datatype Request = Request(b: nat, write: bool, blockno: nat, data: Block, done: bool, answer: Block)

  /** A process outside iderw, or inside it for buffer b. */
  datatype Call = Out | In(b: nat, asleep: bool)

  /** called and served are the histories of requests made and requests carried out. */
  datatype State = State(
    disk: seq<Block>, bufs: seq<Buf>, queue: seq<nat>, device: Option<Request>, calls: seq<Call>,
    called: seq<nat>, served: seq<nat>)

  datatype Label =
    | Enter(p: nat, b: nat)
    | Work
    | Interrupt
    | Resume(p: nat)
    | Spurious(p: nat)
    | Touch(b: nat, x: Buf)

  ghost predicate Init(s: State) {
    && s.queue == [] && s.device == None && s.called == [] && s.served == []
    && forall p :: 0 <= p < |s.calls| ==> s.calls[p] == Out
  }

  function Start(bufs: seq<Buf>, b: nat): Request
    requires b < |bufs|
  {
    Request(b, bufs[b].dirty, bufs[b].blockno, bufs[b].data, false, "")
  }

  /** Nobody is inside iderw for b: its lock is held by a process doing something else, or free. */
  ghost predicate Unused(s: State, b: nat) {
    forall p :: 0 <= p < |s.calls| && s.calls[p].In? ==> s.calls[p].b != b
  }

  /** iderw up to its first sleep: append, and start the device if it was idle. */
  ghost predicate EnterStep(s: State, p: nat, b: nat, s': State) {
    && p < |s.calls| && s.calls[p] == Out && Unused(s, b)
    && b < |s.bufs| && NeedsIo(s.bufs[b]) && s.bufs[b].blockno < |s.disk|
    && s' == s.(queue := s.queue + [b], called := s.called + [b], calls := s.calls[p := In(b, true)],
                device := if s.queue == [] then Some(Start(s.bufs, b)) else s.device)
  }

  /** The device carries out the request it was given. */
  ghost predicate WorkStep(s: State, s': State) {
    && s.device.Some? && !s.device.value.done
    && var r := s.device.value;
       && r.blockno < |s.disk|
       && s' == s.(disk := if r.write then s.disk[r.blockno := r.data] else s.disk,
                   device := Some(r.(done := true, answer := s.disk[r.blockno])),
                   served := s.served + [r.b])
  }

  function Woken(c: Call, b: nat): Call {
    if c.In? && c.b == b then In(b, false) else c
  }

  function Wake(calls: seq<Call>, b: nat): (r: seq<Call>)
    ensures |r| == |calls| && forall p :: 0 <= p < |calls| ==> r[p] == Woken(calls[p], b)
  {
    seq(|calls|, p requires 0 <= p < |calls| => Woken(calls[p], b))
  }

  /** ideintr: finish the first buffer, wake its process, start the next request. */
  ghost predicate InterruptStep(s: State, s': State) {
    if s.queue == [] then s' == s
    else
      && s.device.Some? && s.device.value.done && s.queue[0] < |s.bufs|
      && var b, rest := s.queue[0], s.queue[1..];
         var x := s.bufs[b];
         var y := (if x.dirty then x else x.(data := s.device.value.answer)).(valid := true, dirty := false);
         && (rest != [] ==> rest[0] < |s.bufs|)
         && s' == s.(bufs := s.bufs[b := y], queue := rest, calls := Wake(s.calls, b),
                     device := if rest == [] then None else Some(Start(s.bufs[b := y], rest[0])))
  }

  /** The loop at the end of iderw, after a wakeup. */
  ghost predicate ResumeStep(s: State, p: nat, s': State) {
    && p < |s.calls| && s.calls[p].In? && !s.calls[p].asleep && s.calls[p].b < |s.bufs|
    && s' == s.(calls := s.calls[p := if NeedsIo(s.bufs[s.calls[p].b]) then In(s.calls[p].b, true) else Out])
  }

  ghost predicate Step(s: State, l: Label, s': State) {
    match l
    case Enter(p, b) => EnterStep(s, p, b, s')
    case Work => WorkStep(s, s')
    case Interrupt => InterruptStep(s, s')
    case Resume(p) => ResumeStep(s, p, s')
    case Spurious(p) =>
      p < |s.calls| && s.calls[p].In? && s' == s.(calls := s.calls[p := In(s.calls[p].b, false)])
    case Touch(b, x) => // the holder of a buffer changes it, or it is recycled
      b < |s.bufs| && Unused(s, b) && s' == s.(bufs := s.bufs[b := x])
  }

  ghost predicate Next(s: State, s': State) {
    exists l :: Step(s, l, s')
  }

  ghost predicate Run(t: seq<State>) {
    && |t| > 0 && Init(t[0])
    && forall i: nat :: Follows(t, i)
  }

  ghost predicate Follows(t: seq<State>, i: nat) {
    0 < i < |t| ==> Next(t[i - 1], t[i])
  }

  // ---- Invariants

  ghost predicate DeviceDone(s: State) {
    s.device.Some? && s.device.value.done
  }

  /** The device has the first request of the queue, as its buffer stands. */
  ghost predicate DeviceOk(s: State) {
    if s.queue == [] then s.device == None
    else
      && s.device.Some? && s.queue[0] < |s.bufs|
      && var r, x := s.device.value, s.bufs[s.queue[0]];
         && r.b == s.queue[0] && r.write == x.dirty && r.blockno == x.blockno && r.data == x.data
         && (r.done && !r.write ==> r.blockno < |s.disk| && r.answer == s.disk[r.blockno])
  }

  ghost predicate QueueOk(s: State) {
    && (forall i, j :: 0 <= i < j < |s.queue| ==> s.queue[i] != s.queue[j])
    && (forall i :: 0 <= i < |s.queue| ==>
          s.queue[i] < |s.bufs| && NeedsIo(s.bufs[s.queue[i]]) && s.bufs[s.queue[i]].blockno < |s.disk|)
  }

  ghost predicate Waits(s: State, b: nat) {
    exists p :: 0 <= p < |s.calls| && s.calls[p].In? && s.calls[p].b == b
  }

  /** Inside iderw the buffer is queued, or done with; whoever sleeps has it queued. */
  ghost predicate CallsOk(s: State) {
    && (forall p :: 0 <= p < |s.calls| && s.calls[p].In? ==>
          s.calls[p].b < |s.bufs| && (s.calls[p].b in s.queue || !NeedsIo(s.bufs[s.calls[p].b])))
    && (forall p :: 0 <= p < |s.calls| && s.calls[p].In? && s.calls[p].asleep ==> s.calls[p].b in s.queue)
    && (forall p, q :: 0 <= p < q < |s.calls| && s.calls[p].In? && s.calls[q].In? ==> s.calls[p].b != s.calls[q].b)
    && (forall i :: 0 <= i < |s.queue| ==> Waits(s, s.queue[i]))
  }

  /** Requests are carried out in the order in which they were made. */
  ghost predicate Fifo(s: State) {
    s.called == s.served + (if DeviceDone(s) && s.queue != [] then s.queue[1..] else s.queue)
  }

  ghost predicate Inv(s: State) {
    QueueOk(s) && DeviceOk(s) && CallsOk(s) && Fifo(s)
  }

  lemma EnterCalls(s: State, p: nat, b: nat, s': State)
    requires Inv(s) && EnterStep(s, p, b, s')
    ensures CallsOk(s') && b !in s.queue
  {
    forall i | 0 <= i < |s.queue| ensures s.queue[i] != b && Waits(s', s.queue[i]) {
      assert Waits(s, s.queue[i]);
      var q :| 0 <= q < |s.calls| && s.calls[q].In? && s.calls[q].b == s.queue[i];
      assert s'.calls[q] == s.calls[q];
    }
    assert s'.calls[p].In? && s'.calls[p].b == b;
    assert s'.queue[|s.queue|] == b;
    forall q | 0 <= q < |s'.calls| && s'.calls[q].In? && s'.calls[q].b in s.queue ensures s'.calls[q].b in s'.queue {}
  }

  lemma EnterInv(s: State, p: nat, b: nat, s': State)
    requires Inv(s) && EnterStep(s, p, b, s')
    ensures Inv(s')
  {
    EnterCalls(s, p, b, s');
    if DeviceDone(s) && s.queue != [] {
      assert s'.queue[1..] == s.queue[1..] + [b];
    }
  }

  lemma WorkInv(s: State, s': State)
    requires Inv(s) && WorkStep(s, s')
    ensures Inv(s')
  {
    WorkFifo(s, s');
    forall i | 0 <= i < |s'.queue| ensures Waits(s', s'.queue[i]) { assert Waits(s, s.queue[i]); }
  }

  lemma WorkFifo(s: State, s': State)
    requires Fifo(s) && DeviceOk(s) && WorkStep(s, s')
    ensures Fifo(s')
  {
    assert s.queue == [s.queue[0]] + s.queue[1..];
    assert s'.called == s'.served + s'.queue[1..];
  }

  /** A caller of iderw after an interrupt: still queued, or done with. */
  lemma InterruptCall(s: State, s': State, p: nat)
    requires Inv(s) && InterruptStep(s, s') && s.queue != [] && p < |s.calls| && s.calls[p].In?
    ensures |s'.calls| == |s.calls| && s'.calls[p].In? && s'.calls[p].b == s.calls[p].b < |s'.bufs|
    ensures s'.calls[p].b in s'.queue || !NeedsIo(s'.bufs[s'.calls[p].b])
    ensures s'.calls[p].asleep ==> s'.calls[p].b in s'.queue
  {
    var b := s.queue[0];
    if s.calls[p].b in s.queue && s.calls[p].b != b {
      var i :| 0 <= i < |s.queue| && s.queue[i] == s.calls[p].b;
      assert s'.queue[i - 1] == s.calls[p].b;
    }
  }

  lemma InterruptWaits(s: State, s': State, i: nat)
    requires Inv(s) && InterruptStep(s, s') && s.queue != [] && i < |s'.queue|
    ensures Waits(s', s'.queue[i])
  {
    assert Waits(s, s.queue[i + 1]);
    var q :| 0 <= q < |s.calls| && s.calls[q].In? && s.calls[q].b == s.queue[i + 1];
    assert s'.calls[q] == s.calls[q];
  }

  lemma InterruptCalls(s: State, s': State)
    requires Inv(s) && InterruptStep(s, s') && s.queue != []
    ensures CallsOk(s')
  {
    forall p | 0 <= p < |s'.calls| && s'.calls[p].In?
      ensures s.calls[p].In? && s'.calls[p].b == s.calls[p].b < |s'.bufs|
      ensures s'.calls[p].b in s'.queue || !NeedsIo(s'.bufs[s'.calls[p].b])
      ensures s'.calls[p].asleep ==> s'.calls[p].b in s'.queue
    {
      InterruptCall(s, s', p);
    }
    forall i | 0 <= i < |s'.queue| ensures Waits(s', s'.queue[i]) {
      InterruptWaits(s, s', i);
    }
  }

  lemma InterruptInv(s: State, s': State)
    requires Inv(s) && InterruptStep(s, s')
    ensures Inv(s')
  {
    if s.queue != [] {
      InterruptCalls(s, s');
      forall i | 0 <= i < |s'.queue| ensures s'.queue[i] == s.queue[i + 1] && s'.queue[i] != s.queue[0] {}
    }
  }

  lemma CallsChange(s: State, p: nat, s': State)
    requires Inv(s) && p < |s.calls| && s.calls[p].In? && |s'.calls| == |s.calls|
      && s'.calls == s.calls[p := s'.calls[p]]
    requires s' == s.(calls := s'.calls)
    requires s'.calls[p].In? ==> s'.calls[p].b == s.calls[p].b && (s'.calls[p].asleep ==> s.calls[p].b in s.queue)
    requires s'.calls[p] == Out ==> s.calls[p].b !in s.queue
    ensures Inv(s')
  {
    forall i | 0 <= i < |s'.queue| ensures Waits(s', s'.queue[i]) {
      assert Waits(s, s.queue[i]);
      var q :| 0 <= q < |s.calls| && s.calls[q].In? && s.calls[q].b == s.queue[i];
      assert s'.calls[q].In? && s'.calls[q].b == s.queue[i];
    }
  }

  lemma TouchInv(s: State, b: nat, x: Buf, s': State)
    requires Inv(s) && Step(s, Touch(b, x), s')
    ensures Inv(s') && b !in s.queue
  {
    forall i | 0 <= i < |s'.queue| ensures Waits(s', s'.queue[i]) && s'.queue[i] != b {
      assert Waits(s, s.queue[i]);
    }
  }

  lemma ResumeInv(s: State, p: nat, s': State)
    requires Inv(s) && ResumeStep(s, p, s')
    ensures Inv(s')
    ensures s'.calls[p] == Out ==> s.calls[p].b !in s.queue
  {
    CallsChange(s, p, s');
  }

  lemma StepInv(s: State, l: Label, s': State)
    requires Inv(s) && Step(s, l, s')
    ensures Inv(s')
  {
    match l
    case Enter(p, b) => EnterInv(s, p, b, s');
    case Work => WorkInv(s, s');
    case Interrupt => InterruptInv(s, s');
    case Resume(p) => ResumeInv(s, p, s');
    case Spurious(p) => CallsChange(s, p, s');
    case Touch(b, x) => TouchInv(s, b, x, s');
  }

  lemma {:induction false} RunInv(t: seq<State>, i: nat)
    requires Run(t) && i < |t|
    ensures Inv(t[i])
  {
    if i > 0 {
      RunInv(t, i - 1);
      assert Follows(t, i);
      var l :| Step(t[i - 1], l, t[i]);
      StepInv(t[i - 1], l, t[i]);
    }
  }

  // ---- Main results

  /** What the driver amounts to at any moment: the buffer that the device has finished counts
      as synchronized although its flags do not say so yet. */
  ghost function Abstract(s: State): Store
    requires Inv(s)
  {
    Store(s.disk, if DeviceDone(s) then s.bufs[s.queue[0] := Synced(s.bufs[s.queue[0]], s.disk)] else s.bufs)
  }

  /** Refinement: every step of the driver, the device and the callers is one iderw of the
      memory disk on the request that is due, or a change of a buffer outside the driver, or
      nothing at all. */
  lemma Refines(s: State, l: Label, s': State)
    requires Inv(s) && Step(s, l, s')
    ensures Inv(s')
    ensures l == Work ==> s.queue != [] && s'.served == s.served + [s.queue[0]]
                          && s.queue[0] < |s.bufs| && s.bufs[s.queue[0]].blockno < |s.disk|
                          && Abstract(s') == MemRw(Abstract(s), s.queue[0])
    ensures l.Touch? ==> l.b < |s.bufs| && Abstract(s') == Abstract(s).(bufs := Abstract(s).bufs[l.b := l.x])
    ensures l != Work && !l.Touch? ==> Abstract(s') == Abstract(s)
  {
    StepInv(s, l, s');
    if l.Touch? {
      TouchInv(s, l.b, l.x, s');
      if DeviceDone(s) {
        assert s.bufs[l.b := l.x][s.queue[0] := Synced(s.bufs[s.queue[0]], s.disk)]
            == s.bufs[s.queue[0] := Synced(s.bufs[s.queue[0]], s.disk)][l.b := l.x];
      }
    }
  }

  /** Between the steps, that is whenever idelock is free, the device is working on the first
      buffer of the queue, requests are served in the order they were made, and every process
      asleep on a buffer has it queued. */
  lemma QueueDiscipline(t: seq<State>, i: nat)
    requires Run(t) && i < |t|
    ensures t[i].queue != [] <==> t[i].device.Some?
    ensures t[i].queue != [] ==> t[i].device.value.b == t[i].queue[0]
    ensures t[i].served <= t[i].called
    ensures forall p :: 0 <= p < |t[i].calls| && t[i].calls[p].In? && t[i].calls[p].asleep ==>
      t[i].calls[p].b in t[i].queue
  {
    RunInv(t, i);
  }

  // ---- The queue itself: a list linked through b->qnext

  ghost predicate Linked(qnext: map<nat, Option<nat>>, from: Option<nat>, list: seq<nat>)
    decreases |list|
  {
    if list == [] then from == None
    else from == Some(list[0]) && list[0] in qnext && Linked(qnext, qnext[list[0]], list[1..])
  }

  /** Making the last link of a list point at b, whose own link is empty, appends b. */
  lemma {:induction false} LinkedAppend(before: map<nat, Option<nat>>, after: map<nat, Option<nat>>,
                                        from: Option<nat>, list: seq<nat>, b: nat)
    requires Linked(before, from, list) && list != []
    requires forall i, j :: 0 <= i < j < |list| ==> list[i] != list[j]
    requires b in after && after[b] == None
    requires list[|list| - 1] in after && after[list[|list| - 1]] == Some(b)
    requires forall i :: 0 <= i < |list| - 1 ==>
      list[i] in before && list[i] in after && after[list[i]] == before[list[i]]
    ensures Linked(after, from, list + [b])
    decreases |list|
  {
    assert (list + [b])[1..] == list[1..] + [b];
    if |list| > 1 {
      assert after[list[0]] == before[list[0]];
      LinkedAppend(before, after, before[list[0]], list[1..], b);
    } else {
      assert list[1..] + [b] == [b];
      assert Linked(after, Some(b), [b]);
    }
  }

  /** The i-th element of a linked list leads to the rest of it. */
  lemma {:induction false} LinkedFrom(qnext: map<nat, Option<nat>>, from: Option<nat>, list: seq<nat>, i: nat)
    requires Linked(qnext, from, list) && i < |list|
    ensures list[i] in qnext && Linked(qnext, qnext[list[i]], list[i + 1..])
    ensures qnext[list[i]] == if i + 1 < |list| then Some(list[i + 1]) else None
    decreases |list|
  {
    if i > 0 {
      LinkedFrom(qnext, qnext[list[0]], list[1..], i - 1);
      assert list[1..][i..] == list[i + 1..];
    }
  }

  class Queue {
    var head: Option<nat>
    var qnext: map<nat, Option<nat>>
    ghost var contents: seq<nat>

    ghost predicate Valid()
      reads this
    {
      && Linked(qnext, head, contents)
      && forall i, j :: 0 <= i < j < |contents| ==> contents[i] != contents[j]
    }

    constructor ()
      ensures Valid() && contents == []
    {
      head, qnext, contents := None, map[], [];
    }

    /** Walks to the end of the list and links b in there. */
    method Append(b: nat)
      requires Valid() && b !in contents
      modifies this
      ensures Valid() && contents == old(contents) + [b]
    {
      ghost var was, list := qnext, contents;
      if head == None {
        qnext := qnext[b := None];
        head := Some(b);
        contents := [b];
        assert list == [];
        return;
      }
      var pp := head.value;
      ghost var i := 0;
      LinkedFrom(was, head, list, 0);
      while qnext[pp].Some?
        invariant qnext == was && head == old(head)
        invariant i < |list| && pp == list[i] && pp in qnext
        invariant qnext[pp] == if i + 1 < |list| then Some(list[i + 1]) else None
        decreases |list| - i
      {
        pp := qnext[pp].value;
        i := i + 1;
        LinkedFrom(was, head, list, i);
      }
      qnext := qnext[b := None][pp := Some(b)];
      forall k | 0 <= k < |list| - 1 ensures list[k] in was && list[k] in qnext && qnext[list[k]] == was[list[k]] {
        LinkedFrom(was, head, list, k);
      }
      LinkedAppend(was, qnext, head, list, b);
      contents := list + [b];
    }

    /** idequeue = b->qnext */
    method Pop() returns (b: Option<nat>)
      requires Valid()
      modifies this`head, this`contents
      ensures Valid()
      ensures b == if old(contents) == [] then None else Some(old(contents)[0])
      ensures contents == if old(contents) == [] then [] else old(contents)[1..]
    {
      b := head;
      if b.Some? {
        head := qnext[b.value];
        contents := contents[1..];
      }
    }
  }
}
