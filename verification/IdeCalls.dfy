/** What one call of iderw amounts to, from its entry to its return, whatever other calls, the
    device and its interrupts do in between: the request is carried out exactly once, at a moment
    inside the call, as the memory disk would carry it out then. */
module IdeCalls {
  import opened IdeQueue
  import opened Options

  /** The step from state k carries out a request for b. */
  ghost predicate Serves(t: seq<State>, k: nat, b: nat) {
    k + 1 < |t| && t[k + 1].served == t[k].served + [b]
  }

  ghost predicate NoneServed(t: seq<State>, lo: nat, hi: nat, b: nat) {
    forall k: nat :: lo <= k < hi ==> !Serves(t, k, b)
  }

  ghost predicate ServedOnce(t: seq<State>, lo: nat, hi: nat, b: nat, k: nat) {
    lo <= k < hi && Serves(t, k, b) && NoneServed(t, lo, k, b) && NoneServed(t, k + 1, hi, b)
  }

  /** The disk after the request of buffer x. */
  ghost function DiskAfter(x: Buf, disk: seq<Block>): seq<Block>
    requires x.blockno < |disk|
  {
    if x.dirty then disk[x.blockno := x.data] else disk
  }

  // ---- The three stages of a call by p for buffer b, which was x at the entry

  ghost predicate Inside(s: State, p: nat, b: nat) {
    p < |s.calls| && s.calls[p].In? && s.calls[p].b == b && b < |s.bufs|
  }

  ghost predicate Waiting(s: State, p: nat, b: nat, x: Buf) {
    Inside(s, p, b) && s.bufs[b] == x && b in s.queue && !(DeviceDone(s) && s.queue[0] == b)
  }

  /** The device is done with it; disk is what it worked on. */
  ghost predicate Answered(s: State, p: nat, b: nat, x: Buf, disk: seq<Block>) {
    && Inside(s, p, b) && s.bufs[b] == x && s.queue != [] && s.queue[0] == b && DeviceDone(s)
    && x.blockno < |disk| && s.device.value.answer == disk[x.blockno]
  }

  ghost predicate Finished(s: State, p: nat, b: nat, x: Buf, disk: seq<Block>) {
    Inside(s, p, b) && x.blockno < |disk| && s.bufs[b] == Synced(x, disk) && b !in s.queue
  }

  lemma InQueueTail(q: seq<nat>, b: nat)
    requires b in q && q[0] != b
    ensures b in q[1..]
  {}

  lemma WaitingStep(s: State, l: Label, s': State, p: nat, b: nat, x: Buf)
    requires Inv(s) && Step(s, l, s') && Waiting(s, p, b, x) && p < |s'.calls| && s'.calls[p].In?
    ensures x.blockno < |s.disk|
    ensures s'.served != s.served + [b] ==> Waiting(s', p, b, x)
    ensures s'.served == s.served + [b] ==> Answered(s', p, b, x, s.disk) && s'.disk == DiskAfter(x, s.disk)
  {
    match l
    case Enter(q, c) => assert c != b;
    case Work =>
      assert s.queue != [];
      if s.queue[0] != b { assert (s.served + [s.queue[0]])[|s.served|] != (s.served + [b])[|s.served|]; }
    case Interrupt => InQueueTail(s.queue, b);
    case Resume(q) =>
    case Spurious(q) =>
    case Touch(c, y) => assert c != b;
  }

  lemma AnsweredStep(s: State, l: Label, s': State, p: nat, b: nat, x: Buf, disk: seq<Block>)
    requires Inv(s) && Step(s, l, s') && Answered(s, p, b, x, disk) && p < |s'.calls| && s'.calls[p].In?
    ensures s'.served != s.served + [b]
    ensures Answered(s', p, b, x, disk) || Finished(s', p, b, x, disk)
  {
    match l
    case Enter(q, c) =>
    case Work =>
    case Interrupt => assert b !in s.queue[1..];
    case Resume(q) =>
    case Spurious(q) =>
    case Touch(c, y) => assert c != b;
  }

  lemma FinishedStep(s: State, l: Label, s': State, p: nat, b: nat, x: Buf, disk: seq<Block>)
    requires Inv(s) && Step(s, l, s') && Finished(s, p, b, x, disk) && p < |s'.calls| && s'.calls[p].In?
    ensures s'.served != s.served + [b] && Finished(s', p, b, x, disk)
  {
    match l
    case Enter(q, c) => assert c != b;
    case Work => assert (s.served + [s.queue[0]])[|s.served|] != (s.served + [b])[|s.served|];
    case Interrupt =>
    case Resume(q) =>
    case Spurious(q) =>
    case Touch(c, y) => assert c != b;
  }

  // ---- Whole calls

  ghost predicate StillIn(t: seq<State>, p: nat, k: nat) {
    k < |t| ==> p < |t[k].calls| && t[k].calls[p].In?
  }

  /** p enters iderw for b at state i and has not left it at state j. */
  ghost predicate Running(t: seq<State>, p: nat, b: nat, i: nat, j: nat) {
    && Run(t) && i < j < |t| && EnterStep(t[i], p, b, t[i + 1])
    && forall k: nat :: i < k <= j ==> StillIn(t, p, k)
  }

  ghost predicate Before(t: seq<State>, p: nat, b: nat, i: nat, j: nat)
    requires i < j < |t| && b < |t[i].bufs|
  {
    Waiting(t[j], p, b, t[i].bufs[b]) && NoneServed(t, i, j, b)
  }

  /** The request has been carried out by the step from state k. */
  ghost predicate Since(t: seq<State>, p: nat, b: nat, i: nat, j: nat, k: nat)
    requires i < j < |t| && b < |t[i].bufs|
  {
    var x := t[i].bufs[b];
    && ServedOnce(t, i, j, b, k) && i < k && b < |t[k].bufs| && t[k].bufs[b] == x && x.blockno < |t[k].disk|
    && t[k + 1].disk == DiskAfter(x, t[k].disk)
    && (Answered(t[j], p, b, x, t[k].disk) || Finished(t[j], p, b, x, t[k].disk))
  }

  ghost predicate Stage(t: seq<State>, p: nat, b: nat, i: nat, j: nat)
    requires i < j < |t| && b < |t[i].bufs|
  {
    Before(t, p, b, i, j) || exists k: nat :: Since(t, p, b, i, j, k)
  }

  lemma Entered(s: State, p: nat, b: nat, s': State)
    requires Inv(s) && EnterStep(s, p, b, s')
    ensures Waiting(s', p, b, s.bufs[b]) && s'.served != s.served + [b]
  {
    EnterCalls(s, p, b, s');
    assert s'.queue[|s.queue|] == b;
  }

  lemma NoneServedMore(t: seq<State>, lo: nat, hi: nat, b: nat)
    requires lo <= hi && NoneServed(t, lo, hi, b) && !Serves(t, hi, b)
    ensures NoneServed(t, lo, hi + 1, b)
  {}

  lemma BeforeStep(t: seq<State>, p: nat, b: nat, i: nat, j: nat, l: Label)
    requires i < j && j + 1 < |t| && b < |t[i].bufs| && Inv(t[j]) && Step(t[j], l, t[j + 1]) && StillIn(t, p, j + 1)
    requires Before(t, p, b, i, j)
    ensures Stage(t, p, b, i, j + 1)
  {
    WaitingStep(t[j], l, t[j + 1], p, b, t[i].bufs[b]);
    if t[j + 1].served == t[j].served + [b] {
      assert Serves(t, j, b);
      assert ServedOnce(t, i, j + 1, b, j);
      assert Since(t, p, b, i, j + 1, j);
    } else {
      NoneServedMore(t, i, j, b);
    }
  }

  lemma SinceStep(t: seq<State>, p: nat, b: nat, i: nat, j: nat, k: nat, l: Label)
    requires i < j && j + 1 < |t| && b < |t[i].bufs| && Inv(t[j]) && Step(t[j], l, t[j + 1]) && StillIn(t, p, j + 1)
    requires Since(t, p, b, i, j, k)
    ensures Since(t, p, b, i, j + 1, k)
  {
    var x := t[i].bufs[b];
    if Finished(t[j], p, b, x, t[k].disk) {
      FinishedStep(t[j], l, t[j + 1], p, b, x, t[k].disk);
    } else {
      AnsweredStep(t[j], l, t[j + 1], p, b, x, t[k].disk);
    }
    NoneServedMore(t, k + 1, j, b);
  }

  lemma StageStep(t: seq<State>, p: nat, b: nat, i: nat, j: nat)
    requires i < j && j + 1 < |t| && b < |t[i].bufs| && Inv(t[j]) && Next(t[j], t[j + 1]) && StillIn(t, p, j + 1)
    requires Stage(t, p, b, i, j)
    ensures Stage(t, p, b, i, j + 1)
  {
    var l :| Step(t[j], l, t[j + 1]);
    if Before(t, p, b, i, j) {
      BeforeStep(t, p, b, i, j, l);
    } else {
      var k: nat :| Since(t, p, b, i, j, k);
      SinceStep(t, p, b, i, j, k, l);
    }
  }

  /** The call has gone through the stages up to state j. */
  ghost predicate Staged(t: seq<State>, p: nat, b: nat, i: nat, j: nat)
    decreases j
  {
    && i < j < |t| && b < |t[i].bufs| && Stage(t, p, b, i, j)
    && (i + 1 < j ==> Staged(t, p, b, i, j - 1))
  }

  lemma StagedFirst(t: seq<State>, p: nat, b: nat, i: nat)
    requires Run(t) && i + 1 < |t| && EnterStep(t[i], p, b, t[i + 1])
    ensures Staged(t, p, b, i, i + 1)
  {
    RunInv(t, i);
    Entered(t[i], p, b, t[i + 1]);
    assert !Serves(t, i, b);
  }

  lemma StagedNext(t: seq<State>, p: nat, b: nat, i: nat, j: nat)
    requires Run(t) && 0 < j < |t| && StillIn(t, p, j) && Staged(t, p, b, i, j - 1)
    ensures Staged(t, p, b, i, j)
  {
    RunInv(t, j - 1);
    assert Follows(t, j);
    StageStep(t, p, b, i, j - 1);
  }

  lemma {:induction false} RunningStaged(t: seq<State>, p: nat, b: nat, i: nat, j: nat)
    requires Running(t, p, b, i, j)
    ensures Staged(t, p, b, i, j)
    decreases j
  {
    if j == i + 1 {
      StagedFirst(t, p, b, i);
    } else {
      RunningStaged(t, p, b, i, j - 1);
      assert StillIn(t, p, j);
      StagedNext(t, p, b, i, j);
    }
  }

  /** Process p enters iderw for b at state i and returns from it at state j: some state k
      between them is the one moment at which a request for b is carried out, and the call has
      done what the memory disk does in one go in state k. The disk changes as MemRw says, and
      the buffer, which nobody has touched since the entry, comes back as MemRw leaves it. */
  ghost predicate CarriedOut(t: seq<State>, b: nat, i: nat, j: nat, k: nat) {
    && i < k < j < |t| && b < |t[i].bufs| && b < |t[j].bufs| && b < |t[k].bufs|
    && ServedOnce(t, i, j, b, k)
    && var x := t[i].bufs[b];
       && t[k].bufs[b] == x && x.blockno < |t[k].disk|
       && var m := MemRw(Store(t[k].disk, t[k].bufs), b);
          t[k + 1].disk == m.disk && t[j].bufs[b] == m.bufs[b]
  }

  lemma CallIsAtomic(t: seq<State>, p: nat, b: nat, i: nat, j: nat)
    requires Running(t, p, b, i, j) && j + 1 < |t| && ResumeStep(t[j], p, t[j + 1]) && t[j + 1].calls[p] == Out
    ensures exists k: nat :: CarriedOut(t, b, i, j, k)
  {
    RunningStaged(t, p, b, i, j);
    RunInv(t, j);
    assert !Before(t, p, b, i, j);
    var k: nat :| Since(t, p, b, i, j, k);
    assert CarriedOut(t, b, i, j, k);
  }
}
