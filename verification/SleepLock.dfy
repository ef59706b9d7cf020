/** A sleep-lock of kernel/sleeplock.c shared by any number of processes, together with the
    parts of sleep and wakeup in kernel/proc.c that it uses. Every step is one action
    between two points at which another CPU can interfere. */
module SleepLock {
  import opened Basics
  import opened Options

  /** Where a process is. The names A.. are in acquiresleep and the sleep it calls, R.. in
      releasesleep and the wakeup it calls. */
  datatype PC =
    | Idle
    | AEntry        // about to acquire lk.lk
    | ATest         // holds lk.lk, about to test locked
    | ASleep        // holds lk.lk, saw locked, has called sleep
    | ASwap         // sleep is between taking one lock and giving up the other
    | ASet          // holds ptable.lock only, about to set SLEEPING
    | ASched        // is SLEEPING, about to leave the CPU with ptable.lock
    | Asleep
    | Woken         // RUNNABLE, waiting to be scheduled
    | AResume       // scheduled again, holds ptable.lock
    | AAgain        // about to reacquire lk.lk
    | ATaken        // has set locked, about to release lk.lk
    | Critical      // acquiresleep has returned
    | REntry        // about to acquire lk.lk
    | RClear        // holds lk.lk, about to clear locked
    | RWakeup       // has cleared locked, about to acquire ptable.lock
    | RScan         // holds both locks, about to wake the sleepers
    | RPtable       // about to release ptable.lock
    | RDone         // about to release lk.lk

  /** lk is the holder of lk.lk, ptable the holder of ptable.lock, owner is lk.pid. */
  datatype State = State(pc: seq<PC>, lk: Option<Pid>, ptable: Option<Pid>, locked: bool, owner: Option<Pid>)

  datatype Action = Move(p: Pid) | Kill(p: Pid)

  ghost predicate Init(s: State) {
    && (forall p :: 0 <= p < |s.pc| ==> s.pc[p] == Idle)
    && s.lk == None && s.ptable == None && !s.locked && s.owner == None
  }

  function At(s: State, p: Pid, to: PC): State
    requires p < |s.pc|
  {
    s.(pc := s.pc[p := to])
  }

  /** wakeup1: every process asleep on the lock becomes RUNNABLE. */
  function WakeAll(pc: seq<PC>): (r: seq<PC>)
    ensures |r| == |pc|
    ensures forall q :: 0 <= q < |pc| ==> r[q] == if pc[q] == Asleep then Woken else pc[q]
  {
    seq(|pc|, q requires 0 <= q < |pc| => if pc[q] == Asleep then Woken else pc[q])
  }

  /** The next action of process p, if it is not blocked. With ordered, sleep acquires
      ptable.lock before it releases lk.lk, as the code does; without, the other way round. */
  function Moved(ordered: bool, s: State, p: Pid): Option<State>
    requires p < |s.pc|
  {
    match s.pc[p]
    case Idle => Some(At(s, p, AEntry))
    case AEntry => if s.lk == None then Some(At(s, p, ATest).(lk := Some(p))) else None
    case ATest =>
      if s.locked then Some(At(s, p, ASleep))
      else Some(At(s, p, ATaken).(locked := true, owner := Some(p)))
    case ASleep =>
      if !ordered then Some(At(s, p, ASwap).(lk := None))
      else if s.ptable == None then Some(At(s, p, ASwap).(ptable := Some(p)))
      else None
    case ASwap =>
      if ordered then Some(At(s, p, ASet).(lk := None))
      else if s.ptable == None then Some(At(s, p, ASet).(ptable := Some(p)))
      else None
    case ASet => Some(At(s, p, ASched))
    case ASched => Some(At(s, p, Asleep).(ptable := None)) // the scheduler releases it
    case Asleep => None
    case Woken => if s.ptable == None then Some(At(s, p, AResume).(ptable := Some(p))) else None
    case AResume => Some(At(s, p, AAgain).(ptable := None))
    case AAgain => if s.lk == None then Some(At(s, p, ATest).(lk := Some(p))) else None
    case ATaken => Some(At(s, p, Critical).(lk := None))
    case Critical => Some(At(s, p, REntry))
    case REntry => if s.lk == None then Some(At(s, p, RClear).(lk := Some(p))) else None
    case RClear => Some(At(s, p, RWakeup).(locked := false, owner := None))
    case RWakeup => if s.ptable == None then Some(At(s, p, RScan).(ptable := Some(p))) else None
    case RScan => Some(At(s.(pc := WakeAll(s.pc)), p, RPtable))
    case RPtable => Some(At(s, p, RDone).(ptable := None))
    case RDone => Some(At(s, p, Idle).(lk := None))
  }

  ghost predicate Step(ordered: bool, s: State, a: Action, s': State) {
    && a.p < |s.pc|
    && match a
       case Move(p) => Moved(ordered, s, p) == Some(s')
       case Kill(p) => s.ptable == None && s.pc[p] == Asleep && s' == At(s, p, Woken)
  }

  ghost predicate Next(ordered: bool, s: State, s': State) {
    exists a :: Step(ordered, s, a, s')
  }

  ghost predicate Path(ordered: bool, t: seq<State>) {
    |t| > 0 && forall i: nat :: Follows(ordered, t, i)
  }

  ghost predicate Follows(ordered: bool, t: seq<State>, i: nat) {
    0 < i < |t| ==> Next(ordered, t[i - 1], t[i])
  }

  ghost predicate Run(ordered: bool, t: seq<State>) {
    Path(ordered, t) && Init(t[0])
  }

  // ---- Invariants

  ghost predicate HasSpin(pc: PC) {
    pc.ATest? || pc.ASleep? || pc.ASwap? || pc.ATaken? || pc.RClear? || pc.RWakeup? || pc.RScan? || pc.RPtable?
      || pc.RDone?
  }

  ghost predicate HasPtable(pc: PC) {
    pc.ASwap? || pc.ASet? || pc.ASched? || pc.AResume? || pc.RScan? || pc.RPtable?
  }

  /** From setting locked in acquiresleep to clearing it in releasesleep. */
  ghost predicate HasLock(pc: PC) {
    pc.ATaken? || pc.Critical? || pc.REntry? || pc.RClear?
  }

  /** Has found the lock taken and has given up, or is about to give up, the way to notice
      that it is released. */
  ghost predicate CommittedToSleep(pc: PC) {
    pc.ASleep? || pc.ASwap? || pc.ASet? || pc.ASched? || pc.Asleep?
  }

  /** Between clearing locked and finishing wakeup. */
  ghost predicate Releasing(pc: PC) {
    pc.RWakeup? || pc.RScan?
  }

  ghost predicate OwnsAt(s: State, p: Pid)
    requires p < |s.pc|
  {
    && (s.lk == Some(p) <==> HasSpin(s.pc[p]))
    && (s.ptable == Some(p) <==> HasPtable(s.pc[p]))
    && (s.owner == Some(p) <==> HasLock(s.pc[p]))
    && (s.locked <==> s.owner.Some?)
  }

  ghost predicate Owners(s: State) {
    && (forall p :: 0 <= p < |s.pc| ==> OwnsAt(s, p))
    && (s.lk.Some? ==> s.lk.value < |s.pc|)
    && (s.ptable.Some? ==> s.ptable.value < |s.pc|)
    && (s.owner.Some? ==> s.owner.value < |s.pc|)
    && (s.locked <==> s.owner.Some?)
  }

  ghost predicate SomeReleasing(s: State) {
    exists q :: 0 <= q < |s.pc| && Releasing(s.pc[q])
  }

  ghost predicate NobodyForgotten(s: State) {
    forall p :: 0 <= p < |s.pc| && CommittedToSleep(s.pc[p]) ==> s.locked || SomeReleasing(s)
  }

  ghost predicate Handover(x: Option<Pid>, x': Option<Pid>, p: Pid) {
    x' == x || (x == None && x' == Some(p)) || (x == Some(p) && x' == None)
  }

  /** What a step does: it moves one process, and wakeup moves sleepers, which own nothing. */
  ghost predicate OnlyMoves(s: State, p: Pid, s': State) {
    && |s'.pc| == |s.pc|
    && Handover(s.lk, s'.lk, p) && Handover(s.ptable, s'.ptable, p) && Handover(s.owner, s'.owner, p)
    && forall q :: 0 <= q < |s.pc| && q != p ==>
         s'.pc[q] == s.pc[q] || (s.pc[q] == Asleep && s'.pc[q] == Woken)
  }

  lemma MoverSpins(s: State, a: Action, s': State)
    requires Step(true, s, a, s') && OwnsAt(s, a.p)
    ensures a.p < |s'.pc| && (s'.lk == Some(a.p) <==> HasSpin(s'.pc[a.p]))
  {}

  lemma MoverPtable(s: State, a: Action, s': State)
    requires Step(true, s, a, s') && OwnsAt(s, a.p)
    ensures a.p < |s'.pc| && (s'.ptable == Some(a.p) <==> HasPtable(s'.pc[a.p]))
  {}

  lemma MoverLocks(s: State, a: Action, s': State)
    requires Step(true, s, a, s') && OwnsAt(s, a.p)
    ensures a.p < |s'.pc| && (s'.owner == Some(a.p) <==> HasLock(s'.pc[a.p])) && (s'.locked <==> s'.owner.Some?)
  {}

  lemma MoverOwns(s: State, a: Action, s': State)
    requires Step(true, s, a, s') && OwnsAt(s, a.p)
    ensures a.p < |s'.pc| && OwnsAt(s', a.p)
  {
    MoverSpins(s, a, s');
    MoverPtable(s, a, s');
    MoverLocks(s, a, s');
  }

  lemma StepOnlyMoves(s: State, a: Action, s': State)
    requires Step(true, s, a, s') && OwnsAt(s, a.p)
    ensures OnlyMoves(s, a.p, s')
  {}

  lemma OthersOwn(s: State, p: Pid, s': State)
    requires Owners(s) && p < |s.pc| && OnlyMoves(s, p, s') && OwnsAt(s', p)
    ensures Owners(s')
  {
    forall q | 0 <= q < |s'.pc| ensures OwnsAt(s', q) {
      assert OwnsAt(s, q);
    }
  }

  lemma OwnersStep(s: State, a: Action, s': State)
    requires Owners(s) && Step(true, s, a, s')
    ensures Owners(s')
  {
    assert OwnsAt(s, a.p);
    MoverOwns(s, a, s');
    StepOnlyMoves(s, a, s');
    OthersOwn(s, a.p, s');
  }

  /** Whoever holds both locks finds everybody asleep that has committed to sleep, and wakes them. */
  lemma ScanWakesAll(s: State, p: Pid, s': State)
    requires Owners(s) && Step(true, s, Move(p), s') && s.pc[p] == RScan
    ensures NobodyForgotten(s')
  {
    forall q | 0 <= q < |s'.pc| ensures !CommittedToSleep(s'.pc[q]) {
      assert OwnsAt(s, q) && OwnsAt(s, p);
    }
  }

  lemma ReleaserStays(s: State, a: Action, s': State, r: Pid)
    requires Step(true, s, a, s') && r < |s.pc| && Releasing(s.pc[r]) && !(a.Move? && s.pc[a.p] == RScan)
    ensures |s'.pc| == |s.pc| && Releasing(s'.pc[r])
  {}

  lemma ReleasingStays(s: State, a: Action, s': State)
    requires Step(true, s, a, s') && SomeReleasing(s) && !(a.Move? && s.pc[a.p] == RScan)
    ensures SomeReleasing(s')
  {
    var r :| 0 <= r < |s.pc| && Releasing(s.pc[r]);
    ReleaserStays(s, a, s', r);
  }

  /** Only releasesleep takes locked away, and then it is about to wake the sleepers. */
  lemma LockedOrReleasing(s: State, a: Action, s': State)
    requires Step(true, s, a, s') && s.locked
    ensures s'.locked || SomeReleasing(s')
  {
    if a.Move? && s.pc[a.p] == RClear { assert Releasing(s'.pc[a.p]); }
  }

  lemma CommittedBefore(s: State, a: Action, s': State, q: Pid)
    requires Step(true, s, a, s') && !(a.Move? && s.pc[a.p] == RScan) && q < |s'.pc| && CommittedToSleep(s'.pc[q])
    ensures |s'.pc| == |s.pc| && (CommittedToSleep(s.pc[q]) || s.locked)
  {}

  /** Only the release path takes locked away, and then it stands between the clearing and
      the wakeup until it has woken everybody that had gone to sleep before. */
  lemma ForgottenStep(s: State, a: Action, s': State)
    requires Owners(s) && NobodyForgotten(s) && Step(true, s, a, s')
    ensures NobodyForgotten(s')
  {
    if a.Move? && s.pc[a.p] == RScan {
      ScanWakesAll(s, a.p, s');
    } else {
      forall q | 0 <= q < |s'.pc| && CommittedToSleep(s'.pc[q]) ensures s'.locked || SomeReleasing(s') {
        CommittedBefore(s, a, s', q);
        if s.locked { LockedOrReleasing(s, a, s'); } else { ReleasingStays(s, a, s'); }
      }
    }
  }

  lemma NextSafe(s: State, s': State)
    requires Owners(s) && NobodyForgotten(s) && Next(true, s, s')
    ensures Owners(s') && NobodyForgotten(s')
  {
    var a :| Step(true, s, a, s');
    OwnersStep(s, a, s');
    ForgottenStep(s, a, s');
  }

  lemma {:induction false} RunSafe(t: seq<State>, i: nat)
    requires Run(true, t) && i < |t|
    ensures Owners(t[i]) && NobodyForgotten(t[i])
  {
    if i > 0 {
      RunSafe(t, i - 1);
      assert Follows(true, t, i);
      NextSafe(t[i - 1], t[i]);
    }
  }

  // ---- Main results

  /** At most one process is between the return of acquiresleep and the clearing in
      releasesleep, and locked with lk.pid, which is what holdingsleep tests, names it. */
  lemma MutualExclusion(t: seq<State>, i: nat, p: Pid, q: Pid)
    requires Run(true, t) && i < |t| && p < |t[i].pc| && q < |t[i].pc|
    ensures HasLock(t[i].pc[p]) && HasLock(t[i].pc[q]) ==> p == q
    ensures t[i].locked && t[i].owner == Some(p) <==> HasLock(t[i].pc[p])
  {
    RunSafe(t, i);
    assert OwnsAt(t[i], p) && OwnsAt(t[i], q);
  }

  /** No lost wakeup: in every interleaving a process that is asleep on the lock can rely on
      the lock being held, or on a releaser that has yet to finish its wakeup. */
  lemma NoLostWakeup(t: seq<State>, i: nat, p: Pid)
    requires Run(true, t) && i < |t| && p < |t[i].pc| && t[i].pc[p] == Asleep
    ensures t[i].locked || SomeReleasing(t[i])
  {
    RunSafe(t, i);
  }

  /** A process that wants the lock is never stuck for good: as long as anybody is inside
      acquiresleep, the critical section or releasesleep, one of those can move. */
  lemma NoDeadlock(t: seq<State>, i: nat, p: Pid)
    requires Run(true, t) && i < |t| && p < |t[i].pc| && t[i].pc[p] != Idle
    ensures exists q :: 0 <= q < |t[i].pc| && t[i].pc[q] != Idle && Moved(true, t[i], q).Some?
  {
    RunSafe(t, i);
    CanMove(t[i], p);
  }

  lemma CanMove(s: State, p: Pid)
    requires Owners(s) && NobodyForgotten(s) && p < |s.pc| && s.pc[p] != Idle
    ensures exists q :: 0 <= q < |s.pc| && s.pc[q] != Idle && Moved(true, s, q).Some?
  {
    assert OwnsAt(s, p);
    if s.ptable.Some? {
      assert OwnsAt(s, s.ptable.value);
      assert Moved(true, s, s.ptable.value).Some?;
    } else if s.lk.Some? {
      assert OwnsAt(s, s.lk.value);
      assert Moved(true, s, s.lk.value).Some?;
    } else if s.pc[p] == Asleep {
      forall q | 0 <= q < |s.pc| ensures !Releasing(s.pc[q]) { assert OwnsAt(s, q); }
      assert OwnsAt(s, s.owner.value);
      assert Moved(true, s, s.owner.value).Some?;
    } else {
      assert Moved(true, s, p).Some?;
    }
  }

  // ---- Why the order of the two locks in sleep matters

  lemma Joined(ordered: bool, t: seq<State>, u: seq<State>) returns (r: seq<State>)
    requires Path(ordered, t) && Path(ordered, u) && t[|t| - 1] == u[0]
    ensures Path(ordered, r) && r[0] == t[0] && r[|r| - 1] == u[|u| - 1]
  {
    r := t + u[1..];
    forall i: nat ensures Follows(ordered, r, i) {
      if i < |t| { assert Follows(ordered, t, i); } else { assert Follows(ordered, u, i - |t| + 1); }
    }
  }

  /** Process 0 takes the lock */
  lemma Taken() returns (t: seq<State>)
    ensures Path(false, t) && t[0] == State([Idle, Idle], None, None, false, None)
    ensures t[|t| - 1] == State([Critical, Idle], None, None, true, Some(0))
  {
    t := [
      State([Idle, Idle], None, None, false, None),
      State([AEntry, Idle], None, None, false, None),
      State([ATest, Idle], Some(0), None, false, None),
      State([ATaken, Idle], Some(0), None, true, Some(0)),
      State([Critical, Idle], None, None, true, Some(0))];
    assert t[1].pc == t[0].pc[0 := AEntry];
    assert Step(false, t[0], Move(0), t[1]);
    assert t[2].pc == t[1].pc[0 := ATest];
    assert Step(false, t[1], Move(0), t[2]);
    assert t[3].pc == t[2].pc[0 := ATaken];
    assert Step(false, t[2], Move(0), t[3]);
    assert t[4].pc == t[3].pc[0 := Critical];
    assert Step(false, t[3], Move(0), t[4]);
  }

  /** Process 1 finds it taken and gives up lk.lk first */
  lemma GivesUp() returns (t: seq<State>)
    ensures Path(false, t) && t[0] == State([Critical, Idle], None, None, true, Some(0))
    ensures t[|t| - 1] == State([Critical, ASwap], None, None, true, Some(0))
  {
    t := [
      State([Critical, Idle], None, None, true, Some(0)),
      State([Critical, AEntry], None, None, true, Some(0)),
      State([Critical, ATest], Some(1), None, true, Some(0)),
      State([Critical, ASleep], Some(1), None, true, Some(0)),
      State([Critical, ASwap], None, None, true, Some(0))];
    assert t[1].pc == t[0].pc[1 := AEntry];
    assert Step(false, t[0], Move(1), t[1]);
    assert t[2].pc == t[1].pc[1 := ATest];
    assert Step(false, t[1], Move(1), t[2]);
    assert t[3].pc == t[2].pc[1 := ASleep];
    assert Step(false, t[2], Move(1), t[3]);
    assert t[4].pc == t[3].pc[1 := ASwap];
    assert Step(false, t[3], Move(1), t[4]);
  }

  /** Process 0 clears the lock and takes ptable.lock */
  lemma Clears() returns (t: seq<State>)
    ensures Path(false, t) && t[0] == State([Critical, ASwap], None, None, true, Some(0))
    ensures t[|t| - 1] == State([RScan, ASwap], Some(0), Some(0), false, None)
  {
    t := [
      State([Critical, ASwap], None, None, true, Some(0)),
      State([REntry, ASwap], None, None, true, Some(0)),
      State([RClear, ASwap], Some(0), None, true, Some(0)),
      State([RWakeup, ASwap], Some(0), None, false, None),
      State([RScan, ASwap], Some(0), Some(0), false, None)];
    assert t[1].pc == t[0].pc[0 := REntry];
    assert Step(false, t[0], Move(0), t[1]);
    assert t[2].pc == t[1].pc[0 := RClear];
    assert Step(false, t[1], Move(0), t[2]);
    assert t[3].pc == t[2].pc[0 := RWakeup];
    assert Step(false, t[2], Move(0), t[3]);
    assert t[4].pc == t[3].pc[0 := RScan];
    assert Step(false, t[3], Move(0), t[4]);
  }

  /** Its wakeup finds nobody asleep */
  lemma WakesNobody() returns (t: seq<State>)
    ensures Path(false, t) && t[0] == State([RScan, ASwap], Some(0), Some(0), false, None)
    ensures t[|t| - 1] == State([Idle, ASwap], None, None, false, None)
  {
    t := [
      State([RScan, ASwap], Some(0), Some(0), false, None),
      State([RPtable, ASwap], Some(0), Some(0), false, None),
      State([RDone, ASwap], Some(0), None, false, None),
      State([Idle, ASwap], None, None, false, None)];
    assert WakeAll(t[0].pc) == t[0].pc;
    assert t[1].pc == t[0].pc[0 := RPtable];
    assert Step(false, t[0], Move(0), t[1]);
    assert t[2].pc == t[1].pc[0 := RDone];
    assert Step(false, t[1], Move(0), t[2]);
    assert t[3].pc == t[2].pc[0 := Idle];
    assert Step(false, t[2], Move(0), t[3]);
  }

  /** Process 1 goes to sleep for good */
  lemma SleepsForGood() returns (t: seq<State>)
    ensures Path(false, t) && t[0] == State([Idle, ASwap], None, None, false, None)
    ensures t[|t| - 1] == State([Idle, Asleep], None, None, false, None)
  {
    t := [
      State([Idle, ASwap], None, None, false, None),
      State([Idle, ASet], None, Some(1), false, None),
      State([Idle, ASched], None, Some(1), false, None),
      State([Idle, Asleep], None, None, false, None)];
    assert t[1].pc == t[0].pc[1 := ASet];
    assert Step(false, t[0], Move(1), t[1]);
    assert t[2].pc == t[1].pc[1 := ASched];
    assert Step(false, t[1], Move(1), t[2]);
    assert t[3].pc == t[2].pc[1 := Asleep];
    assert Step(false, t[2], Move(1), t[3]);
  }

  /** If sleep gave up lk.lk before it took ptable.lock, a wakeup could be lost: process 1
      sleeps although the lock is free and nobody is about to wake it. */
  lemma LostWakeupOtherwise()
    ensures exists t :: Run(false, t) && t[|t| - 1] == State([Idle, Asleep], None, None, false, None)
  {
    var t1 := Taken();
    var t2 := GivesUp();
    var t3 := Clears();
    var t4 := WakesNobody();
    var t5 := SleepsForGood();
    var t := Joined(false, t1, t2);
    t := Joined(false, t, t3);
    t := Joined(false, t, t4);
    t := Joined(false, t, t5);
    assert Run(false, t);
  }
}
