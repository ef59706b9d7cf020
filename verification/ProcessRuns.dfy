/** What holds in every state of every run of the process table and the CPUs. */
module ProcessRuns {
  import opened Options
  import opened Processes
  import opened ProcessSteps

  // ---- Every run

  lemma StepInv(s: State, l: Label, s': State)
    requires Inv(s) && Step(s, l, s')
    ensures Inv(s')
  {
    if Quiet(l) {
      QuietStepKin(s, l, s');
      if l.SchedAcquire? || l.SchedRelease? {
        SchedPlace(s, l, s');
      } else if l.SchedPick? || l.Swtch? {
        SwtchPlace(s, l, s');
      } else if l.Wakeup? {
        WakeupPlace(s, l.c, l.addr, s');
      } else {
        OwnStepPlace(s, l, s');
      }
    } else {
      match l
      case Exit(c) =>
        ExitKin(s, c, s');
        ExitPlace(s, c, s');
      case Reap(c, k) =>
        ReapKin(s, c, k, s');
        ReapPlace(s, c, k, s');
      case AllocProc(c, np) =>
        AllocProcKin(s, c, np, s');
        AllocProcPlace(s, c, np, s');
      case ForkFails(c) =>
        ForkFailsKin(s, c, s');
        ForkFailsPlace(s, c, s');
      case SetParent(c) =>
        SetParentKin(s, c, s');
        SetParentPlace(s, c, s');
      case Publish(c) =>
        PublishKin(s, c, s');
        PublishPlace(s, c, s');
    }
  }

  lemma NextInv(s: State, s': State)
    requires Inv(s) && Next(s, s')
    ensures Inv(s')
  {
    var l :| Step(s, l, s');
    StepInv(s, l, s');
  }

  lemma {:induction false} RunInv(t: seq<State>, i: nat)
    requires Run(t) && i < |t|
    ensures Inv(t[i])
  {
    if i == 0 {
      StartInv(t[0]);
    } else {
      RunInv(t, i - 1);
      assert Follows(t, i);
      NextInv(t[i - 1], t[i]);
    }
  }

  // ---- Main results

  /** Up the parent pointers from p to init. */
  ghost predicate Lineage(s: State, path: seq<nat>) {
    && |path| > 0 && path[|path| - 1] == INITPROC
    && (forall i :: 0 <= i < |path| ==> path[i] < |s.procs| && Started(s.procs[path[i]]))
    && (forall i :: 0 < i < |path| ==> Alive(s.procs[path[i]]))
    && (forall i :: 0 <= i < |path| - 1 ==> s.procs[path[i]].parent == Some(path[i + 1]))
  }

  lemma {:induction false} FindLineage(s: State, p: nat) returns (path: seq<nat>)
    requires Inv(s) && p < |s.procs| && Started(s.procs[p])
    ensures Lineage(s, path) && path[0] == p
    decreases s.procs[p].pid
  {
    if p == INITPROC {
      path := [p];
    } else {
      assert KinOk(s, p);
      var rest := FindLineage(s, s.procs[p].parent.value);
      path := [p] + rest;
    }
  }

  /** The process tree: in every state of every run, every started process other than init has
      a parent that is started and not a zombie, and its parent chain reaches init. */
  lemma ProcessTree(t: seq<State>, i: nat, p: nat)
    requires Run(t) && i < |t| && p < |t[i].procs| && Started(t[i].procs[p])
    ensures p != INITPROC ==>
      && t[i].procs[p].parent.Some? && t[i].procs[p].parent.value < |t[i].procs|
      && Alive(t[i].procs[t[i].procs[p].parent.value])
    ensures exists path :: Lineage(t[i], path) && path[0] == p
  {
    RunInv(t, i);
    assert KinOk(t[i], p);
    var path := FindLineage(t[i], p);
  }

  /** A process asleep in wait has a child and none that has exited, so that it is not missed. */
  lemma WaiterHasLiveChild(t: seq<State>, i: nat, p: nat)
    requires Run(t) && i < |t| && p < |t[i].procs| && t[i].procs[p].status == Sleeping(WaitOf(p))
    ensures HasChild(t[i].procs, p) && !HasZombie(t[i].procs, p)
  {
    RunInv(t, i);
    assert KinOk(t[i], p);
  }

  /** Every pid is returned by wait at most once, and never while a process still has it. */
  lemma WaitedOnce(t: seq<State>, i: nat)
    requires Run(t) && i < |t|
    ensures forall j, k :: 0 <= j < k < |t[i].waited| ==> t[i].waited[j] != t[i].waited[k]
    ensures forall p :: 0 <= p < |t[i].procs| && t[i].procs[p].status != Unused ==> t[i].procs[p].pid !in t[i].waited
  {
    RunInv(t, i);
    forall p | 0 <= p < |t[i].procs| && t[i].procs[p].status != Unused
      ensures t[i].procs[p].pid !in t[i].waited
    {
      assert KinOk(t[i], p);
    }
  }

  /** Whenever ptable.lock is free, a process is RUNNING exactly when it is current on a CPU,
      and it is current on no more than one. */
  lemma RunningIsCurrent(t: seq<State>, i: nat, p: nat)
    requires Run(t) && i < |t| && t[i].lock == None && p < |t[i].procs|
    ensures t[i].procs[p].status == Running <==> exists c :: 0 <= c < |t[i].cpus| && t[i].cpus[c] == Runs(p)
    ensures forall c, d :: 0 <= c < d < |t[i].cpus| && t[i].cpus[c] == Runs(p) ==> t[i].cpus[d] != Runs(p)
  {
    RunInv(t, i);
    assert PlaceOk(t[i], p);
    forall c | 0 <= c < |t[i].cpus| && t[i].cpus[c] == Runs(p) ensures t[i].procs[p].stack == Some(c) {
      assert CpuOk(t[i], c);
    }
  }
}
