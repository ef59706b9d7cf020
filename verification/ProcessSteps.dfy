/** Every step of the process table and the CPUs keeps the invariant: first those that leave the
    family alone, then fork, exit and wait. */
module ProcessSteps {
  import opened Options
  import opened Processes

  // ---- Steps that leave the family alone

  ghost predicate SameKin(x: Proc, x': Proc) {
    && x'.pid == x.pid && x'.parent == x.parent
    && (x.status == Unused <==> x'.status == Unused)
    && (x.status == Embryo <==> x'.status == Embryo)
    && (x.status == Zombie <==> x'.status == Zombie)
    && x'.fork == x.fork
  }

  lemma SameChildren(procs: seq<Proc>, procs': seq<Proc>, p: nat)
    requires |procs'| == |procs| && forall q :: 0 <= q < |procs| ==> SameKin(procs[q], procs'[q])
    ensures HasChild(procs', p) == HasChild(procs, p) && HasZombie(procs', p) == HasZombie(procs, p)
  {
    forall k | 0 <= k < |procs|
      ensures procs'[k].parent == procs[k].parent && ZombieChild(procs', p, k) == ZombieChild(procs, p, k)
    {
      assert SameKin(procs[k], procs'[k]);
    }
  }

  /** Only wait sends a process to sleep on its own channel, and only with a child and no zombie. */
  ghost predicate WaitsRightly(s: State, q: nat, x': Proc)
    requires q < |s.procs|
  {
    x'.status.Sleeping? && x'.status.chan.WaitOf? ==>
      s.procs[q].status == x'.status || (x'.status.chan.slot == q && HasChild(s.procs, q) && !HasZombie(s.procs, q))
  }

  lemma QuietKin(s: State, s': State)
    requires KinInv(s) && |s'.procs| == |s.procs| && s'.nextpid == s.nextpid && s'.waited == s.waited
    requires forall q :: 0 <= q < |s.procs| ==> SameKin(s.procs[q], s'.procs[q])
    requires forall q :: 0 <= q < |s.procs| ==> WaitsRightly(s, q, s'.procs[q])
    ensures KinInv(s')
  {
    forall q | 0 <= q < |s.procs| ensures KinOk(s', q) {
      assert KinOk(s, q) && SameKin(s.procs[q], s'.procs[q]) && WaitsRightly(s, q, s'.procs[q]);
      SameChildren(s.procs, s'.procs, q);
      if s.procs[q].parent.Some? && s.procs[q].parent.value < |s.procs| {
        assert SameKin(s.procs[s.procs[q].parent.value], s'.procs[s.procs[q].parent.value]);
      }
      if s.procs[q].fork.Some? && s.procs[q].fork.value.np < |s.procs| {
        assert SameKin(s.procs[s.procs[q].fork.value.np], s'.procs[s.procs[q].fork.value.np]);
      }
    }
    assert SameKin(s.procs[INITPROC], s'.procs[INITPROC]);
  }

  ghost predicate Quiet(l: Label) {
    l.SchedAcquire? || l.SchedPick? || l.SchedRelease? || l.Swtch? || l.Release? || l.Acquire? || l.Yield?
    || l.Sleep? || l.WaitFails? || l.WaitSleeps? || l.Kill? || l.Wakeup?
  }

  lemma QuietSlot(s: State, l: Label, s': State, q: nat)
    requires Step(s, l, s') && Quiet(l) && q < |s.procs| && StatusOk(s.procs[q])
    ensures |s'.procs| == |s.procs| && SameKin(s.procs[q], s'.procs[q]) && WaitsRightly(s, q, s'.procs[q])
  {}

  lemma QuietStepKin(s: State, l: Label, s': State)
    requires Inv(s) && Step(s, l, s') && Quiet(l)
    ensures KinInv(s')
  {
    assert |s'.procs| == |s.procs| && s'.nextpid == s.nextpid && s'.waited == s.waited;
    forall q | 0 <= q < |s.procs| ensures SameKin(s.procs[q], s'.procs[q]) && WaitsRightly(s, q, s'.procs[q]) {
      assert PlaceOk(s, q);
      QuietSlot(s, l, s', q);
    }
    QuietKin(s, s');
  }

  /** A step of one CPU that rewrites the slot of its own process. */
  lemma OwnSlotPlace(s: State, c: nat, p: nat, s': State)
    requires PlaceInv(s) && Current(s, c, p)
    requires |s'.procs| == |s.procs| && s'.cpus == s.cpus
    requires s'.lock == s.lock || (s.lock == None && s'.lock == Some(c)) || (s.lock == Some(c) && s'.lock == None)
    requires PlaceOk(s', p) && s'.procs[p].stack == Some(c)
    requires forall q :: 0 <= q < |s.procs| && q != p ==>
      && s'.procs[q].stack == s.procs[q].stack && StatusOk(s'.procs[q])
      && (s.procs[q].stack.Some? ==> s'.procs[q].at == s.procs[q].at)
    ensures PlaceInv(s')
  {
    assert CpuOk(s, c);
    forall q | 0 <= q < |s.procs| ensures PlaceOk(s', q) {
      assert PlaceOk(s, q);
    }
    forall d | 0 <= d < |s.cpus| ensures CpuOk(s', d) {
      assert CpuOk(s, d);
    }
  }

  lemma OwnStepPlace(s: State, l: Label, s': State)
    requires Inv(s) && Step(s, l, s')
    requires l.Release? || l.Acquire? || l.Yield? || l.Sleep? || l.WaitFails? || l.WaitSleeps? || l.Kill?
    ensures PlaceInv(s')
  {
    var c := l.c;
    var p := s.cpus[c].p;
    assert CpuOk(s, c) && PlaceOk(s, p);
    forall q | 0 <= q < |s.procs| && q != p
      ensures s'.procs[q].at == s.procs[q].at && s'.procs[q].stack == s.procs[q].stack && StatusOk(s'.procs[q])
    {
      assert PlaceOk(s, q);
    }
    OwnSlotPlace(s, c, p, s');
  }

  lemma WakeupPlace(s: State, c: nat, addr: nat, s': State)
    requires PlaceInv(s) && WakeupStep(s, c, addr, s')
    ensures PlaceInv(s')
  {
    forall q | 0 <= q < |s.procs| ensures PlaceOk(s', q) {
      assert PlaceOk(s, q);
    }
    forall d | 0 <= d < |s.cpus| ensures CpuOk(s', d) {
      assert CpuOk(s, d);
    }
  }

  lemma SchedPlace(s: State, l: Label, s': State)
    requires Inv(s) && Step(s, l, s') && (l.SchedAcquire? || l.SchedRelease?)
    ensures PlaceInv(s')
  {
    assert CpuOk(s, l.c);
    forall q | 0 <= q < |s.procs| ensures PlaceOk(s', q) {
      assert PlaceOk(s, q);
    }
    forall d | 0 <= d < |s.cpus| ensures CpuOk(s', d) {
      assert CpuOk(s, d);
    }
  }

  lemma SwtchPlace(s: State, l: Label, s': State)
    requires Inv(s) && Step(s, l, s') && (l.SchedPick? || l.Swtch?)
    ensures PlaceInv(s')
  {
    var p := if l.SchedPick? then l.p else s.cpus[l.c].p;
    assert CpuOk(s, l.c) && PlaceOk(s, p);
    forall q | 0 <= q < |s.procs| ensures PlaceOk(s', q) {
      assert PlaceOk(s, q);
    }
    forall d | 0 <= d < |s.cpus| ensures CpuOk(s', d) {
      assert CpuOk(s, d);
    }
  }

  // ---- fork

  lemma ForkSlotsPlace(s: State, c: nat, p: nat, np: nat, s': State)
    requires Inv(s) && Current(s, c, p) && np < |s.procs| && np != p && !Started(s.procs[np])
    requires s'.cpus == s.cpus && s'.lock == s.lock && |s'.procs| == |s.procs|
    requires forall q :: 0 <= q < |s.procs| && q != p && q != np ==> s'.procs[q] == s.procs[q]
    requires s'.procs[np].stack == None && StatusOk(s'.procs[np])
    requires PlaceOk(s', p) && s'.procs[p].stack == Some(c)
    ensures PlaceInv(s')
  {
    assert PlaceOk(s, np);
    forall q | 0 <= q < |s.procs| && q != p && q != np ensures StatusOk(s.procs[q]) {
      assert PlaceOk(s, q);
    }
    OwnSlotPlace(s, c, p, s');
  }

  lemma AllocProcPlace(s: State, c: nat, np: nat, s': State)
    requires Inv(s) && AllocProcStep(s, c, np, s')
    ensures PlaceInv(s')
  {
    var p := s.cpus[c].p;
    assert CpuOk(s, c) && PlaceOk(s, p) && KinOk(s, p);
    assert PlaceOk(s, np);
    ForkSlotsPlace(s, c, p, np, s');
  }

  lemma ForkFailsPlace(s: State, c: nat, s': State)
    requires Inv(s) && ForkFailsStep(s, c, s')
    ensures PlaceInv(s')
  {
    var p := s.cpus[c].p;
    assert CpuOk(s, c) && PlaceOk(s, p) && KinOk(s, p);
    var np := s.procs[p].fork.value.np;
    assert PlaceOk(s, np);
    ForkSlotsPlace(s, c, p, np, s');
  }

  lemma SetParentPlace(s: State, c: nat, s': State)
    requires Inv(s) && SetParentStep(s, c, s')
    ensures PlaceInv(s')
  {
    var p := s.cpus[c].p;
    assert CpuOk(s, c) && PlaceOk(s, p) && KinOk(s, p);
    var np := s.procs[p].fork.value.np;
    assert PlaceOk(s, np);
    ForkSlotsPlace(s, c, p, np, s');
  }

  lemma PublishPlace(s: State, c: nat, s': State)
    requires Inv(s) && PublishStep(s, c, s')
    ensures PlaceInv(s')
  {
    var p := s.cpus[c].p;
    assert CpuOk(s, c) && PlaceOk(s, p) && KinOk(s, p);
    var np := s.procs[p].fork.value.np;
    assert PlaceOk(s, np);
    ForkSlotsPlace(s, c, p, np, s');
  }

  /** What the steps of fork change: the forking process p, which goes on running, and its
      embryo np, which may get p as its parent. */
  ghost predicate ForkChange(s: State, p: nat, np: nat, s': State) {
    && |s'.procs| == |s.procs| && p < |s.procs| && np < |s.procs| && p != np
    && (forall k :: 0 <= k < |s.procs| && k != p && k != np ==> s'.procs[k] == s.procs[k])
    && s'.procs[p].parent == s.procs[p].parent && s.procs[p].status == s'.procs[p].status == Running
    && !s.procs[np].status.Zombie? && !s'.procs[np].status.Zombie? && !s'.procs[np].status.Sleeping?
    && (s'.procs[np].parent == s.procs[np].parent || (s'.procs[np].parent == Some(p) && s.procs[np].parent == None))
  }

  lemma ForkChildren(s: State, p: nat, np: nat, s': State, q: nat)
    requires ForkChange(s, p, np, s') && q != p
    ensures HasChild(s'.procs, q) == HasChild(s.procs, q) && HasZombie(s'.procs, q) == HasZombie(s.procs, q)
  {
    forall k | 0 <= k < |s.procs|
      ensures (s'.procs[k].parent == Some(q)) == (s.procs[k].parent == Some(q))
      ensures ZombieChild(s'.procs, q, k) == ZombieChild(s.procs, q, k)
    {}
  }

  lemma ForkWaits(s: State, p: nat, np: nat, s': State)
    requires KinInv(s) && ForkChange(s, p, np, s')
    ensures forall q :: 0 <= q < |s'.procs| ==> WaitOk(s', q)
  {
    forall q | 0 <= q < |s.procs| ensures WaitOk(s', q) {
      if q != p && q != np {
        assert KinOk(s, q);
        ForkChildren(s, p, np, s', q);
      }
    }
  }

  /** What a step of fork by p on its embryo np needs to know about a third process q. */
  ghost predicate ForkFacts(s: State, p: nat, np: nat, q: nat) {
    && p < |s.procs| && np < |s.procs| && q < |s.procs| && p != np
    && KinOk(s, p) && StatusOk(s.procs[p]) && KinOk(s, np) && StatusOk(s.procs[np])
    && KinOk(s, q) && StatusOk(s.procs[q])
    && (q != p && s.procs[q].fork.Some? ==> s.procs[q].fork.value.np != np)
  }

  lemma GatherFacts(s: State, c: nat, p: nat, np: nat, q: nat)
    requires Inv(s) && Current(s, c, p) && np < |s.procs| && q < |s.procs| && p != np
    requires (s.procs[p].fork == None && s.procs[np].status == Unused)
      || (s.procs[p].fork.Some? && s.procs[p].fork.value.np == np)
    ensures ForkFacts(s, p, np, q)
  {
    assert KinOk(s, p) && PlaceOk(s, p) && KinOk(s, np) && PlaceOk(s, np) && KinOk(s, q) && PlaceOk(s, q);
  }

  lemma AllocProcKinAt(s: State, c: nat, np: nat, s': State, q: nat)
    requires c < |s.cpus| && s.cpus[c].Runs? && s.cpus[c].p < |s.procs| && AllocProcStep(s, c, np, s')
    requires var p := s.cpus[c].p; ForkFacts(s, p, np, q)
    requires np != INITPROC && 1 < s.nextpid && s.nextpid !in s.waited
    ensures TreeOk(s', q) && ForkOk(s', q) && PidOk(s', q)
  {}

  lemma AllocProcKin(s: State, c: nat, np: nat, s': State)
    requires Inv(s) && AllocProcStep(s, c, np, s')
    ensures KinInv(s')
  {
    var p := s.cpus[c].p;
    assert CpuOk(s, c) && PlaceOk(s, p) && KinOk(s, p);
    assert PlaceOk(s, np);
    ForkWaits(s, p, np, s');
    forall q | 0 <= q < |s.procs| ensures TreeOk(s', q) && ForkOk(s', q) && PidOk(s', q) {
      GatherFacts(s, c, p, np, q);
      AllocProcKinAt(s, c, np, s', q);
    }
    AllocProcGlobal(s, c, np, s');
  }

  /** The new pid and the new child are nobody else's. */
  lemma AllocProcGlobal(s: State, c: nat, np: nat, s': State)
    requires Inv(s) && AllocProcStep(s, c, np, s')
    ensures GlobalOk(s')
  {
    var p := s.cpus[c].p;
    assert PlaceOk(s, p) && PlaceOk(s, np);
    forall q | 0 <= q < |s.procs|
      ensures s.procs[q].status != Unused ==> s.procs[q].pid < s.nextpid
      ensures s.procs[q].fork.Some? ==> s.procs[q].fork.value.np != np
    {
      assert KinOk(s, q);
    }
  }

  lemma ForkFailsKinAt(s: State, c: nat, s': State, q: nat)
    requires c < |s.cpus| && s.cpus[c].Runs? && s.cpus[c].p < |s.procs| && ForkFailsStep(s, c, s')
    requires var p := s.cpus[c].p; ForkFacts(s, p, s.procs[p].fork.value.np, q)
    ensures TreeOk(s', q) && ForkOk(s', q) && PidOk(s', q)
  {}

  lemma ForkFailsKin(s: State, c: nat, s': State)
    requires Inv(s) && ForkFailsStep(s, c, s')
    ensures KinInv(s')
  {
    var p := s.cpus[c].p;
    assert CpuOk(s, c) && PlaceOk(s, p) && KinOk(s, p);
    var np := s.procs[p].fork.value.np;
    assert PlaceOk(s, np);
    ForkWaits(s, p, np, s');
    forall q | 0 <= q < |s.procs| ensures TreeOk(s', q) && ForkOk(s', q) && PidOk(s', q) {
      GatherFacts(s, c, p, np, q);
      ForkFailsKinAt(s, c, s', q);
    }
  }

  lemma SetParentKinAt(s: State, c: nat, s': State, q: nat)
    requires c < |s.cpus| && s.cpus[c].Runs? && s.cpus[c].p < |s.procs| && SetParentStep(s, c, s')
    requires var p := s.cpus[c].p; ForkFacts(s, p, s.procs[p].fork.value.np, q)
    ensures TreeOk(s', q) && ForkOk(s', q) && PidOk(s', q)
  {}

  lemma SetParentKin(s: State, c: nat, s': State)
    requires Inv(s) && SetParentStep(s, c, s')
    ensures KinInv(s')
  {
    var p := s.cpus[c].p;
    assert CpuOk(s, c) && PlaceOk(s, p) && KinOk(s, p);
    var np := s.procs[p].fork.value.np;
    assert PlaceOk(s, np);
    ForkWaits(s, p, np, s');
    forall q | 0 <= q < |s.procs| ensures TreeOk(s', q) && ForkOk(s', q) && PidOk(s', q) {
      GatherFacts(s, c, p, np, q);
      SetParentKinAt(s, c, s', q);
    }
  }

  lemma PublishKinAt(s: State, c: nat, s': State, q: nat)
    requires c < |s.cpus| && s.cpus[c].Runs? && s.cpus[c].p < |s.procs| && PublishStep(s, c, s')
    requires var p := s.cpus[c].p; ForkFacts(s, p, s.procs[p].fork.value.np, q)
    ensures TreeOk(s', q) && ForkOk(s', q) && PidOk(s', q)
  {}

  lemma PublishKin(s: State, c: nat, s': State)
    requires Inv(s) && PublishStep(s, c, s')
    ensures KinInv(s')
  {
    var p := s.cpus[c].p;
    assert CpuOk(s, c) && PlaceOk(s, p) && KinOk(s, p);
    var np := s.procs[p].fork.value.np;
    assert PlaceOk(s, np);
    ForkWaits(s, p, np, s');
    forall q | 0 <= q < |s.procs| ensures TreeOk(s', q) && ForkOk(s', q) && PidOk(s', q) {
      GatherFacts(s, c, p, np, q);
      PublishKinAt(s, c, s', q);
    }
  }

  // ---- exit

  /** The slot of q after the exit of p. */
  lemma ExitSlot(s: State, c: nat, s': State, q: nat)
    requires ExitStep(s, c, s') && q < |s.procs|
    ensures |s'.procs| == |s.procs|
    ensures var p := s.cpus[c].p; var x, x' := s.procs[q], s'.procs[q];
      && x'.pid == x.pid && x'.stack == x.stack && x'.killed == x.killed && x'.fork == x.fork
      && x'.parent == (if x.parent == Some(p) then Some(INITPROC) else x.parent)
      && (q != p ==> x'.at == x.at && (x'.status == x.status || (x.status.Sleeping? && x'.status == Runnable)))
      && (q == p ==> x'.at == Leaving(Never) && x'.status == Zombie)
  {}

  lemma ExitPlace(s: State, c: nat, s': State)
    requires Inv(s) && ExitStep(s, c, s')
    ensures PlaceInv(s')
  {
    var p := s.cpus[c].p;
    assert CpuOk(s, c) && PlaceOk(s, p);
    forall q | 0 <= q < |s.procs|
      ensures q != p ==>
        s'.procs[q].stack == s.procs[q].stack && StatusOk(s'.procs[q]) && s'.procs[q].at == s.procs[q].at
      ensures q == p ==> PlaceOk(s', p) && s'.procs[p].stack == Some(c)
    {
      assert PlaceOk(s, q) && KinOk(s, q);
      ExitSlot(s, c, s', q);
    }
    OwnSlotPlace(s, c, p, s');
  }

  lemma ExitTree(s: State, c: nat, s': State, q: nat)
    requires Inv(s) && ExitStep(s, c, s') && q < |s.procs|
    ensures |s'.procs| == |s.procs| && TreeOk(s', q) && ForkOk(s', q) && PidOk(s', q)
  {
    var p := s.cpus[c].p;
    assert PlaceOk(s, p) && KinOk(s, p) && KinOk(s, q);
    ExitSlot(s, c, s', q);
    ExitSlot(s, c, s', INITPROC);
    if s.procs[q].parent.Some? && s.procs[q].parent.value < |s.procs| {
      ExitSlot(s, c, s', s.procs[q].parent.value);
    }
    if s.procs[q].fork.Some? {
      ExitSlot(s, c, s', s.procs[q].fork.value.np);
    }
  }

  /** Who is still asleep in wait after an exit is not the parent, which was woken first, and
      has not been given a zombie, because then init was woken too. */
  lemma ExitWait(s: State, c: nat, s': State, q: nat)
    requires Inv(s) && ExitStep(s, c, s') && q < |s.procs|
    ensures |s'.procs| == |s.procs| && WaitOk(s', q)
  {
    var p := s.cpus[c].p;
    assert PlaceOk(s, p) && KinOk(s, p) && KinOk(s, q);
    ExitSlot(s, c, s', q);
    if s'.procs[q].status == Sleeping(WaitOf(q)) {
      assert s.procs[q].status == Sleeping(WaitOf(q)) && q != p;
      var k :| 0 <= k < |s.procs| && s.procs[k].parent == Some(q);
      ExitSlot(s, c, s', k);
      assert s'.procs[k].parent == Some(q);
      forall j | 0 <= j < |s.procs| ensures !ZombieChild(s'.procs, q, j) {
        assert !ZombieChild(s.procs, q, j);
        ExitNoZombie(s, c, s', q, j);
      }
    }
  }

  /** What a sleeper in wait has not been given by an exit. */
  lemma ExitNoZombie(s: State, c: nat, s': State, q: nat, j: nat)
    requires ExitStep(s, c, s') && q < |s.procs| && j < |s.procs| && q != s.cpus[c].p
      && s.procs[s.cpus[c].p].parent != Some(s.cpus[c].p)
    requires s'.procs[q].status == Sleeping(WaitOf(q)) && !ZombieChild(s.procs, q, j)
    ensures !ZombieChild(s'.procs, q, j)
  {
    var p := s.cpus[c].p;
    var w := Wake(s.procs, WaitOf(s.procs[p].parent.value));
    assert w[q].status == Sleeping(WaitOf(q)) && Some(q) != s.procs[p].parent;
    assert q == INITPROC ==> !HasZombie(w, p);
    assert q == INITPROC ==> !ZombieChild(w, p, j);
    ExitSlot(s, c, s', j);
  }

  lemma ExitKin(s: State, c: nat, s': State)
    requires Inv(s) && ExitStep(s, c, s')
    ensures KinInv(s')
  {
    var p := s.cpus[c].p;
    assert PlaceOk(s, p);
    forall q | 0 <= q < |s'.procs|
      ensures KinOk(s', q)
      ensures s'.procs[q].pid == s.procs[q].pid && (s'.procs[q].fork == s.procs[q].fork || !s'.procs[q].fork.Some?)
      ensures s'.procs[q].status != Unused ==> s.procs[q].status != Unused
    {
      ExitTree(s, c, s', q);
      ExitWait(s, c, s', q);
      ExitSlot(s, c, s', q);
    }
    ExitSlot(s, c, s', INITPROC);
  }

  // ---- wait

  /** wait never frees a kernel stack that is in use. */
  lemma ReapedIsOff(s: State, c: nat, k: nat, s': State)
    requires Inv(s) && ReapStep(s, c, k, s')
    ensures s.procs[k].stack == None && forall d :: 0 <= d < |s.cpus| ==> s.cpus[d] != Runs(k)
    ensures k != s.cpus[c].p && k != INITPROC && forall q :: 0 <= q < |s.procs| ==>
      s.procs[q].fork != Some(Child(k, true))
  {
    var p := s.cpus[c].p;
    assert CpuOk(s, c) && PlaceOk(s, p) && PlaceOk(s, k) && KinOk(s, k);
    forall d | 0 <= d < |s.cpus| ensures s.cpus[d] != Runs(k) {
      assert CpuOk(s, d);
    }
    forall q | 0 <= q < |s.procs| ensures s.procs[q].fork != Some(Child(k, true)) {
      assert KinOk(s, q);
    }
  }

  lemma ReapPlace(s: State, c: nat, k: nat, s': State)
    requires Inv(s) && ReapStep(s, c, k, s')
    ensures PlaceInv(s')
  {
    var p := s.cpus[c].p;
    ReapedIsOff(s, c, k, s');
    assert CpuOk(s, c) && PlaceOk(s, p);
    forall q | 0 <= q < |s.procs| && q != p
      ensures s'.procs[q].stack == s.procs[q].stack && StatusOk(s'.procs[q])
      ensures s.procs[q].stack.Some? ==> s'.procs[q].at == s.procs[q].at
    {
      assert PlaceOk(s, q);
    }
    OwnSlotPlace(s, c, p, s');
  }

  lemma ReapKinAt(s: State, c: nat, k: nat, s': State, q: nat)
    requires Inv(s) && ReapStep(s, c, k, s') && q < |s.procs|
    ensures |s'.procs| == |s.procs| && TreeOk(s', q) && ForkOk(s', q) && PidOk(s', q)
  {
    ReapedIsOff(s, c, k, s');
    assert PlaceOk(s, s.cpus[c].p) && PlaceOk(s, k) && KinOk(s, q) && KinOk(s, k);
  }

  lemma ReapWait(s: State, c: nat, k: nat, s': State, q: nat)
    requires Inv(s) && ReapStep(s, c, k, s') && q < |s.procs|
    ensures |s'.procs| == |s.procs| && WaitOk(s', q)
  {
    assert PlaceOk(s, s.cpus[c].p) && KinOk(s, q);
    if s'.procs[q].status == Sleeping(WaitOf(q)) {
      assert s.procs[q].status == Sleeping(WaitOf(q)) && q != s.cpus[c].p;
      var j :| 0 <= j < |s.procs| && s.procs[j].parent == Some(q);
      assert s'.procs[j].parent == Some(q);
      forall i | 0 <= i < |s.procs| ensures !ZombieChild(s'.procs, q, i) {
        assert !ZombieChild(s.procs, q, i);
      }
    }
  }

  lemma ReapKin(s: State, c: nat, k: nat, s': State)
    requires Inv(s) && ReapStep(s, c, k, s')
    ensures KinInv(s')
  {
    ReapedIsOff(s, c, k, s');
    assert KinOk(s, k);
    forall q | 0 <= q < |s'.procs| ensures KinOk(s', q) {
      ReapKinAt(s, c, k, s', q);
      ReapWait(s, c, k, s', q);
    }
  }
}
