/** The process table of kernel/proc.c and the CPUs that run it: fork, exit, wait, kill,
    sleep, wakeup, yield and the scheduler as steps of several CPUs, with the owner of
    ptable.lock explicit and handed over across swtch. What a CPU does between acquiring
    and giving up that lock without leaving the process is one step; fork's writes to its
    unpublished child are made without the lock, as in the code. */
module Processes {

  import opened Options

  /** A channel: the address of a process table slot, as used by wait, or anything else. */
  datatype Chan = WaitOf(slot: nat) | Other(addr: nat)

  datatype Status = Unused | Embryo | Sleeping(chan: Chan) | Runnable | Running | Zombie

  /** What a process does when its sched returns: release ptable.lock, go on scanning in wait,
      or nothing, because it has exited. */
  datatype Back = ToRelease | ToWait | Never

  datatype Why = ForYield | ForSleep(addr: nat) | ForExit | ForWait

  /** Where a process is. */
  datatype At =
    | Nowhere
    | User                                // on a CPU, without ptable.lock
    | Locked(why: Why)                    // has acquired ptable.lock
    | Leaving(back: Back)                 // has changed its state, about to swtch
    | Off(back: Back)                     // not on a CPU
    | Resumed(back: Back)                 // picked by the scheduler, which left it ptable.lock

  /** The unpublished child of a process that is in fork, and whether fork has set its parent yet. */
  datatype Child = Child(np: nat, parented: bool)

  /** stack: the CPU that is using the kernel stack of this process. A process in fork may lose its
      CPU to a timer interrupt and go on later. */
  datatype Proc = Proc(
    status: Status, pid: nat, parent: Option<nat>, killed: bool, at: At, stack: Option<nat>, fork: Option<Child>)

  datatype Cpu = Idle | Scheduling | Runs(p: nat)

  /** waited is the history of pids returned by wait. */
  datatype State = State(procs: seq<Proc>, cpus: seq<Cpu>, lock: Option<nat>, nextpid: nat, waited: seq<nat>)

  /** initproc */
  const INITPROC: nat := 0

  const NO_PROC: Proc := Proc(Unused, 0, None, false, Nowhere, None, None)

  /** After userinit: one RUNNABLE process that will start in forkret. */
  ghost predicate Start(s: State) {
    && 0 < |s.procs|
    && s.procs[INITPROC] == Proc(Runnable, 1, None, false, Off(ToRelease), None, None)
    && (forall p :: 0 < p < |s.procs| ==> s.procs[p] == NO_PROC)
    && (forall c :: 0 <= c < |s.cpus| ==> s.cpus[c] == Idle)
    && s.lock == None && s.nextpid == 2 && s.waited == []
  }

  // ---- The loops over the table, as functions

  function Woken(x: Proc, chan: Chan): Proc {
    if x.status == Sleeping(chan) then x.(status := Runnable) else x
  }

  /** wakeup1 */
  function Wake(procs: seq<Proc>, chan: Chan): (r: seq<Proc>)
    ensures |r| == |procs|
    ensures forall p :: 0 <= p < |procs| ==> r[p] == Woken(procs[p], chan)
  {
    seq(|procs|, p requires 0 <= p < |procs| => Woken(procs[p], chan))
  }

  function Adopted(x: Proc, cur: nat): Proc {
    if x.parent == Some(cur) then x.(parent := Some(INITPROC)) else x
  }

  predicate ZombieChild(procs: seq<Proc>, p: nat, k: nat) {
    k < |procs| && procs[k].parent == Some(p) && procs[k].status == Zombie
  }

  predicate HasZombie(procs: seq<Proc>, p: nat) {
    exists k :: 0 <= k < |procs| && ZombieChild(procs, p, k)
  }

  predicate HasChild(procs: seq<Proc>, p: nat) {
    exists k :: 0 <= k < |procs| && procs[k].parent == Some(p)
  }

  /** A slot during exit's loop: woke if a zombie child has been met, done if passed over. */
  function Passed(x: Proc, cur: nat, woke: bool, done: bool): Proc {
    var y := if woke then Woken(x, WaitOf(INITPROC)) else x;
    if done then Adopted(y, cur) else y
  }

  /** exit's loop: abandoned children go to init, which is woken if one of them is a zombie. */
  function Reparent(procs: seq<Proc>, cur: nat): (r: seq<Proc>)
    ensures |r| == |procs|
    ensures forall p :: 0 <= p < |procs| ==> r[p] == Passed(procs[p], cur, HasZombie(procs, cur), true)
  {
    var woke := HasZombie(procs, cur);
    seq(|procs|, p requires 0 <= p < |procs| => Passed(procs[p], cur, woke, true))
  }

  // ---- Steps

  datatype Label =
    | SchedAcquire(c: nat)
    | SchedPick(c: nat, p: nat)
    | SchedRelease(c: nat)
    | Swtch(c: nat)
    | Release(c: nat)
    | Acquire(c: nat, why: Why)
    | Yield(c: nat)
    | Sleep(c: nat)
    | Exit(c: nat)
    | Reap(c: nat, k: nat)
    | WaitFails(c: nat)
    | WaitSleeps(c: nat)
    | AllocProc(c: nat, np: nat)
    | ForkFails(c: nat)
    | SetParent(c: nat)
    | Publish(c: nat)
    | Kill(c: nat, p: nat)
    | Wakeup(c: nat, addr: nat)

  ghost predicate Current(s: State, c: nat, p: nat) {
    c < |s.cpus| && s.cpus[c] == Runs(p) && p < |s.procs|
  }

  ghost predicate On(s: State, c: nat, p: nat, at: At) {
    Current(s, c, p) && s.procs[p].at == at
  }

  ghost function Set(s: State, p: nat, x: Proc): State
    requires p < |s.procs|
  {
    s.(procs := s.procs[p := x])
  }

  /** swtch back into the scheduler of this CPU, which clears c->proc. */
  ghost predicate SwtchStep(s: State, c: nat, s': State) {
    && c < |s.cpus| && s.cpus[c].Runs? && s.cpus[c].p < |s.procs|
    && var p := s.cpus[c].p;
       && s.procs[p].at.Leaving?
       && s' == Set(s, p, s.procs[p].(at := Off(s.procs[p].at.back), stack := None)).(cpus := s.cpus[c := Scheduling])
  }

  ghost predicate PickStep(s: State, c: nat, p: nat, s': State) {
    && c < |s.cpus| && s.cpus[c] == Scheduling
    && p < |s.procs| && s.procs[p].status == Runnable && s.procs[p].at.Off?
    && s' == Set(s, p, s.procs[p].(status := Running, at := Resumed(s.procs[p].at.back), stack := Some(c)))
             .(cpus := s.cpus[c := Runs(p)])
  }

  /** forkret, yield and sleep give up the lock; wait goes on holding it. */
  ghost predicate ReleaseStep(s: State, c: nat, s': State) {
    && c < |s.cpus| && s.cpus[c].Runs? && s.cpus[c].p < |s.procs|
    && var p := s.cpus[c].p;
       && s.procs[p].at.Resumed?
       && if s.procs[p].at.back == ToWait
          then s' == Set(s, p, s.procs[p].(at := Locked(ForWait)))
          else s' == Set(s, p, s.procs[p].(at := User)).(lock := None)
  }

  ghost predicate AcquireStep(s: State, c: nat, why: Why, s': State) {
    && c < |s.cpus| && s.cpus[c].Runs? && s.lock == None
    && var p := s.cpus[c].p;
       && On(s, c, p, User)
       && (why == ForExit ==> p != INITPROC) // init exiting panics
       && (s.procs[p].fork.Some? ==> why == ForYield) // fork does not sleep, wait or exit
       && s' == Set(s, p, s.procs[p].(at := Locked(why))).(lock := Some(c))
  }

  ghost predicate YieldStep(s: State, c: nat, s': State) {
    && c < |s.cpus| && s.cpus[c].Runs?
    && var p := s.cpus[c].p;
       && On(s, c, p, Locked(ForYield))
       && s' == Set(s, p, s.procs[p].(status := Runnable, at := Leaving(ToRelease)))
  }

  ghost predicate SleepStep(s: State, c: nat, s': State) {
    && c < |s.cpus| && s.cpus[c].Runs?
    && var p := s.cpus[c].p;
       && Current(s, c, p) && s.procs[p].at.Locked? && s.procs[p].at.why.ForSleep?
       && s' == Set(s, p, s.procs[p].(status := Sleeping(Other(s.procs[p].at.why.addr)), at := Leaving(ToRelease)))
  }

  ghost predicate ExitStep(s: State, c: nat, s': State) {
    && c < |s.cpus| && s.cpus[c].Runs?
    && var p := s.cpus[c].p;
       && On(s, c, p, Locked(ForExit)) && s.procs[p].parent.Some?
       && var procs := Reparent(Wake(s.procs, WaitOf(s.procs[p].parent.value)), p);
          s' == s.(procs := procs[p := procs[p].(status := Zombie, at := Leaving(Never))])
  }

  /** wait finds a zombie child: the first one in the table. */
  ghost predicate ReapStep(s: State, c: nat, k: nat, s': State) {
    && c < |s.cpus| && s.cpus[c].Runs?
    && var p := s.cpus[c].p;
       && On(s, c, p, Locked(ForWait)) && ZombieChild(s.procs, p, k)
       && (forall j :: 0 <= j < k ==> !ZombieChild(s.procs, p, j))
       && s' == Set(Set(s, k, NO_PROC), p, s.procs[p].(at := User))
                .(lock := None, waited := s.waited + [s.procs[k].pid])
  }

  ghost predicate WaitFailsStep(s: State, c: nat, s': State) {
    && c < |s.cpus| && s.cpus[c].Runs?
    && var p := s.cpus[c].p;
       && On(s, c, p, Locked(ForWait)) && !HasZombie(s.procs, p)
       && (!HasChild(s.procs, p) || s.procs[p].killed)
       && s' == Set(s, p, s.procs[p].(at := User)).(lock := None)
  }

  ghost predicate WaitSleepsStep(s: State, c: nat, s': State) {
    && c < |s.cpus| && s.cpus[c].Runs?
    && var p := s.cpus[c].p;
       && On(s, c, p, Locked(ForWait)) && !HasZombie(s.procs, p)
       && HasChild(s.procs, p) && !s.procs[p].killed
       && s' == Set(s, p, s.procs[p].(status := Sleeping(WaitOf(p)), at := Leaving(ToWait)))
  }

  ghost predicate AllocProcStep(s: State, c: nat, np: nat, s': State) {
    && c < |s.cpus| && s.cpus[c].Runs? && s.lock == None
    && var p := s.cpus[c].p;
       && On(s, c, p, User) && s.procs[p].fork == None && np < |s.procs| && s.procs[np].status == Unused
       && s' == Set(Set(s, np, s.procs[np].(status := Embryo, pid := s.nextpid)),
                    p, s.procs[p].(fork := Some(Child(np, false)))).(nextpid := s.nextpid + 1)
  }

  /** No memory for the kernel stack or the address space; without the lock. */
  ghost predicate ForkFailsStep(s: State, c: nat, s': State) {
    && c < |s.cpus| && s.cpus[c].Runs?
    && var p := s.cpus[c].p;
       && On(s, c, p, User) && s.procs[p].fork.Some? && !s.procs[p].fork.value.parented
       && var np := s.procs[p].fork.value.np;
          && np < |s.procs|
          && s' == Set(Set(s, np, s.procs[np].(status := Unused)), p, s.procs[p].(fork := None))
  }

  ghost predicate SetParentStep(s: State, c: nat, s': State) {
    && c < |s.cpus| && s.cpus[c].Runs?
    && var p := s.cpus[c].p;
       && On(s, c, p, User) && s.procs[p].fork.Some? && !s.procs[p].fork.value.parented
       && var np := s.procs[p].fork.value.np;
          && np < |s.procs|
          && s' == Set(Set(s, np, s.procs[np].(parent := Some(p))), p, s.procs[p].(fork := Some(Child(np, true))))
  }

  ghost predicate PublishStep(s: State, c: nat, s': State) {
    && c < |s.cpus| && s.cpus[c].Runs? && s.lock == None
    && var p := s.cpus[c].p;
       && On(s, c, p, User) && s.procs[p].fork.Some? && s.procs[p].fork.value.parented
       && var np := s.procs[p].fork.value.np;
          && np < |s.procs|
          && s' == Set(Set(s, np, s.procs[np].(status := Runnable, at := Off(ToRelease))), p, s.procs[p].(fork := None))
  }

  ghost predicate KillStep(s: State, c: nat, p: nat, s': State) {
    && c < |s.cpus| && s.cpus[c].Runs? && s.lock == None && On(s, c, s.cpus[c].p, User) && p < |s.procs|
    && var x := s.procs[p];
       s' == Set(s, p, x.(killed := true, status := if x.status.Sleeping? then Runnable else x.status))
  }

  /** wakeup by a process, or by the handler of an interrupt, which may find the CPU running any
      process that does not hold the lock, or none. */
  ghost predicate WakeupStep(s: State, c: nat, addr: nat, s': State) {
    && c < |s.cpus| && s.lock == None && (s.cpus[c] == Idle || (s.cpus[c].Runs? && On(s, c, s.cpus[c].p, User)))
    && s' == s.(procs := Wake(s.procs, Other(addr)))
  }

  ghost predicate Step(s: State, l: Label, s': State) {
    match l
    case SchedAcquire(c) =>
      c < |s.cpus| && s.cpus[c] == Idle && s.lock == None && s' == s.(lock := Some(c), cpus := s.cpus[c := Scheduling])
    case SchedPick(c, p) => PickStep(s, c, p, s')
    case SchedRelease(c) =>
      c < |s.cpus| && s.cpus[c] == Scheduling && s' == s.(lock := None, cpus := s.cpus[c := Idle])
    case Swtch(c) => SwtchStep(s, c, s')
    case Release(c) => ReleaseStep(s, c, s')
    case Acquire(c, why) => AcquireStep(s, c, why, s')
    case Yield(c) => YieldStep(s, c, s')
    case Sleep(c) => SleepStep(s, c, s')
    case Exit(c) => ExitStep(s, c, s')
    case Reap(c, k) => ReapStep(s, c, k, s')
    case WaitFails(c) => WaitFailsStep(s, c, s')
    case WaitSleeps(c) => WaitSleepsStep(s, c, s')
    case AllocProc(c, np) => AllocProcStep(s, c, np, s')
    case ForkFails(c) => ForkFailsStep(s, c, s')
    case SetParent(c) => SetParentStep(s, c, s')
    case Publish(c) => PublishStep(s, c, s')
    case Kill(c, p) => KillStep(s, c, p, s')
    case Wakeup(c, addr) => WakeupStep(s, c, addr, s')
  }

  ghost predicate Next(s: State, s': State) {
    exists l :: Step(s, l, s')
  }

  ghost predicate Run(t: seq<State>) {
    && |t| > 0 && Start(t[0])
    && forall i: nat :: Follows(t, i)
  }

  ghost predicate Follows(t: seq<State>, i: nat) {
    0 < i < |t| ==> Next(t[i - 1], t[i])
  }

  // ---- Invariants

  predicate Started(x: Proc) {
    x.status.Sleeping? || x.status == Runnable || x.status == Running || x.status == Zombie
  }

  predicate Alive(x: Proc) {
    Started(x) && x.status != Zombie
  }

  predicate UnderLock(at: At) {
    at.Locked? || at.Leaving? || at.Resumed?
  }

  /** A process in fork runs, or has been preempted. */
  ghost predicate ForkPlace(x: Proc) {
    x.fork.Some? ==>
      && (x.status == Running || x.status == Runnable)
      && (x.at == User || x.at == Locked(ForYield) || x.at == Leaving(ToRelease) || x.at == Off(ToRelease)
         || x.at == Resumed(ToRelease))
  }

  /** The status of a slot agrees with where its process is. */
  ghost predicate StatusOk(x: Proc) {
    && ForkPlace(x)
    && match x.status
       case Unused => x.at == Nowhere && x.stack == None && x.parent == None
       case Embryo => x.at == Nowhere && x.stack == None
       case Running => x.stack.Some? && (x.at == User || x.at.Locked? || x.at.Resumed?)
       case Zombie => x.at == if x.stack.Some? then Leaving(Never) else Off(Never)
       case _ => if x.stack.Some? then x.at.Leaving? && x.at.back != Never else x.at.Off? && x.at.back != Never
  }

  /** A process whose stack is in use is current on that CPU; it has the lock or not as its
      position says. */
  ghost predicate StackOk(s: State, p: nat)
    requires p < |s.procs|
  {
    var x := s.procs[p];
    x.stack.Some? ==>
      && x.stack.value < |s.cpus| && s.cpus[x.stack.value] == Runs(p)
      && (s.lock == x.stack <==> UnderLock(x.at))
  }

  ghost predicate CpuOk(s: State, c: nat)
    requires c < |s.cpus|
  {
    match s.cpus[c]
    case Idle => s.lock != Some(c)
    case Scheduling => s.lock == Some(c)
    case Runs(p) => p < |s.procs| && s.procs[p].stack == Some(c)
  }

  /** A started process other than init has a live parent, which is older. */
  ghost predicate TreeOk(s: State, p: nat)
    requires p < |s.procs|
  {
    var x := s.procs[p];
    p != INITPROC && Started(x) ==>
      && x.parent.Some? && x.parent.value < |s.procs| && Alive(s.procs[x.parent.value])
      && s.procs[x.parent.value].pid < x.pid
  }

  /** A fork in progress owns its unpublished child; such a child has no other parent. */
  ghost predicate ForkOk(s: State, p: nat)
    requires p < |s.procs|
  {
    var x := s.procs[p];
    && (x.fork.Some? ==>
          var np := x.fork.value.np;
          && np < |s.procs| && s.procs[np].status == Embryo && x.pid < s.procs[np].pid
          && s.procs[np].parent == if x.fork.value.parented then Some(p) else None)
    && (x.status == Embryo && x.parent.Some? ==>
          x.parent.value < |s.procs| && s.procs[x.parent.value].fork == Some(Child(p, true)))
  }

  /** A process asleep in wait has a child and no zombie child. */
  ghost predicate WaitOk(s: State, p: nat)
    requires p < |s.procs|
  {
    forall q :: s.procs[p].status == Sleeping(WaitOf(q)) ==>
      q == p && HasChild(s.procs, p) && !HasZombie(s.procs, p)
  }

  ghost predicate PidOk(s: State, p: nat)
    requires p < |s.procs|
  {
    var x := s.procs[p];
    x.status != Unused ==> 0 < x.pid < s.nextpid && x.pid !in s.waited && (p != INITPROC ==> 1 < x.pid)
  }

  ghost predicate KinOk(s: State, p: nat)
    requires p < |s.procs|
  {
    TreeOk(s, p) && ForkOk(s, p) && WaitOk(s, p) && PidOk(s, p)
  }

  ghost predicate PlaceOk(s: State, p: nat)
    requires p < |s.procs|
  {
    StatusOk(s.procs[p]) && StackOk(s, p) && (p == INITPROC ==> s.procs[p].at != Locked(ForExit))
  }

  ghost predicate GlobalOk(s: State) {
    && INITPROC < |s.procs| && Alive(s.procs[INITPROC]) && s.procs[INITPROC].pid == 1 && 1 < s.nextpid
    && (forall p, q :: 0 <= p < q < |s.procs| && s.procs[p].status != Unused && s.procs[q].status != Unused ==>
          s.procs[p].pid != s.procs[q].pid)
    && (forall p, q :: 0 <= p < q < |s.procs| && s.procs[p].fork.Some? && s.procs[q].fork.Some? ==>
          s.procs[p].fork.value.np != s.procs[q].fork.value.np)
    && (forall i, j :: 0 <= i < j < |s.waited| ==> s.waited[i] != s.waited[j])
    && (forall i :: 0 <= i < |s.waited| ==> s.waited[i] < s.nextpid)
  }

  /** The family part of the invariant: parents, forks in progress, sleeping waiters, pids. */
  ghost predicate KinInv(s: State) {
    GlobalOk(s) && forall p :: 0 <= p < |s.procs| ==> KinOk(s, p)
  }

  /** The machine part: CPUs, stacks, states and the lock. */
  ghost predicate PlaceInv(s: State) {
    && (s.lock.Some? ==> s.lock.value < |s.cpus|)
    && (forall p :: 0 <= p < |s.procs| ==> PlaceOk(s, p))
    && (forall c :: 0 <= c < |s.cpus| ==> CpuOk(s, c))
  }

  ghost predicate Inv(s: State) {
    KinInv(s) && PlaceInv(s)
  }

  lemma StartInv(s: State)
    requires Start(s)
    ensures Inv(s)
  {}
}
