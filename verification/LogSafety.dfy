/** What the write-ahead log promises, in every run of operations over the cache and the disk in
    which each operation logs fewer than MAXOPBLOCKS blocks, on a log of LOGSIZE sectors, or at most
    MAXOPBLOCKS on a longer one. That this bound is needed, and cannot be replaced by the test in
    log_write, is shown in LogOverrun. */
module LogSafety {
  import opened Basics
  import opened GroupCommit
  import opened LogDisk
  import opened LogReservation
  import opened Options

  ghost predicate SafeRun(c: Config, m: nat, t: seq<State>) {
    BoundedRun(c, m, t) && Ample(c, m)
  }

  lemma RunInv(c: Config, m: nat, t: seq<State>, i: nat)
    requires SafeRun(c, m, t) && i < |t|
    ensures Inv(c, t[i])
  {
    RunKept(c, m, t, i);
  }

  /** Whole operations only: crash in any state of any run, let recoveries crash any number
      of times, and the first completed recovery leaves the home blocks as some prefix of the
      history made them, a prefix in which every operation that began has ended. When no
      operation is in progress and no commit is running, that prefix is the whole history. */
  lemma RecoveredIsWholeOperations(c: Config, m: nat, t: seq<State>, i: nat, crashes: seq<nat>)
    requires SafeRun(c, m, t) && i < |t|
    ensures var s := t[i];
      && Sound(c.g, s.disk) && s.durable <= |s.hist|
      && SameHome(c.g, AfterCrashes(c.g, s.disk, crashes), Effect(c.base, s.hist[..s.durable]))
      && Open(s.hist[..s.durable]) == {}
      && (s.phase == Running && s.ops == {} ==> s.durable == |s.hist|)
  {
    RunInv(c, m, t, i);
    WorthSaved(c, t[i]);
    CrashesKeepWorth(c.g, t[i].disk, t[i].saved, crashes);
  }

  lemma CommittedStep(c: Config, s: State, l: Label, s': State)
    requires Inv(c, s) && Step(c, s, l, s')
    ensures s.durable <= |s.hist| && s'.durable <= |s'.hist|
    ensures s.hist[..s.durable] <= s'.hist[..s'.durable]
  {}

  lemma CommittedNext(c: Config, m: nat, t: seq<State>, i: nat)
    requires SafeRun(c, m, t) && i + 1 < |t|
    ensures t[i].durable <= |t[i].hist| && t[i + 1].durable <= |t[i + 1].hist|
    ensures Committed(t[i]) <= Committed(t[i + 1])
  {
    RunInv(c, m, t, i);
    assert Follows(c, t, i + 1);
    var l :| Step(c, t[i], l, t[i + 1]);
    CommittedStep(c, t[i], l, t[i + 1]);
  }

  ghost function Committed(s: State): seq<Event>
    requires s.durable <= |s.hist|
  {
    s.hist[..s.durable]
  }

  /** What is committed stays committed, and in the same order, across every step and crash. */
  lemma {:induction false} CommittedStays(c: Config, m: nat, t: seq<State>, i: nat, j: nat)
    requires SafeRun(c, m, t) && i < j < |t|
    ensures t[i].durable <= |t[i].hist| && t[j].durable <= |t[j].hist|
    ensures Committed(t[i]) <= Committed(t[j])
    decreases j - i
  {
    CommittedNext(c, m, t, j - 1);
    if i < j - 1 {
      CommittedStays(c, m, t, i, j - 1);
      PrefixOfPrefix(Committed(t[i]), Committed(t[j - 1]), Committed(t[j]));
    }
  }

  lemma PrefixOfPrefix(a: seq<Event>, b: seq<Event>, c: seq<Event>)
    requires a <= b <= c
    ensures a <= c
  {}

  /** A process that holds a valid buffer which it has not changed since reads what was
      logged last for that block, by any operation. */
  lemma ReadsSeeLatest(c: Config, m: nat, t: seq<State>, i: nat, p: Pid, b: nat)
    requires SafeRun(c, m, t) && i < |t|
    requires Holds(t[i], p, b) && t[i].cache[b].valid && !t[i].cache[b].touched && Home(c.g, b)
    ensures b < |c.base| && t[i].cache[b].data == Effect(c.base, t[i].hist)[b]
  {
    RunInv(c, m, t, i);
    assert BufOk(c, t[i], b);
  }

  /** Between two states, a home block changes on disk although the header does not name it. */
  ghost predicate Early(c: Config, s: State, s': State, b: nat) {
    && b < |s.disk| == |s'.disk| && Home(c.g, b) && HasHeader(c.g, s.disk)
    && s'.disk[b] != s.disk[b] && b !in HeadNums(c.g, s.disk)
  }

  lemma HomeWriteStep(c: Config, s: State, l: Label, s': State, b: nat)
    requires Inv(c, s) && Step(c, s, l, s')
    ensures |s'.disk| == |s.disk| && HasHeader(c.g, s.disk) && !Early(c, s, s', b)
  {
    if b < |s.disk| == |s'.disk| && Home(c.g, b) && s'.disk[b] != s.disk[b] {
      assert l == InstallBlock;
      assert s.lh[s.phase.i] == b;
    }
  }

  /** A home block changes on disk only while the header on disk already names it. */
  lemma NoEarlyHomeWrite(c: Config, m: nat, t: seq<State>, i: nat, b: nat)
    requires SafeRun(c, m, t) && i + 1 < |t|
    ensures |t[i + 1].disk| == |t[i].disk| && HasHeader(c.g, t[i].disk) && !Early(c, t[i], t[i + 1], b)
  {
    RunInv(c, m, t, i);
    assert Follows(c, t, i + 1);
    var l :| Step(c, t[i], l, t[i + 1]);
    HomeWriteStep(c, t[i], l, t[i + 1], b);
  }

  /** The block of a pinned buffer is not in the log area, and still waits to be installed. */
  lemma PinnedIsHome(c: Config, s: State, b: nat)
    requires Shape(c, s) && CacheInv(c, s) && b in s.cache && s.cache[b].dirty
    ensures Home(c.g, b) && Up(s) && Pending(s, b) && s.cache[b].valid
  {
    assert BufOk(c, s, b);
    var j :| Done(s) <= j < |s.lh| && s.lh[j] == b;
  }

  ghost predicate Commits(l: Label) {
    l == AppendBlock || l == CommitHead || l == InstallBlock || l == ClearHead
  }

  lemma PinnedByOthers(c: Config, s: State, l: Label, s': State, b: nat)
    requires Step(c, s, l, s') && l != Crash && !Commits(l) && b in s.cache && s.cache[b].dirty
    ensures b in s'.cache && s'.cache[b].dirty
  {}

  lemma PinnedKept(c: Config, s: State, l: Label, s': State, b: nat)
    requires Shape(c, s) && CacheInv(c, s) && Step(c, s, l, s') && l != Crash && b in s.cache && s.cache[b].dirty
    ensures b in s'.cache
    ensures !s'.cache[b].dirty ==> l == InstallBlock && s.lh[s.phase.i] == b
  {
    PinnedIsHome(c, s, b);
    if !Commits(l) { PinnedByOthers(c, s, l, s', b); }
  }

  lemma InstalledIsCurrent(c: Config, s: State, s': State)
    requires Inv(c, s) && Inv(c, s') && InstallBlockStep(c, s, s')
    ensures var b := s.lh[s.phase.i];
      b < |s'.disk| == |s'.view| && s'.disk[b] == s'.view[b]
  {
    InstallPending(c, s, s');
    assert !Pending(s', s.lh[s.phase.i]);
  }

  /** A buffer that the log has pinned leaves the cache only in a crash, and stops being pinned
      only when its block has been installed. */
  lemma PinnedStays(c: Config, m: nat, t: seq<State>, i: nat, l: Label, b: nat)
    requires SafeRun(c, m, t) && i + 1 < |t| && Step(c, t[i], l, t[i + 1]) && l != Crash
    requires b in t[i].cache && t[i].cache[b].dirty
    ensures b in t[i + 1].cache
    ensures !t[i + 1].cache[b].dirty ==>
      l == InstallBlock && b < |t[i + 1].disk| == |t[i + 1].view| && t[i + 1].disk[b] == t[i + 1].view[b]
  {
    RunInv(c, m, t, i);
    RunKept(c, m, t, i + 1);
    PinnedKept(c, t[i], l, t[i + 1], b);
    if l == InstallBlock { InstalledIsCurrent(c, t[i], t[i + 1]); }
  }

  /** A process that has passed the test of log_write can enter its block whenever it gets the lock. */
  lemma {:induction false} EnterAlwaysPossible(c: Config, m: nat, t: seq<State>, i: nat, p: Pid)
    requires SafeRun(c, m, t) && i < |t| && p in t[i].passed
    ensures exists s' :: LogWriteStep(c, t[i], p, t[i].passed[p], s')
  {
    RunKept(c, m, t, i);
    var s := t[i];
    var b := s.passed[p];
    assert PassedOk(c, s, p);
    var s' := Logged(SetBuf(s, b, s.cache[b].(dirty := true, touched := false)), Write(p, b, s.cache[b].data))
             .(lh := if b in s.lh then s.lh else s.lh + [b], view := s.view[b := s.cache[b].data],
               passed := s.passed - {p});
    assert LogWriteStep(c, s, p, b, s');
  }
}
