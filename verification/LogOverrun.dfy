/** Why operations must stay below MAXOPBLOCKS blocks. log_write tests for room before it acquires
    log.lock, so that two processes can pass the test together; with three operations of ten
    blocks each, the header then lists one block more than the log has sectors for, and write_log
    overwrites the block behind the log before anything is committed. */
module LogOverrun {
  import opened Basics
  import opened GroupCommit
  import opened LogDisk
  import opened LogReservation
  import opened LogSafety
  import opened Options
  import opened Sets
  import LogSpace

  const NBLOCKS: nat := 100

  /** A disk with an empty log at block 2 and LOGSIZE sectors, as mkfs makes it. */
  ghost function Base(): (d: Disk)
    ensures |d| == NBLOCKS && d[2] == Head(0, seq(30, _ => 0)) && d[32] != d[69]
  {
    seq(NBLOCKS, b => if b == 2 then Head(0, seq(30, _ => 0)) else Data(if b == 69 then "x" else ""))
  }

  /** MAXOPBLOCKS and LOGSIZE of include/param.h, and nlog of fs/mkfs.c. */
  ghost predicate Constants(c: Config) {
    c.maxop == 10 && c.logsize == 30 && c.g.nlog == 30
  }

  ghost function C(): Config {
    Config(Geometry(2, 30), 10, 30, Base())
  }

  // ---- Paths

  /** The operation that logs block b here, ten blocks each; the last two blocks go to two different
      operations. */
  ghost function Owner(b: nat): Pid {
    if b < 50 then 0 else if b < 59 || b == 68 then 1 else 2
  }

  ghost predicate InTurn(x: (Pid, nat)) {
    40 <= x.1 < 70 && x.0 == Owner(x.1)
  }

  ghost predicate FineHist(h: seq<Event>) {
    forall x :: x in UsedOf(h) ==> InTurn(x)
  }

  ghost predicate Fine(s: State) {
    FineHist(s.hist) && LogSpace.Within(Project(s), 10)
  }

  ghost predicate Path(t: seq<State>, s: State, s': State) {
    && |t| > 0 && t[0] == s && t[|t| - 1] == s'
    && (forall i: nat :: Follows(C(), t, i))
    && (forall i :: 0 <= i < |t| ==> Fine(t[i]))
  }

  ghost predicate Reach(s: State, s': State) {
    exists t :: Path(t, s, s')
  }

  ghost function Row(p: Pid, lo: nat, hi: nat): set<(Pid, nat)> {
    set i: nat | lo <= i < hi :: (p, i)
  }

  lemma FineShare(s: State, p: Pid)
    requires FineHist(s.hist)
    ensures |LogSpace.Share(Project(s), p)| <= 10
  {
    var lo := if p == 0 then 40 else if p == 1 then 50 else 59;
    var hi := if p == 0 then 49 else lo + 9;
    var last := if p == 0 then 49 else if p == 1 then 68 else 69;
    var all := Row(p, lo, hi) + {(p, last)};
    forall x | x in LogSpace.Share(Project(s), p) ensures x in all {
      assert InTurn(x) && x == (p, x.1);
    }
    LogSpace.IntervalSize(lo, hi, p);
    SubsetSize(LogSpace.Share(Project(s), p), all);
  }

  lemma FineWithin(s: State)
    requires FineHist(s.hist)
    ensures Fine(s)
  {
    forall p ensures |LogSpace.Share(Project(s), p)| <= 10 {
      FineShare(s, p);
    }
  }

  lemma ReachSelf(s: State)
    requires FineHist(s.hist)
    ensures Reach(s, s)
  {
    FineWithin(s);
    assert Path([s], s, s);
  }

  lemma PathOfTwo(s: State, s': State)
    requires Next(C(), s, s') && Fine(s) && Fine(s')
    ensures Reach(s, s')
  {
    var t := [s, s'];
    assert t[0] == s && t[1] == s';
    assert Path(t, s, s');
  }

  lemma ReachStep(s: State, l: Label, s': State)
    requires Step(C(), s, l, s') && FineHist(s.hist) && FineHist(s'.hist)
    ensures Reach(s, s')
  {
    FineWithin(s);
    FineWithin(s');
    assert Next(C(), s, s');
    PathOfTwo(s, s');
  }

  ghost predicate Joined(t1: seq<State>, t2: seq<State>, t: seq<State>) {
    |t1| > 0 && |t2| > 0 && t1[|t1| - 1] == t2[0] && t == t1 + t2[1..]
  }

  lemma JoinFollows(c: Config, t1: seq<State>, t2: seq<State>, t: seq<State>, i: nat)
    requires Joined(t1, t2, t) && (if i < |t1| then Follows(c, t1, i) else Follows(c, t2, i - |t1| + 1))
    ensures Follows(c, t, i)
  {
    if |t1| <= i < |t| {
      assert t[i - 1] == t2[i - |t1|] && t[i] == t2[i - |t1| + 1];
    }
  }

  lemma JoinFine(t1: seq<State>, t2: seq<State>, t: seq<State>)
    requires Joined(t1, t2, t)
    requires forall i :: 0 <= i < |t1| ==> Fine(t1[i])
    requires forall i :: 0 <= i < |t2| ==> Fine(t2[i])
    ensures forall i :: 0 <= i < |t| ==> Fine(t[i])
  {
    forall i | 0 <= i < |t| ensures Fine(t[i]) {
      if i >= |t1| { assert t[i] == t2[i - |t1| + 1]; }
    }
  }

  lemma ReachAgain(s: State, s1: State, s2: State)
    requires Reach(s, s1) && Reach(s1, s2)
    ensures Reach(s, s2)
  {
    var t1 :| Path(t1, s, s1);
    var t2 :| Path(t2, s1, s2);
    var t := t1 + t2[1..];
    forall i: nat ensures Follows(C(), t, i) {
      if i < |t1| { assert Follows(C(), t1, i); } else { assert Follows(C(), t2, i - |t1| + 1); }
      JoinFollows(C(), t1, t2, t, i);
    }
    JoinFine(t1, t2, t);
    assert Path(t, s, s2);
  }

  ghost predicate Linked(u: seq<State>, i: nat) {
    0 < i < |u| ==> Reach(u[i - 1], u[i])
  }

  lemma {:induction false} Chain(u: seq<State>)
    requires |u| > 0 && FineHist(u[0].hist) && forall i: nat :: Linked(u, i)
    ensures Reach(u[0], u[|u| - 1])
  {
    if |u| == 1 {
      ReachSelf(u[0]);
    } else {
      var v := u[..|u| - 1];
      forall i: nat ensures Linked(v, i) { assert Linked(u, i); }
      Chain(v);
      assert Linked(u, |u| - 1);
      ReachAgain(u[0], v[|v| - 1], u[|u| - 1]);
    }
  }

  // ---- Three operations log 28 blocks

  ghost function Clean(b: nat): Buf
    requires b < NBLOCKS
  {
    Buf(Base()[b], true, false, 0, None, false)
  }

  ghost function Pinned(b: nat): Buf
    requires b < NBLOCKS
  {
    Buf(Base()[b], true, true, 0, None, false)
  }

  ghost function Cache(k: nat): (m: map<nat, Buf>)
    requires k <= 30
    ensures forall b :: b in m <==> b == 2 || 40 <= b < 40 + k
    ensures forall b :: 40 <= b < 40 + k ==> m[b] == Pinned(b)
    ensures m[2] == Clean(2)
  {
    if k == 0 then map[2 := Clean(2)] else Cache(k - 1)[39 + k := Pinned(39 + k)]
  }

  ghost function Hist(k: nat): (h: seq<Event>)
    requires k <= 30
  {
    if k == 0 then [Begin(0), Begin(1), Begin(2)] else Hist(k - 1) + [Write(Owner(39 + k), 39 + k, Base()[39 + k])]
  }

  lemma {:induction false} HistFine(k: nat)
    requires k <= 30
    ensures FineHist(Hist(k))
  {
    if k == 0 {
      UsedSnoc([], Begin(0));
      UsedSnoc([Begin(0)], Begin(1));
      UsedSnoc([Begin(0), Begin(1)], Begin(2));
      assert [] + [Begin(0)] == [Begin(0)] && [Begin(0)] + [Begin(1)] == [Begin(0), Begin(1)];
      assert [Begin(0), Begin(1)] + [Begin(2)] == Hist(0);
    } else {
      HistFine(k - 1);
      UsedSnoc(Hist(k - 1), Write(Owner(39 + k), 39 + k, Base()[39 + k]));
    }
  }

  /** Three operations have logged blocks 40 to 39 + k in turn. */
  ghost function Logs(k: nat): State
    requires k <= 30
  {
    State(Base(), Cache(k), seq(k, i => 40 + i), {0, 1, 2}, map[], Running, Hist(k), 0, Base(), Base())
  }

  /** Block b taken up in s, read, and held by p. */
  ghost function Held(s: State, p: Pid, b: nat): State
    requires b < NBLOCKS
  {
    SetBuf(s, b, Clean(b).(refs := 1, holder := Some(p)))
  }

  lemma Fetch(s: State, p: Pid, b: nat)
    requires Up(s) && b !in s.cache && b < NBLOCKS && s.disk == Base() && p !in s.passed && FineHist(s.hist)
    ensures Reach(s, Held(s, p, b))
  {
    var s1 := SetBuf(s, b, Buf(Base()[b], false, false, 1, None, false));
    var s2 := SetBuf(s1, b, s1.cache[b].(holder := Some(p)));
    assert Step(C(), s, Recycle(b, None), s1);
    assert Step(C(), s1, Lock(p, b), s2);
    assert Held(s, p, b) == SetBuf(s2, b, s2.cache[b].(data := s2.disk[b], valid := true));
    assert Step(C(), s2, Fill(p, b), Held(s, p, b));
    ReachStep(s, Recycle(b, None), s1);
    ReachStep(s1, Lock(p, b), s2);
    ReachStep(s2, Fill(p, b), Held(s, p, b));
    ReachAgain(s, s1, s2);
    ReachAgain(s, s2, Held(s, p, b));
  }

  /** The block entered into the header by p, which still holds it. */
  ghost function Entered(s: State, p: Pid, b: nat): State
    requires b < NBLOCKS
  {
    Logged(SetBuf(s, b, Pinned(b).(refs := 1, holder := Some(p))), Write(p, b, Base()[b]))
      .(lh := s.lh + [b], passed := s.passed - {p})
  }

  lemma Test(s: State, p: Pid, b: nat)
    requires p in s.ops && p !in s.passed && Holds(s, p, b) && s.cache[b].valid && 40 <= b < NBLOCKS == |s.view|
      && FineHist(s.hist)
    requires |s.lh| < 29
    ensures Reach(s, s.(passed := s.passed[p := b]))
  {
    ReachStep(s, LogTest(p, b), s.(passed := s.passed[p := b]));
  }

  lemma Enter(s: State, p: Pid, b: nat)
    requires p in s.passed && s.passed[p] == b && p in s.ops && 40 <= b < 70 && p == Owner(b) && s.view == Base()
      && b !in s.lh
    requires b in s.cache && s.cache[b] == Clean(b).(refs := 1, holder := Some(p)) && FineHist(s.hist)
    ensures Reach(s, Entered(s, p, b)) && FineHist(Entered(s, p, b).hist)
  {
    UsedSnoc(s.hist, Write(p, b, Base()[b]));
    assert s.view[b := Base()[b]] == s.view;
    assert Step(C(), s, LogWrite(p, b), Entered(s, p, b));
    ReachStep(s, LogWrite(p, b), Entered(s, p, b));
  }

  lemma Release(s: State, p: Pid, b: nat)
    requires Up(s) && p !in s.passed && b < NBLOCKS && b in s.cache
      && s.cache[b] == Pinned(b).(refs := 1, holder := Some(p)) && FineHist(s.hist)
    ensures Reach(s, SetBuf(s, b, Pinned(b)))
  {
    assert Step(C(), s, Label.Release(p, b), SetBuf(s, b, Pinned(b)));
    ReachStep(s, Label.Release(p, b), SetBuf(s, b, Pinned(b)));
  }

  lemma Reach4(s: State, s1: State, s2: State, s3: State, s4: State)
    requires Reach(s, s1) && Reach(s1, s2) && Reach(s2, s3) && Reach(s3, s4)
    ensures Reach(s, s4)
  {
    ReachAgain(s, s1, s2);
    ReachAgain(s2, s3, s4);
    ReachAgain(s, s2, s4);
  }

  /** What p makes of s when it fetches block b, logs it and gives it up. */
  ghost function After(s: State, p: Pid, b: nat): State
    requires b < NBLOCKS
  {
    Logged(SetBuf(s, b, Pinned(b)), Write(p, b, Base()[b])).(lh := s.lh + [b])
  }

  lemma LogsNext(k: nat)
    requires k < 30
    ensures After(Logs(k), Owner(40 + k), 40 + k) == Logs(k + 1)
  {
    assert Logs(k + 1).lh == Logs(k).lh + [40 + k];
  }

  lemma Finished(s: State, p: Pid, b: nat)
    requires b < NBLOCKS && p !in s.passed
    ensures var s2 := Held(s, p, b).(passed := s.passed[p := b]);
      SetBuf(Entered(s2, p, b), b, Pinned(b)) == After(s, p, b)
  {
    assert s.passed[p := b] - {p} == s.passed;
  }

  lemma LogBlock(s: State, p: Pid, b: nat)
    requires Up(s) && s.ops == {0, 1, 2} && s.passed == map[] && s.view == Base() && s.disk == Base()
      && FineHist(s.hist)
    requires p < 3 && 40 <= b < 70 && p == Owner(b) && b !in s.cache && b !in s.lh && |s.lh| < 29
    ensures Reach(s, After(s, p, b))
  {
    Finished(s, p, b);
    Fetch(s, p, b);
    var s1 := Held(s, p, b);
    Test(s1, p, b);
    var s2 := s1.(passed := s1.passed[p := b]);
    Enter(s2, p, b);
    var s3 := Entered(s2, p, b);
    Release(s3, p, b);
    Reach4(s, s1, s2, s3, After(s, p, b));
  }

  lemma LogOne(k: nat)
    requires k < 28
    ensures Reach(Logs(k), Logs(k + 1))
  {
    HistFine(k);
    LogsNext(k);
    LogBlock(Logs(k), Owner(40 + k), 40 + k);
  }

  ghost function LogsTo(k: nat): (u: seq<State>)
    requires k <= 28
    ensures |u| == k + 1 && forall j :: 0 <= j <= k ==> u[j] == Logs(j)
  {
    seq(k + 1, j requires 0 <= j <= k => Logs(j))
  }

  lemma LogMany(k: nat)
    requires k <= 28
    ensures Reach(Logs(0), Logs(k))
  {
    var u := LogsTo(k);
    forall j: nat ensures Linked(u, j) {
      if 0 < j < |u| { LogOne(j - 1); }
    }
    HistFine(0);
    Chain(u);
  }

  // ---- The race

  /** With k blocks listed, processes 1 and 2 hold the next two blocks and have passed the test. */
  ghost function BothPassed(k: nat): State
    requires k <= 28
  {
    Held(Held(Logs(k), 1, 40 + k), 2, 41 + k).(passed := map[1 := 40 + k, 2 := 41 + k])
  }

  lemma ReachBothPassed(k: nat)
    requires k <= 28 && Owner(40 + k) == 1 && Owner(41 + k) == 2
    ensures Reach(Logs(k), BothPassed(k))
  {
    HistFine(k);
    var s := Logs(k);
    Fetch(s, 1, 40 + k);
    var s1 := Held(s, 1, 40 + k);
    Fetch(s1, 2, 41 + k);
    var s2 := Held(s1, 2, 41 + k);
    Test(s2, 1, 40 + k);
    var s3 := s2.(passed := s2.passed[1 := 40 + k]);
    Test(s3, 2, 41 + k);
    assert s3.passed[2 := 41 + k] == map[1 := 40 + k, 2 := 41 + k];
    assert s3.(passed := s3.passed[2 := 41 + k]) == BothPassed(k);
    Reach4(s, s1, s2, s3, BothPassed(k));
  }

  lemma Settled(m: map<nat, Buf>, a: nat, b: nat, x1: Buf, y1: Buf, x2: Buf, y2: Buf, x: Buf, y: Buf)
    requires a != b
    ensures m[a := x1][b := y1][a := x2][b := y2][a := x][b := y] == m[a := x][b := y]
  {}

  /** What the two make of s together is what they would make of it one after the other. */
  lemma RaceEnd(s: State, a: nat, b: nat)
    requires a < b < NBLOCKS && s.passed == map[]
    ensures var r := Held(Held(s, 1, a), 2, b).(passed := map[1 := a, 2 := b]);
      SetBuf(SetBuf(Entered(Entered(r, 1, a), 2, b), a, Pinned(a)), b, Pinned(b)) == After(After(s, 1, a), 2, b)
  {
    Settled(s.cache, a, b, Clean(a).(refs := 1, holder := Some(1)), Clean(b).(refs := 1, holder := Some(2)),
            Pinned(a).(refs := 1, holder := Some(1)), Pinned(b).(refs := 1, holder := Some(2)), Pinned(a), Pinned(b));
    assert map[1 := a, 2 := b] - {1} - {2} == map[];
  }

  lemma Entering(s: State, a: nat, b: nat)
    requires 40 <= a < b < 70 && Owner(a) == 1 && Owner(b) == 2 && s.ops == {0, 1, 2} && s.view == Base() && Up(s)
    requires a !in s.lh && b !in s.lh && FineHist(s.hist)
    ensures var r := Held(Held(s, 1, a), 2, b).(passed := map[1 := a, 2 := b]);
      Reach(r, SetBuf(SetBuf(Entered(Entered(r, 1, a), 2, b), a, Pinned(a)), b, Pinned(b)))
  {
    var r := Held(Held(s, 1, a), 2, b).(passed := map[1 := a, 2 := b]);
    Enter(r, 1, a);
    var s1 := Entered(r, 1, a);
    Enter(s1, 2, b);
    var s2 := Entered(s1, 2, b);
    Release(s2, 1, a);
    var s3 := SetBuf(s2, a, Pinned(a));
    Release(s3, 2, b);
    Reach4(r, s1, s2, s3, SetBuf(s3, b, Pinned(b)));
  }

  lemma TwoMore(k: nat)
    requires k <= 28 && Owner(40 + k) == 1 && Owner(41 + k) == 2
    ensures After(After(Logs(k), 1, 40 + k), 2, 41 + k) == Logs(k + 2)
  {
    LogsNext(k);
    LogsNext(k + 1);
  }

  lemma Race(s: State, a: nat, b: nat)
    requires 40 <= a < b < 70 && Owner(a) == 1 && Owner(b) == 2 && s.ops == {0, 1, 2} && s.view == Base() && Up(s)
    requires a !in s.lh && b !in s.lh && FineHist(s.hist) && s.passed == map[]
    ensures Reach(Held(Held(s, 1, a), 2, b).(passed := map[1 := a, 2 := b]), After(After(s, 1, a), 2, b))
  {
    Entering(s, a, b);
    RaceEnd(s, a, b);
  }

  lemma ReachOverfull(k: nat)
    requires k <= 28 && Owner(40 + k) == 1 && Owner(41 + k) == 2
    ensures Reach(BothPassed(k), Logs(k + 2))
  {
    HistFine(k);
    Race(Logs(k), 40 + k, 41 + k);
    TwoMore(k);
  }

  // ---- From boot to there

  ghost function Booted(n: nat): State
    requires n <= 3
  {
    State(Base(), Cache(0), [], if n == 0 then {} else if n == 1 then {0} else if n == 2 then {0, 1} else {0, 1, 2},
          map[], Running,
          if n == 0 then [] else if n == 1 then [Begin(0)] else if n == 2 then [Begin(0), Begin(1)] else Hist(0), 0,
            Base(), Base())
  }

  ghost function First(): State {
    State(Base(), map[], [], {}, map[], Boot, [], 0, Base(), Base())
  }

  lemma ReachBooted()
    ensures Reach(First(), Booted(0))
  {
    var s := First();
    var s1 := s.(phase := Installing(0, true));
    assert HeadNums(C().g, Base()) == [];
    assert Step(C(), s, ReadHead, s1);
    var h := HeadWith(Base()[2], []);
    assert h == Base()[2];
    assert Base()[2 := h] == Base();
    assert Booted(0) == Bwrite(s1, 2, h).(lh := [], phase := Running);
    assert Step(C(), s1, ClearHead, Booted(0));
    ReachStep(s, ReadHead, s1);
    ReachStep(s1, ClearHead, Booted(0));
    ReachAgain(s, s1, Booted(0));
  }

  lemma BeginOne(n: nat)
    requires n < 3
    ensures Reach(Booted(n), Booted(n + 1))
  {
    var s, s' := Booted(n), Booted(n + 1);
    assert s'.ops == s.ops + {n};
    assert s'.hist == s.hist + [Begin(n)];
    UsedSnoc(s.hist, Begin(n));
    BootedFine(n);
    BootedSize(n);
    assert Step(C(), s, BeginOp(n), s');
    ReachStep(s, BeginOp(n), s');
  }

  lemma BootedFine(n: nat)
    requires n <= 3
    ensures FineHist(Booted(n).hist)
  {
    UsedSnoc([], Begin(0));
    UsedSnoc([Begin(0)], Begin(1));
    assert [] + [Begin(0)] == [Begin(0)] && [Begin(0)] + [Begin(1)] == [Begin(0), Begin(1)];
    HistFine(0);
  }

  lemma BootedSize(n: nat)
    requires n <= 3
    ensures |Booted(n).ops| == n
  {}

  lemma ReachLogs(k: nat)
    requires k <= 28
    ensures Reach(First(), Logs(k))
  {
    ReachBooted();
    BeginOne(0);
    BeginOne(1);
    BeginOne(2);
    assert Booted(3) == Logs(0) by { assert Booted(3).ops == {0, 1, 2} && Logs(0).lh == []; }
    Reach4(First(), Booted(0), Booted(1), Booted(2), Logs(0));
    LogMany(k);
    ReachAgain(First(), Logs(0), Logs(k));
  }

  /** Thirty blocks are listed, one more than the log has sectors for. */
  lemma ReachThirty()
    ensures Reach(First(), Logs(30)) && |Logs(30).lh| == C().g.nlog
  {
    var k: nat :| k == 28;
    ReachLogs(k);
    ReachBothPassed(k);
    ReachOverfull(k);
    ReachAgain(First(), Logs(k), BothPassed(k));
    ReachAgain(First(), BothPassed(k), Logs(k + 2));
  }

  // ---- The commit that follows

  ghost function Ended(k: nat, n: nat): State
    requires k <= 30 && n <= 3
  {
    var s := Logs(k);
    if n == 0 then s
    else if n == 1 then s.(ops := {1, 2}, hist := s.hist + [End(0)])
    else if n == 2 then s.(ops := {2}, hist := s.hist + [End(0)] + [End(1)])
    else s.(ops := {}, hist := s.hist + [End(0)] + [End(1)] + [End(2)], phase := Appending(0))
  }

  lemma EndFine(h: seq<Event>, p: Pid)
    requires FineHist(h)
    ensures FineHist(h + [End(p)])
  {
    UsedSnoc(h, End(p));
  }

  lemma EndedFine(k: nat, n: nat)
    requires k <= 30 && n <= 3
    ensures FineHist(Ended(k, n).hist)
  {
    HistFine(k);
    EndFine(Hist(k), 0);
    EndFine(Hist(k) + [End(0)], 1);
    EndFine(Hist(k) + [End(0)] + [End(1)], 2);
  }

  lemma EndOne(k: nat, n: nat)
    requires 0 < k <= 30 && n < 3
    ensures Reach(Ended(k, n), Ended(k, n + 1))
  {
    var s, s' := Ended(k, n), Ended(k, n + 1);
    EndedFine(k, n);
    EndedFine(k, n + 1);
    assert s.ops - {n} == s'.ops;
    forall b | b in s.cache ensures s.cache[b].holder == None {}
    assert EndOpStep(s, n, s');
    ReachStep(s, EndOp(n), s');
  }

  /** The disk after i sector writes of write_log. */
  ghost function CopiedDisk(i: nat): (d: Disk)
    requires i <= 30
  {
    seq(NBLOCKS, b requires 0 <= b < NBLOCKS => if 3 <= b < 3 + i then Base()[b + 37] else Base()[b])
  }

  ghost function CopiedCache(k: nat, i: nat): (m: map<nat, Buf>)
    requires i <= k <= 30
    ensures forall b :: b in m <==> b in Cache(k) || 3 <= b < 3 + i
    ensures forall b :: b in m ==> m[b].holder == None
    ensures forall b :: 40 <= b < 40 + k ==> m[b] == Pinned(b)
  {
    if i == 0 then Cache(k) else CopiedCache(k, i - 1)[2 + i := Buf(Base()[39 + i], true, false, 0, None, false)]
  }

  ghost function Copying(k: nat, i: nat): State
    requires i <= k <= 30
  {
    Ended(k, 3).(disk := CopiedDisk(i), cache := CopiedCache(k, i), phase := Appending(i))
  }

  lemma CopiedNext(k: nat, i: nat)
    requires i < k <= 30
    ensures CopiedDisk(i + 1) == CopiedDisk(i)[3 + i := Base()[40 + i]]
    ensures CopiedCache(k, i + 1) == CopiedCache(k, i)[3 + i := Buf(Base()[40 + i], true, false, 0, None, false)]
    ensures 3 + i !in CopiedCache(k, i) && 40 + i in CopiedCache(k, i) && CopiedCache(k, i)[40 + i] == Pinned(40 + i)
  {}

  lemma AppendAt(c: Config, s: State, i: nat, x: nat, to: nat, data: Sector, s': State)
    requires s.phase == Appending(i) && i < |s.lh| && s.lh[i] == x < |s.disk|
    requires x in s.cache && s.cache[x].valid && s.cache[x].data == data && s.cache[x].holder == None
    requires to == c.g.start + 1 + i < |s.disk| && to !in s.cache
    requires s' == s.(disk := s.disk[to := data], cache := s.cache[to := Buf(data, true, false, 0, None, false)],
                      phase := Appending(i + 1))
    ensures Step(c, s, AppendBlock, s')
  {}

  lemma CopyStep(k: nat, i: nat)
    requires i < k <= 30
    ensures Step(C(), Copying(k, i), AppendBlock, Copying(k, i + 1))
  {
    CopiedNext(k, i);
    assert Copying(k, i).lh[i] == 40 + i;
    AppendAt(C(), Copying(k, i), i, 40 + i, 3 + i, Base()[40 + i], Copying(k, i + 1));
  }

  lemma CopyOne(k: nat, i: nat)
    requires i < k <= 30
    ensures Reach(Copying(k, i), Copying(k, i + 1))
  {
    EndedFine(k, 3);
    CopyStep(k, i);
    ReachStep(Copying(k, i), AppendBlock, Copying(k, i + 1));
  }

  ghost function Copies(k: nat, i: nat): (u: seq<State>)
    requires i <= k <= 30
    ensures |u| == i + 1 && forall j :: 0 <= j <= i ==> u[j] == Copying(k, j)
  {
    seq(i + 1, j requires 0 <= j <= i => Copying(k, j))
  }

  lemma CopyMany(k: nat, i: nat)
    requires i <= k <= 30
    ensures Reach(Copying(k, 0), Copying(k, i))
  {
    var u := Copies(k, i);
    forall j: nat ensures Linked(u, j) {
      if 0 < j < |u| { CopyOne(k, j - 1); }
    }
    EndedFine(k, 3);
    Chain(u);
  }

  lemma ReachCopying(k: nat, i: nat)
    requires 0 < i <= k <= 30 && Reach(First(), Logs(k))
    ensures Reach(First(), Copying(k, i))
  {
    EndOne(k, 0);
    EndOne(k, 1);
    EndOne(k, 2);
    CopyMany(k, i);
    assert Copying(k, 0) == Ended(k, 3);
    Reach4(Logs(k), Ended(k, 1), Ended(k, 2), Ended(k, 3), Copying(k, i));
    ReachAgain(First(), Logs(k), Copying(k, i));
  }

  // ---- Main results

  /** A run that keeps the bound, and the two states between which a home block changes early. */
  ghost predicate EarlyRun(c: Config, m: nat, t: seq<State>, i: nat, b: nat) {
    Constants(c) && BoundedRun(c, m, t) && i + 1 < |t| && Early(c, t[i], t[i + 1], b)
  }

  ghost predicate EarlyPossible(m: nat) {
    exists c, t, i, b :: EarlyRun(c, m, t, i, b)
  }

  ghost predicate OverfullRun(c: Config, m: nat, t: seq<State>, i: nat) {
    Constants(c) && BoundedRun(c, m, t) && i < |t| && |t[i].lh| >= c.g.nlog
  }

  ghost predicate OverfullPossible(m: nat) {
    exists c, t, i :: OverfullRun(c, m, t, i)
  }

  lemma PathIsRun(t: seq<State>, s: State)
    requires Path(t, First(), s)
    ensures BoundedRun(C(), 10, t)
  {
    assert Init(C(), t[0]) by { assert HeadNums(C().g, Base()) == []; }
  }

  /** Two log_writes past the test with 28 blocks listed: the header lists as many blocks as the
      whole log has sectors, header included. */
  lemma TestDoesNotBound()
    ensures OverfullPossible(10)
  {
    ReachThirty();
    var k: nat :| k == 30;
    var t: seq<State> :| Path(t, First(), Logs(k));
    PathIsRun(t, Logs(k));
    assert OverfullRun(C(), 10, t, |t| - 1);
  }

  lemma PathPlus(t: seq<State>, s: State, s': State, l: Label, s'': State)
    requires Path(t, s, s') && Step(C(), s', l, s'') && FineHist(s''.hist)
    ensures Path(t + [s''], s, s'')
  {
    FineWithin(s'');
    assert Next(C(), s', s'');
    var u := t + [s''];
    forall i: nat ensures Follows(C(), u, i) {
      if i < |t| { assert Follows(C(), t, i); }
    }
  }

  /** The sector for the last block is that of block 32, behind the log. */
  lemma LastIsEarly(k: nat, i: nat)
    requires i < k <= 30 && 3 + i == 32
    ensures Early(C(), Copying(k, i), Copying(k, i + 1), 3 + i)
  {
    assert CopiedDisk(i)[2] == Base()[2] && HeadNums(C().g, CopiedDisk(i)) == [];
    assert CopiedDisk(i)[3 + i] == Base()[32] && CopiedDisk(i + 1)[3 + i] == Base()[69];
  }

  lemma EarlyFrom(k: nat, i: nat)
    requires i < k <= 30 && 3 + i == 32 && Reach(First(), Copying(k, i))
    ensures EarlyPossible(10)
  {
    var t: seq<State> :| Path(t, First(), Copying(k, i));
    EndedFine(k, 3);
    CopyStep(k, i);
    PathPlus(t, First(), Copying(k, i), AppendBlock, Copying(k, i + 1));
    var u := t + [Copying(k, i + 1)];
    PathIsRun(u, Copying(k, i + 1));
    LastIsEarly(k, i);
    assert u[|t| - 1] == Copying(k, i) && u[|t|] == Copying(k, i + 1);
    assert EarlyRun(C(), 10, u, |t| - 1, 3 + i);
  }

  /** The thirtieth sector that write_log then writes is the block behind the log. */
  lemma OverwritesNeighbour()
    ensures EarlyPossible(10)
  {
    ReachThirty();
    var k: nat, i: nat :| k == 30 && i == 29;
    ReachCopying(k, i);
    EarlyFrom(k, i);
  }

  /** A looser bound admits the same runs. */
  lemma MoreAllowed(m: nat)
    requires m >= 10 && EarlyPossible(10) && OverfullPossible(10)
    ensures EarlyPossible(m) && OverfullPossible(m)
  {
    var c, t, i, b :| EarlyRun(c, 10, t, i, b);
    LooserBound(c, m, t);
    assert EarlyRun(c, m, t, i, b);
    var c', t', i' :| OverfullRun(c', 10, t', i');
    LooserBound(c', m, t');
    assert OverfullRun(c', m, t', i');
  }

  lemma LooserBound(c: Config, m: nat, t: seq<State>)
    requires m >= 10 && BoundedRun(c, 10, t)
    ensures BoundedRun(c, m, t)
  {
    forall i | 0 <= i < |t| ensures LogSpace.Within(Project(t[i]), m) {
      assert LogSpace.Within(Project(t[i]), 10);
    }
  }

  /** With the constants of the system, home blocks are safe from early writes exactly when every
      operation keeps below MAXOPBLOCKS blocks; the test in log_write does not help at the bound. */
  lemma SafeExactly(m: nat)
    ensures EarlyPossible(m) <==> m >= 10
    ensures OverfullPossible(m) <==> m >= 10
  {
    if m >= 10 {
      TestDoesNotBound();
      OverwritesNeighbour();
      MoreAllowed(m);
    } else {
      forall c, t, i: nat, b: nat ensures !EarlyRun(c, m, t, i, b) {
        if Constants(c) && BoundedRun(c, m, t) && i + 1 < |t| { NoEarlyHomeWrite(c, m, t, i, b); }
      }
      forall c, t, i: nat ensures !OverfullRun(c, m, t, i) {
        if Constants(c) && BoundedRun(c, m, t) && i < |t| { RunKept(c, m, t, i); }
      }
    }
  }
}
