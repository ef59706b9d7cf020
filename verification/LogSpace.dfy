/** Log space: how begin_op, log_write and end_op of kernel/log.c share the entries of the
    in-memory header between concurrent operations, and when the "too big a transaction"
    panic can be reached. */
module LogSpace {
  import opened Basics
  import opened Sets

  /** MAXOPBLOCKS, LOGSIZE and log.size */
  datatype Space = Space(maxop: nat, logsize: nat, nlog: nat)

  /** used holds (p, b) when outstanding operation p has logged block b; passed holds those that
      have passed the test at the head of log_write and not yet acquired log.lock. */
  datatype State = State(lh: seq<nat>, ops: set<Pid>, used: set<(Pid, nat)>, passed: set<Pid>, committing: bool)

  datatype Label = Begin(p: Pid) | Test(p: Pid) | Write(p: Pid, b: nat) | End(p: Pid) | Reset

  ghost predicate Init(s: State) {
    s == State([], {}, {}, {}, false)
  }

  /** The guard at the head of log_write. */
  ghost predicate Panics(c: Space, s: State) {
    |s.lh| >= c.logsize || |s.lh| >= c.nlog - 1
  }

  ghost function Absorb(lh: seq<nat>, b: nat): seq<nat> {
    if b in lh then lh else lh + [b]
  }

  /** The blocks logged so far by operation p. */
  ghost function Share(s: State, p: Pid): set<(Pid, nat)> {
    set x | x in s.used && x.0 == p
  }

  ghost predicate Step(c: Space, s: State, l: Label, s': State) {
    match l
    case Begin(p) =>
      && !s.committing && p !in s.ops
      && |s.lh| + (|s.ops| + 1) * c.maxop <= c.logsize
      && s' == s.(ops := s.ops + {p})
    case Test(p) => // made without log.lock, so others may run before the block is entered
      && p in s.ops && p !in s.passed && !Panics(c, s)
      && s' == s.(passed := s.passed + {p})
    case Write(p, b) =>
      && p in s.passed
      && s' == s.(lh := Absorb(s.lh, b), used := s.used + {(p, b)}, passed := s.passed - {p})
    case End(p) =>
      && p in s.ops && p !in s.passed
      && s' == s.(ops := s.ops - {p}, used := s.used - Share(s, p), committing := s.ops == {p})
    case Reset => // the commit has finished, or the machine has crashed and recovered
      s' == State([], {}, {}, {}, false)
  }

  /** Every outstanding operation has logged at most m distinct blocks. */
  ghost predicate Within(s: State, m: nat) {
    forall p :: p in s.ops ==> |Share(s, p)| <= m
  }

  ghost predicate Next(c: Space, s: State, s': State) {
    exists l :: Step(c, s, l, s')
  }

  ghost predicate Follows(c: Space, t: seq<State>, i: nat) {
    0 < i < |t| ==> Next(c, t[i - 1], t[i])
  }

  /** Every interleaving of operations that keep to m blocks each. */
  ghost predicate Run(c: Space, m: nat, t: seq<State>) {
    && |t| > 0 && Init(t[0])
    && (forall i: nat :: Follows(c, t, i))
    && (forall i :: 0 <= i < |t| ==> Within(t[i], m))
  }

  // ---- Invariants

  ghost predicate Tidy(s: State) {
    && (forall i, j :: 0 <= i < j < |s.lh| ==> s.lh[i] != s.lh[j])
    && (forall x :: x in s.used ==> x.0 in s.ops && x.1 in s.lh)
    && s.passed <= s.ops
    && (s.committing ==> s.ops == {})
    && (s.ops == {} && !s.committing ==> s.lh == [])
  }

  /** The entries in use and the reservations still open fit into bound entries. */
  ghost predicate Reserved(s: State, m: nat, bound: int) {
    |s.lh| + Times(|s.ops|, m) - |s.used| <= bound
  }

  /** What k operations of m blocks need. */
  ghost function Times(k: nat, m: nat): nat {
    if k == 0 then 0 else Times(k - 1, m) + m
  }

  lemma {:induction false} TimesIs(k: nat, m: nat)
    ensures Times(k, m) == k * m
  {
    if k > 0 {
      TimesIs(k - 1, m);
      assert (k - 1) * m == k * m - m;
    }
  }

  lemma TidyStep(c: Space, s: State, l: Label, s': State)
    requires Tidy(s) && Step(c, s, l, s')
    ensures Tidy(s')
  {}

  /** An operation that logs a new block draws on its own reservation. */
  lemma WriteReserved(c: Space, s: State, p: Pid, b: nat, s': State, m: nat, bound: int)
    requires Tidy(s) && Step(c, s, Write(p, b), s') && Reserved(s, m, bound)
    ensures Reserved(s', m, bound)
  {
    assert s'.ops == s.ops && |s'.lh| <= |s.lh| + 1;
    if (p, b) in s.used {
      assert b in s.lh;
      assert s'.used == s.used && s'.lh == s.lh;
    } else {
      assert |s'.used| == |s.used| + 1;
    }
  }

  /** An operation that ends gives back what it did not use. */
  lemma EndReserved(c: Space, s: State, p: Pid, s': State, m: nat, bound: int)
    requires Tidy(s) && Within(s, m) && Step(c, s, End(p), s') && Reserved(s, m, bound)
    ensures Reserved(s', m, bound)
  {
    DropSize(s.used, Share(s, p));
    DropSize(s.ops, {p});
  }

  /** The test in begin_op reserves maxop entries for everybody, so with m at most maxop
      there is room for all; and if m is smaller, two operations leave two entries over. */
  lemma BeginReserved(c: Space, s: State, p: Pid, s': State, m: nat)
    requires Tidy(s) && Step(c, s, Begin(p), s') && m <= c.maxop
    ensures Reserved(s', m, c.logsize)
    ensures m < c.maxop && m + 2 <= c.logsize ==> Reserved(s', m, c.logsize - 2)
  {
    var k := |s.ops| + 1;
    assert |s'.ops| == k;
    TimesIs(k, m);
    MulMono(k, m, c.maxop);
    if m < c.maxop && s.ops != {} {
      MulMono(k, m + 1, c.maxop);
      assert k * (m + 1) == k * m + k;
      assert |s.ops| >= 1;
    }
  }

  lemma MulMono(k: nat, a: nat, b: nat)
    requires a <= b
    ensures k * a <= k * b
  {}

  ghost function Bound(c: Space, m: nat): int {
    if m < c.maxop && m + 2 <= c.logsize then c.logsize - 2 else c.logsize
  }

  lemma ReservedStep(c: Space, s: State, l: Label, s': State, m: nat)
    requires Tidy(s) && Within(s, m) && Step(c, s, l, s') && m <= c.maxop
    requires 2 <= c.logsize && Reserved(s, m, Bound(c, m))
    ensures Reserved(s', m, Bound(c, m))
  {
    match l
    case Begin(p) => BeginReserved(c, s, p, s', m);
    case Test(p) =>
    case Write(p, b) => WriteReserved(c, s, p, b, s', m, Bound(c, m));
    case End(p) => EndReserved(c, s, p, s', m, Bound(c, m));
    case Reset =>
  }

  lemma {:induction false} RunReserved(c: Space, m: nat, t: seq<State>, i: nat)
    requires Run(c, m, t) && i < |t| && m <= c.maxop && 2 <= c.logsize
    ensures Tidy(t[i]) && Reserved(t[i], m, Bound(c, m))
  {
    if i > 0 {
      RunReserved(c, m, t, i - 1);
      assert Follows(c, t, i);
      var l :| Step(c, t[i - 1], l, t[i]);
      TidyStep(c, t[i - 1], l, t[i]);
      ReservedStep(c, t[i - 1], l, t[i], m);
    }
  }

  /** The pairs in used are no more than m for each outstanding operation. */
  lemma {:induction false} UsedAtMost(s: State, ops: set<Pid>, m: nat)
    requires forall p :: p in ops ==> |Share(s, p)| <= m
    requires forall x :: x in s.used ==> x.0 in ops
    ensures |s.used| <= Times(|ops|, m)
    decreases |ops|
  {
    if ops == {} {
      assert s.used == {};
    } else {
      var p :| p in ops;
      var t := s.(used := s.used - Share(s, p));
      forall q | q in ops - {p} ensures |Share(t, q)| <= m {
        assert Share(t, q) == Share(s, q);
      }
      UsedAtMost(t, ops - {p}, m);
      assert |s.used| == |t.used| + |Share(s, p)|;
      assert |ops - {p}| == |ops| - 1;
    }
  }

  // ---- Main results

  /** Over every interleaving, the header has no duplicates, and its entries plus what the
      outstanding operations may still use never exceed LOGSIZE. */
  lemma Reservation(c: Space, t: seq<State>, i: nat)
    requires Run(c, c.maxop, t) && i < |t| && 2 <= c.logsize
    ensures forall j, k :: 0 <= j < k < |t[i].lh| ==> t[i].lh[j] != t[i].lh[k]
    ensures |t[i].used| <= |t[i].ops| * c.maxop
    ensures |t[i].lh| + (|t[i].ops| * c.maxop - |t[i].used|) <= c.logsize
    ensures |t[i].lh| <= c.logsize
  {
    RunReserved(c, c.maxop, t, i);
    UsedAtMost(t[i], t[i].ops, c.maxop);
    TimesIs(|t[i].ops|, c.maxop);
  }

  /** If every operation logs fewer than MAXOPBLOCKS distinct blocks, the header never grows
      beyond LOGSIZE - 2 entries, so on an image whose log has LOGSIZE sectors the panic in
      log_write cannot be reached. */
  lemma NoPanicBelowMax(c: Space, m: nat, t: seq<State>, i: nat)
    requires Run(c, m, t) && i < |t| && m < c.maxop && m + 2 <= c.logsize
    ensures |t[i].lh| <= c.logsize - 2
    ensures c.nlog >= c.logsize ==> !Panics(c, t[i])
  {
    RunReserved(c, m, t, i);
    UsedAtMost(t[i], t[i].ops, m);
  }

  /** The constants of include/param.h and the image of fs/mkfs.c, where nlog is LOGSIZE. */
  const XV6: Space := Space(10, 30, 30)

  /** A run at whose end operation p, which may still log a block, meets the panic. */
  ghost predicate PanicRun(c: Space, m: nat, t: seq<State>, p: Pid) {
    && Run(c, m, t)
    && var s := t[|t| - 1];
       p in s.ops && p !in s.passed && |Share(s, p)| < m && Panics(c, s)
  }

  ghost predicate PanicReachable(c: Space, m: nat) {
    exists t, p :: PanicRun(c, m, t, p)
  }

  /** The state in which three operations have begun and logged blocks 0 to k - 1, ten each. */
  ghost function Filled(k: nat): State
    requires k <= 29
  {
    State(seq(k, i => i), {0, 1, 2}, set i | 0 <= i < k :: (i / 10, i), {}, false)
  }

  lemma FilledShare(k: nat, p: Pid)
    requires k <= 29
    ensures |Share(Filled(k), p)| <= 10 && (p == 2 ==> |Share(Filled(k), p)| < 10)
  {
    var some := set i: nat | 10 * p <= i < (if p == 2 then 29 else 10 * p + 10) :: (p, i);
    assert Share(Filled(k), p) <= some;
    IntervalSize(10 * p, if p == 2 then 29 else 10 * p + 10, p);
    SubsetSize(Share(Filled(k), p), some);
  }

  lemma {:induction false} IntervalSize(lo: nat, hi: nat, p: Pid)
    requires lo <= hi
    ensures |set i: nat | lo <= i < hi :: (p, i)| == hi - lo
    decreases hi - lo
  {
    if lo == hi {
      assert (set i: nat | lo <= i < hi :: (p, i)) == {};
    } else {
      IntervalSize(lo, hi - 1, p);
      assert (set i: nat | lo <= i < hi :: (p, i)) == (set i: nat | lo <= i < hi - 1 :: (p, i)) + {(p, hi - 1)};
    }
  }

  ghost function FillRun(k: nat): (t: seq<State>)
    requires k <= 29
    ensures |t| == 2 * k + 4
  {
    if k == 0 then
      [State([], {}, {}, {}, false), State([], {0}, {}, {}, false), State([], {0, 1}, {}, {}, false), Filled(0)]
    else FillRun(k - 1) + [Filled(k - 1).(passed := {(k - 1) / 10}), Filled(k)]
  }

  lemma NothingLogged(s: State)
    requires s.used == {}
    ensures Within(s, 10)
  {
    assert forall p :: Share(s, p) == {};
  }

  lemma StartRun()
    ensures Run(XV6, 10, FillRun(0)) && FillRun(0)[3] == Filled(0)
  {
    var t := FillRun(0);
    var a, b, c, d := t[0], t[1], t[2], t[3];
    assert d == State([], {0, 1, 2}, {}, {}, false);
    assert Step(XV6, a, Begin(0), b);
    assert Step(XV6, b, Begin(1), c);
    assert Step(XV6, c, Begin(2), d) by { assert {0, 1} + {2} == {0, 1, 2}; }
    NothingLogged(a);
    NothingLogged(b);
    NothingLogged(c);
    NothingLogged(d);
  }

  lemma FillOne(k: nat)
    requires 0 < k <= 29
    ensures var p, s := (k - 1) / 10, Filled(k - 1);
      && Step(XV6, s, Test(p), s.(passed := {p})) && Step(XV6, s.(passed := {p}), Write(p, k - 1), Filled(k))
  {
    var p, s, s' := (k - 1) / 10, Filled(k - 1), Filled(k);
    assert k - 1 !in s.lh;
    assert s'.lh == s.lh + [k - 1];
    assert s'.used == s.used + {(p, k - 1)};
    assert {p} - {p} == {} && {} + {p} == {p};
  }

  lemma Extended(c: Space, m: nat, t: seq<State>, s: State)
    requires Run(c, m, t) && Next(c, t[|t| - 1], s) && Within(s, m)
    ensures Run(c, m, t + [s])
  {
    var u := t + [s];
    forall i: nat ensures Follows(c, u, i) {
      if i < |t| { assert Follows(c, t, i); }
    }
  }

  lemma {:induction false} FillRunOk(k: nat)
    requires k <= 29
    ensures Run(XV6, 10, FillRun(k)) && FillRun(k)[2 * k + 3] == Filled(k)
  {
    if k == 0 {
      StartRun();
    } else {
      FillRunOk(k - 1);
      var t, s, s' := FillRun(k - 1), Filled(k - 1).(passed := {(k - 1) / 10}), Filled(k);
      FillOne(k);
      forall p ensures |Share(s', p)| <= 10 { FilledShare(k, p); }
      forall p ensures |Share(s, p)| <= 10 {
        FilledShare(k - 1, p);
        assert Share(s, p) == Share(Filled(k - 1), p);
      }
      Extended(XV6, 10, t, s);
      Extended(XV6, 10, t + [s], s');
      assert FillRun(k) == t + [s] + [s'];
    }
  }

  lemma LooserBound(c: Space, m: nat, t: seq<State>)
    requires m >= 10 && Run(c, 10, t)
    ensures Run(c, m, t)
  {
    forall i | 0 <= i < |t| ensures Within(t[i], m) { assert Within(t[i], 10); }
  }

  /** With the constants of the system, a bound of m blocks an operation keeps the panic out
      of reach exactly when m is less than MAXOPBLOCKS: three operations of ten blocks each
      are admitted together, and the last of the thirty log_writes panics. */
  lemma PanicExactly(m: nat)
    ensures PanicReachable(XV6, m) <==> m >= XV6.maxop
  {
    if m >= XV6.maxop {
      FillRunOk(29);
      FilledShare(29, 2);
      LooserBound(XV6, m, FillRun(29));
      assert PanicRun(XV6, m, FillRun(29), 2);
    } else {
      forall t, p ensures !PanicRun(XV6, m, t, p) {
        if Run(XV6, m, t) { NoPanicBelowMax(XV6, m, t, |t| - 1); }
      }
    }
  }

  // ---- The code itself

  /** struct log of kernel/log.c. log.lock is held across each method but Test, which log_write
      runs before it acquires the lock. */
  class Header {
    const c: Space
    var n: nat
    const block: array<nat>
    var outstanding: nat
    var committing: bool
    ghost var ops: set<Pid>
    ghost var used: set<(Pid, nat)>
    ghost var passed: set<Pid>

    /** The state of the log-space machine that these fields stand for. */
    ghost function Now(): State
      reads this, block
      requires n <= block.Length
    {
      State(block[..n], ops, used, passed, committing)
    }

    ghost predicate Valid()
      reads this, block
    {
      n <= block.Length == c.logsize && outstanding == |ops| && Tidy(Now())
    }

    /** initlog, with nothing to recover. */
    constructor (c: Space)
      ensures Valid() && Init(Now()) && this.c == c && fresh(block)
    {
      this.c := c;
      n, outstanding, committing := 0, 0, false;
      block := new nat[c.logsize];
      ops, used, passed := {}, {}, {};
    }

    /** One pass of the loop in begin_op: admitted exactly when the machine can admit p. */
    method TryBegin(ghost p: Pid) returns (admitted: bool)
      requires Valid() && p !in ops
      modifies this`outstanding, this`ops
      ensures Valid()
      ensures admitted ==> Step(c, old(Now()), Begin(p), Now())
      ensures !admitted ==> Now() == old(Now()) && !exists s' :: Step(c, old(Now()), Begin(p), s')
    {
      if committing {
        admitted := false;
      } else if n + (outstanding + 1) * c.maxop > c.logsize {
        admitted := false;
      } else {
        outstanding := outstanding + 1;
        ops := ops + {p};
        admitted := true;
      }
    }

    /** The tests at the head of log_write: for an operation, they panic exactly when the machine
        cannot go on, and without any operation they always do. */
    method Test(ghost p: Pid) returns (panic: bool)
      requires Valid() && p !in passed
      modifies this`passed
      ensures Valid() && (ops == {} ==> panic)
      ensures !panic && p in ops ==> Step(c, old(Now()), Label.Test(p), Now())
      ensures panic && p in ops ==> !exists s' :: Step(c, old(Now()), Label.Test(p), s')
      ensures panic || p !in ops ==> Now() == old(Now())
    {
      if n >= c.logsize || n >= c.nlog - 1 {
        return true;
      }
      if outstanding < 1 {
        return true;
      }
      if p in ops {
        passed := passed + {p};
      }
      return false;
    }

    /** The rest of log_write: the search loop lists the block once. */
    method Append(ghost p: Pid, b: nat)
      requires Valid() && p in passed && (b in block[..n] || n < c.logsize)
      modifies this`n, this`used, this`passed, block
      ensures Valid() && Step(c, old(Now()), Label.Write(p, b), Now())
    {
      ghost var s := Now();
      var i := 0;
      while i < n && block[i] != b
        invariant 0 <= i <= n
        invariant forall j :: 0 <= j < i ==> block[j] != b
      {
        i := i + 1;
      }
      ghost var was := block[..n];
      block[i] := b;
      if i == n {
        n := n + 1;
        assert block[..n] == was + [b];
      } else {
        assert was[i] == b;
        assert block[..n] == was;
      }
      used, passed := used + {(p, b)}, passed - {p};
      assert Step(c, s, Label.Write(p, b), Now());
      TidyStep(c, s, Label.Write(p, b), Now());
    }

    /** end_op up to the commit decision: the last operation to end starts the commit, and no
        operation ends while a commit is running. */
    method EndOp(ghost p: Pid) returns (doCommit: bool)
      requires Valid() && p in ops && p !in passed
      modifies this`outstanding, this`committing, this`ops, this`used
      ensures Valid() && !old(committing) && Step(c, old(Now()), End(p), Now())
      ensures doCommit <==> Now().committing
    {
      ghost var s := Now();
      DropSize(ops, {p});
      outstanding := outstanding - 1;
      doCommit := outstanding == 0;
      if doCommit {
        committing := true;
      }
      used, ops := used - Share(s, p), ops - {p};
      assert doCommit <==> s.ops == {p};
      assert Step(c, s, End(p), Now());
      TidyStep(c, s, End(p), Now());
    }
  }

  /** While operations keep to MAXOPBLOCKS blocks, log_write never runs over the array of block
      numbers, whatever has happened between its test and its lock. */
  lemma AppendFits(c: Space, t: seq<State>, i: nat, p: Pid, b: nat)
    requires Run(c, c.maxop, t) && i + 1 < |t| && 2 <= c.logsize && Step(c, t[i], Write(p, b), t[i + 1])
    ensures b in t[i].lh || |t[i].lh| < c.logsize
  {
    Reservation(c, t, i + 1);
  }
}
