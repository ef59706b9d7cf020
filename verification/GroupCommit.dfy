/** The log, the buffer cache and the disk as one concurrent state machine: any number of
    processes between begin_op and end_op, buffers with reference counts, sleep-locks and
    recycling, one sector write per commit step, and crashes at any point, also during
    recovery. The history of operations is kept beside the machine to state what a
    recovered disk must mean. */
module GroupCommit {
  import opened Basics
  import opened LogDisk
  import opened Options

  /** maxop and logsize are MAXOPBLOCKS and LOGSIZE; base is the disk image at first boot. */
  datatype Config = Config(g: Geometry, maxop: nat, logsize: nat, base: Disk)

  /** A buffer of kernel/bio.c. touched: the holder has changed data and not yet logged it. */
  datatype Buf = Buf(data: Sector, valid: bool, dirty: bool, refs: nat, holder: Option<Pid>, touched: bool)

  datatype Phase =
    | Boot
    | Running
    | Appending(i: nat)
    | Installing(i: nat, boot: bool)

  datatype Event = Begin(p: Pid) | Write(p: Pid, b: nat, data: Sector) | End(p: Pid)

  /** passed: the processes that have passed the test at the head of log_write, which is made
      without log.lock, and the block each is about to enter. hist is the history of events; its
      first durable events are committed. view and saved are the home blocks after the whole
      history and after the committed part. */
  datatype State = State(
    disk: Disk, cache: map<nat, Buf>, lh: seq<nat>, ops: set<Pid>, passed: map<Pid, nat>, phase: Phase,
    hist: seq<Event>, durable: nat, view: Disk, saved: Disk)

  // ---- What a history means

  ghost function Apply(d: Disk, e: Event): (r: Disk)
    ensures |r| == |d|
  {
    if e.Write? && e.b < |d| then d[e.b := e.data] else d
  }

  ghost function Effect(base: Disk, h: seq<Event>): (d: Disk)
    ensures |d| == |base|
  {
    if h == [] then base else Apply(Effect(base, h[..|h| - 1]), h[|h| - 1])
  }

  /** The operations that a history leaves unfinished. */
  ghost function Open(h: seq<Event>): set<Pid> {
    if h == [] then {}
    else
      var open := Open(h[..|h| - 1]);
      match h[|h| - 1]
      case Begin(p) => open + {p}
      case Write(_, _, _) => open
      case End(p) => open - {p}
  }

  // ---- Steps

  datatype Label =
    | BeginOp(p: Pid)
    | Hit(b: nat)
    | Recycle(b: nat, victim: Option<nat>)
    | Lock(p: Pid, b: nat)
    | Fill(p: Pid, b: nat)
    | Modify(p: Pid, b: nat, data: Sector)
    | LogTest(p: Pid, b: nat)
    | LogWrite(p: Pid, b: nat)
    | Release(p: Pid, b: nat)
    | EndOp(p: Pid)
    | AppendBlock
    | CommitHead
    | InstallBlock
    | ClearHead
    | ReadHead
    | Crash

  ghost predicate Init(c: Config, s: State) {
    && 0 < c.g.nlog && HasHeader(c.g, c.base) && HeadNums(c.g, c.base) == []
    && |c.base[c.g.start].block| == c.logsize
    && s == State(c.base, map[], [], {}, map[], Boot, [], 0, c.base, c.base)
  }

  /** Processes run once recovery is over. */
  ghost predicate Up(s: State) {
    s.phase != Boot && !(s.phase.Installing? && s.phase.boot)
  }

  ghost predicate Holds(s: State, p: Pid, b: nat) {
    b in s.cache && s.cache[b].holder == Some(p)
  }

  ghost predicate Free(s: State, b: nat) {
    b in s.cache ==> s.cache[b].holder == None
  }

  /** bread as the commit code uses it: the buffer if it is valid, else the disk. */
  ghost function Bread(s: State, b: nat): Sector
    requires b < |s.disk|
  {
    if b in s.cache && s.cache[b].valid then s.cache[b].data else s.disk[b]
  }

  /** bwrite followed by brelse: the sector and the buffer agree and the buffer is clean. */
  ghost function Bwrite(s: State, b: nat, data: Sector): State
    requires b < |s.disk|
  {
    var refs := if b in s.cache then s.cache[b].refs else 0;
    s.(disk := s.disk[b := data], cache := s.cache[b := Buf(data, true, false, refs, None, false)])
  }

  ghost function SetBuf(s: State, b: nat, buf: Buf): State {
    s.(cache := s.cache[b := buf])
  }

  ghost function Logged(s: State, e: Event): State {
    s.(hist := s.hist + [e])
  }

  ghost predicate BeginOpStep(c: Config, s: State, p: Pid, s': State) {
    && s.phase == Running && p !in s.ops
    && |s.lh| + (|s.ops| + 1) * c.maxop <= c.logsize
    && s' == Logged(s, Begin(p)).(ops := s.ops + {p})
  }

  ghost predicate HitStep(s: State, b: nat, s': State) {
    Up(s) && b in s.cache && s' == SetBuf(s, b, s.cache[b].(refs := s.cache[b].refs + 1))
  }

  /** bget on a miss: an unreferenced clean buffer, or one never used, takes over block b. */
  ghost predicate RecycleStep(s: State, b: nat, victim: Option<nat>, s': State) {
    && Up(s) && b !in s.cache && b < |s.disk|
    && match victim
       case None =>
         exists junk :: s' == SetBuf(s, b, Buf(junk, false, false, 1, None, false))
       case Some(v) =>
         && v in s.cache && s.cache[v].refs == 0 && !s.cache[v].dirty
         && s' == s.(cache := (s.cache - {v})[b := Buf(s.cache[v].data, false, false, 1, None, false)])
  }

  ghost predicate LockStep(s: State, p: Pid, b: nat, s': State) {
    && Up(s) && p !in s.passed && b in s.cache && s.cache[b].refs > 0 && s.cache[b].holder == None
    && s' == SetBuf(s, b, s.cache[b].(holder := Some(p)))
  }

  ghost predicate FillStep(s: State, p: Pid, b: nat, s': State) {
    && Up(s) && p !in s.passed && Holds(s, p, b) && !s.cache[b].valid && b < |s.disk|
    && s' == SetBuf(s, b, s.cache[b].(data := s.disk[b], valid := true))
  }

  ghost predicate ModifyStep(c: Config, s: State, p: Pid, b: nat, data: Sector, s': State) {
    && p in s.ops && p !in s.passed && Holds(s, p, b) && s.cache[b].valid && Home(c.g, b)
    && s' == SetBuf(s, b, s.cache[b].(data := data, touched := true))
  }

  /** The part of log_write before it acquires log.lock. */
  ghost predicate LogTestStep(c: Config, s: State, p: Pid, b: nat, s': State) {
    && p in s.ops && p !in s.passed && Holds(s, p, b) && s.cache[b].valid && Home(c.g, b) && b < |s.view|
    && |s.lh| < c.logsize && |s.lh| < c.g.nlog - 1
    && s' == s.(passed := s.passed[p := b])
  }

  /** The part with log.lock held. Until then p has done nothing else and holds its buffer, but
      others may have made the header longer. */
  ghost predicate LogWriteStep(c: Config, s: State, p: Pid, b: nat, s': State) {
    && p in s.passed && s.passed[p] == b
    && p in s.ops && Holds(s, p, b) && s.cache[b].valid && Home(c.g, b) && b < |s.view|
    && s' == Logged(SetBuf(s, b, s.cache[b].(dirty := true, touched := false)), Write(p, b, s.cache[b].data))
             .(lh := if b in s.lh then s.lh else s.lh + [b], view := s.view[b := s.cache[b].data],
               passed := s.passed - {p})
  }

  ghost predicate ReleaseStep(s: State, p: Pid, b: nat, s': State) {
    && Up(s) && p !in s.passed && Holds(s, p, b) && !s.cache[b].touched && s.cache[b].refs > 0
    && s' == SetBuf(s, b, s.cache[b].(refs := s.cache[b].refs - 1, holder := None))
  }

  /** The last end_op starts the commit, which does nothing when nothing was logged. */
  ghost predicate EndOpStep(s: State, p: Pid, s': State) {
    && p in s.ops && p !in s.passed && (forall b :: b in s.cache ==> s.cache[b].holder != Some(p))
    && var t := Logged(s, End(p)).(ops := s.ops - {p});
       if s.ops != {p} then s' == t
       else if s.lh == [] then s' == t.(durable := |t.hist|, saved := s.view)
       else s' == t.(phase := Appending(0))
  }

  ghost predicate AppendBlockStep(c: Config, s: State, s': State) {
    && s.phase.Appending? && s.phase.i < |s.lh| && s.lh[s.phase.i] < |s.disk|
    && var to := c.g.start + 1 + s.phase.i;
       && to < |s.disk| && Free(s, to) && Free(s, s.lh[s.phase.i])
       && s' == Bwrite(s, to, Bread(s, s.lh[s.phase.i])).(phase := Appending(s.phase.i + 1))
  }

  /** write_head with a full header: the transaction commits. */
  ghost predicate CommitHeadStep(c: Config, s: State, s': State) {
    && s.phase == Appending(|s.lh|) && c.g.start < |s.disk| && Free(s, c.g.start)
    && var h := Bread(s, c.g.start);
       && h.Head? && |s.lh| <= |h.block|
       && s' == Bwrite(s, c.g.start, HeadWith(h, s.lh))
                .(phase := Installing(0, false), durable := |s.hist|, saved := s.view)
  }

  ghost predicate InstallBlockStep(c: Config, s: State, s': State) {
    && s.phase.Installing? && s.phase.i < |s.lh| && s.lh[s.phase.i] < |s.disk|
    && var from := c.g.start + 1 + s.phase.i;
       && from < |s.disk| && Free(s, from) && Free(s, s.lh[s.phase.i])
       && s' == Bwrite(s, s.lh[s.phase.i], Bread(s, from)).(phase := Installing(s.phase.i + 1, s.phase.boot))
  }

  ghost predicate ClearHeadStep(c: Config, s: State, s': State) {
    && s.phase.Installing? && s.phase.i == |s.lh| && c.g.start < |s.disk| && Free(s, c.g.start)
    && var h := Bread(s, c.g.start);
       && h.Head?
       && s' == Bwrite(s, c.g.start, HeadWith(h, [])).(lh := [], phase := Running)
  }

  ghost predicate ReadHeadStep(c: Config, s: State, s': State) {
    && s.phase == Boot && HasHeader(c.g, s.disk)
    && s' == s.(lh := HeadNums(c.g, s.disk), phase := Installing(0, true))
  }

  /** Memory is lost, and with it every operation that is not committed. */
  ghost predicate CrashStep(s: State, s': State) {
    && s.durable <= |s.hist|
    && s' == State(s.disk, map[], [], {}, map[], Boot, s.hist[..s.durable], s.durable, s.saved, s.saved)
  }

  ghost predicate Step(c: Config, s: State, l: Label, s': State) {
    match l
    case BeginOp(p) => BeginOpStep(c, s, p, s')
    case Hit(b) => HitStep(s, b, s')
    case Recycle(b, v) => RecycleStep(s, b, v, s')
    case Lock(p, b) => LockStep(s, p, b, s')
    case Fill(p, b) => FillStep(s, p, b, s')
    case Modify(p, b, data) => ModifyStep(c, s, p, b, data, s')
    case LogTest(p, b) => LogTestStep(c, s, p, b, s')
    case LogWrite(p, b) => LogWriteStep(c, s, p, b, s')
    case Release(p, b) => ReleaseStep(s, p, b, s')
    case EndOp(p) => EndOpStep(s, p, s')
    case AppendBlock => AppendBlockStep(c, s, s')
    case CommitHead => CommitHeadStep(c, s, s')
    case InstallBlock => InstallBlockStep(c, s, s')
    case ClearHead => ClearHeadStep(c, s, s')
    case ReadHead => ReadHeadStep(c, s, s')
    case Crash => CrashStep(s, s')
  }

  ghost predicate Next(c: Config, s: State, s': State) {
    exists l :: Step(c, s, l, s')
  }

  /** Every interleaving: a sequence of states from Init, each step taken by any process,
      the committer, recovery or a crash. */
  ghost predicate Run(c: Config, t: seq<State>) {
    && |t| > 0 && Init(c, t[0])
    && forall i: nat :: Follows(c, t, i)
  }

  ghost predicate Follows(c: Config, t: seq<State>, i: nat) {
    0 < i < |t| ==> Next(c, t[i - 1], t[i])
  }

  // ---- Invariants

  /** The entries of lh before this one have reached their home blocks. */
  ghost function Done(s: State): nat {
    if s.phase.Installing? then s.phase.i else 0
  }

  ghost predicate Pending(s: State, b: nat) {
    exists j :: Done(s) <= j < |s.lh| && s.lh[j] == b
  }

  /** The header and the log have room for the blocks listed. */
  ghost predicate Room(c: Config, s: State) {
    |s.lh| <= c.logsize && |s.lh| < c.g.nlog
  }

  /** What a process about to enter a block still has: it has done nothing since the test. */
  ghost predicate PassedOk(c: Config, s: State, p: Pid) {
    p in s.passed ==>
      var b := s.passed[p];
      p in s.ops && Holds(s, p, b) && s.cache[b].valid && Home(c.g, b) && b < |s.view|
  }

  ghost predicate Shape(c: Config, s: State) {
    && HasHeader(c.g, s.disk) && |s.disk[c.g.start].block| == c.logsize
    && |s.view| == |s.disk| && |s.saved| == |s.disk| && |c.base| == |s.disk|
    && Loggable(c.g, |s.disk|, s.lh) && |s.lh| <= c.logsize
    && (s.phase.Appending? || s.phase.Installing? ==> s.phase.i <= |s.lh|)
    && (s.phase == Boot ==> s.lh == [] && s.cache == map[])
    && (s.phase != Running ==> s.ops == {})
  }

  /** The newest contents of a block: for a home block, what was last logged. */
  ghost function Latest(c: Config, s: State, b: nat): Sector
    requires b < |s.disk| == |s.view|
  {
    if Home(c.g, b) then s.view[b] else s.disk[b]
  }

  ghost predicate BufOk(c: Config, s: State, b: nat)
    requires b in s.cache && |s.disk| == |s.view|
  {
    var buf := s.cache[b];
    && b < |s.disk|
    && (buf.holder.Some? ==> buf.refs > 0 && Up(s))
    && (buf.touched ==> buf.valid && buf.holder.Some? && buf.holder.value in s.ops && Home(c.g, b))
    && (buf.valid && !buf.touched ==> buf.data == Latest(c, s, b))
    && (buf.dirty ==> Up(s) && Pending(s, b) && buf.valid)
  }

  ghost predicate CacheInv(c: Config, s: State)
    requires |s.disk| == |s.view|
  {
    && (forall b :: b in s.cache ==> BufOk(c, s, b))
    && (Up(s) ==> forall j :: Done(s) <= j < |s.lh| ==> s.lh[j] in s.cache && s.cache[s.lh[j]].dirty)
  }

  /** Outside the pending entries the disk is up to date, and the header tells the truth. */
  ghost predicate DiskInv(c: Config, s: State)
    requires Shape(c, s)
  {
    && (s.phase != Boot ==>
          forall b :: 0 <= b < |s.disk| && Home(c.g, b) && !Pending(s, b) ==> s.disk[b] == s.view[b])
    && (s.phase == Running || s.phase.Appending? ==>
          HeadNums(c.g, s.disk) == [] && SameHome(c.g, s.saved, s.disk))
    && (s.phase.Appending? ==>
          forall j :: 0 <= j < s.phase.i ==> s.disk[c.g.start + 1 + j] == s.view[s.lh[j]])
    && (s.phase.Installing? ==>
          && HeadNums(c.g, s.disk) == s.lh
          && s.view == s.saved
          && forall j :: 0 <= j < |s.lh| ==> s.disk[c.g.start + 1 + j] == s.view[s.lh[j]])
    && (s.phase == Boot ==>
          Sound(c.g, s.disk) && s.view == s.saved && Worth(c.g, s.disk, s.saved))
  }

  ghost predicate HistInv(c: Config, s: State) {
    && s.durable <= |s.hist|
    && s.view == Effect(c.base, s.hist)
    && s.saved == Effect(c.base, s.hist[..s.durable])
    && s.ops == Open(s.hist)
    && Open(s.hist[..s.durable]) == {}
    && (s.phase == Boot || s.phase.Installing? ==> s.durable == |s.hist|)
    && (s.phase == Running && s.ops == {} ==> s.durable == |s.hist|)
    && (s.phase.Appending? ==> s.ops == {})
  }

  ghost predicate Inv(c: Config, s: State) {
    Shape(c, s) && CacheInv(c, s) && DiskInv(c, s) && HistInv(c, s)
  }

  lemma HistSnoc(base: Disk, h: seq<Event>, e: Event)
    ensures Effect(base, h + [e]) == Apply(Effect(base, h), e)
    ensures e.Begin? ==> Open(h + [e]) == Open(h) + {e.p}
    ensures e.Write? ==> Open(h + [e]) == Open(h)
    ensures e.End? ==> Open(h + [e]) == Open(h) - {e.p}
    ensures forall k :: 0 <= k <= |h| ==> (h + [e])[..k] == h[..k]
  {
    assert (h + [e])[..|h|] == h;
  }

  lemma InitInv(c: Config, s: State)
    requires Init(c, s)
    ensures Inv(c, s)
  {}

  /** Steps that only touch the cache. */
  lemma CacheOnly(c: Config, s: State, s': State)
    requires Inv(c, s) && s.phase != Boot && s' == s.(cache := s'.cache) && CacheInv(c, s')
    ensures Inv(c, s')
  {
    forall b ensures Pending(s', b) == Pending(s, b) {}
  }

  /** A step that rewrites one buffer in place, without touching its flags dirty and valid. */
  lemma BufStepInv(c: Config, s: State, b: nat, buf: Buf, s': State)
    requires Inv(c, s) && Up(s) && b in s.cache && s' == SetBuf(s, b, buf)
    requires buf.dirty == s.cache[b].dirty && BufOk(c, s', b)
    ensures Inv(c, s')
  {
    forall x | x in s'.cache ensures BufOk(c, s', x) {
      if x != b {
        assert BufOk(c, s, x);
        assert Pending(s', x) == Pending(s, x);
      }
    }
    CacheOnly(c, s, s');
  }

  lemma HitInv(c: Config, s: State, b: nat, s': State)
    requires Inv(c, s) && HitStep(s, b, s')
    ensures Inv(c, s')
  {
    assert BufOk(c, s, b);
    assert Pending(s', b) == Pending(s, b);
    BufStepInv(c, s, b, s'.cache[b], s');
  }

  lemma LockInv(c: Config, s: State, p: Pid, b: nat, s': State)
    requires Inv(c, s) && LockStep(s, p, b, s')
    ensures Inv(c, s')
  {
    assert BufOk(c, s, b);
    assert Pending(s', b) == Pending(s, b);
    BufStepInv(c, s, b, s'.cache[b], s');
  }

  /** The block read from disk is the newest one: a pending block is never invalid. */
  lemma FillInv(c: Config, s: State, p: Pid, b: nat, s': State)
    requires Inv(c, s) && FillStep(s, p, b, s')
    ensures Inv(c, s')
  {
    assert BufOk(c, s, b);
    assert !Pending(s, b);
    assert Pending(s', b) == Pending(s, b);
    BufStepInv(c, s, b, s'.cache[b], s');
  }

  lemma ModifyInv(c: Config, s: State, p: Pid, b: nat, data: Sector, s': State)
    requires Inv(c, s) && ModifyStep(c, s, p, b, data, s')
    ensures Inv(c, s')
  {
    assert BufOk(c, s, b);
    assert Pending(s', b) == Pending(s, b);
    BufStepInv(c, s, b, s'.cache[b], s');
  }

  lemma ReleaseInv(c: Config, s: State, p: Pid, b: nat, s': State)
    requires Inv(c, s) && ReleaseStep(s, p, b, s')
    ensures Inv(c, s')
  {
    assert BufOk(c, s, b);
    assert Pending(s', b) == Pending(s, b);
    BufStepInv(c, s, b, s'.cache[b], s');
  }

  lemma RecycleInv(c: Config, s: State, b: nat, victim: Option<nat>, s': State)
    requires Inv(c, s) && RecycleStep(s, b, victim, s')
    ensures Inv(c, s')
  {
    forall x | x in s'.cache ensures BufOk(c, s', x) {
      if x != b {
        assert BufOk(c, s, x);
        assert Pending(s', x) == Pending(s, x);
      }
    }
    forall j | Done(s') <= j < |s'.lh| ensures s'.lh[j] in s'.cache && s'.cache[s'.lh[j]].dirty {}
    CacheOnly(c, s, s');
  }

  lemma BeginOpInv(c: Config, s: State, p: Pid, s': State)
    requires Inv(c, s) && BeginOpStep(c, s, p, s')
    ensures Inv(c, s')
  {
    HistSnoc(c.base, s.hist, Begin(p));
    forall b ensures Pending(s', b) == Pending(s, b) {}
    forall b | b in s'.cache ensures BufOk(c, s', b) {
      assert BufOk(c, s, b);
    }
  }

  lemma LogTestInv(c: Config, s: State, p: Pid, b: nat, s': State)
    requires Inv(c, s) && LogTestStep(c, s, p, b, s')
    ensures Inv(c, s')
  {
    forall x ensures Pending(s', x) == Pending(s, x) {}
    forall x | x in s'.cache ensures BufOk(c, s', x) {
      assert BufOk(c, s, x);
    }
  }

  /** Logging a block makes it pending, whether it was absorbed or appended. */
  lemma LogWritePending(c: Config, s: State, p: Pid, b: nat, s': State)
    requires Shape(c, s) && LogWriteStep(c, s, p, b, s') && Room(c, s')
    ensures s.phase == Running && Up(s') && Done(s) == 0 && Done(s') == 0
    ensures forall x :: Pending(s', x) <==> Pending(s, x) || x == b
    ensures Loggable(c.g, |s.disk|, s'.lh)
    ensures forall j :: 0 <= j < |s'.lh| ==> s'.lh[j] == b || (j < |s.lh| && s'.lh[j] == s.lh[j])
  {
    assert s.ops != {};
    if b in s.lh {
      assert s'.lh == s.lh;
      assert Pending(s, b);
    } else {
      assert s'.lh[|s.lh|] == b;
      forall x | Pending(s, x) ensures Pending(s', x) {
        var j :| Done(s) <= j < |s.lh| && s.lh[j] == x;
        assert s'.lh[j] == x;
      }
    }
  }

  lemma LogWriteInv(c: Config, s: State, p: Pid, b: nat, s': State)
    requires Inv(c, s) && LogWriteStep(c, s, p, b, s') && Room(c, s')
    ensures Inv(c, s')
  {
    LogWritePending(c, s, p, b, s');
    HistSnoc(c.base, s.hist, Write(p, b, s.cache[b].data));
    assert BufOk(c, s, b);
    forall x | x in s'.cache ensures BufOk(c, s', x) {
      if x != b { assert BufOk(c, s, x); }
    }
    forall j | Done(s') <= j < |s'.lh| ensures s'.lh[j] in s'.cache && s'.cache[s'.lh[j]].dirty {
      if s'.lh[j] != b { assert s.lh[j] in s.cache && s.cache[s.lh[j]].dirty; }
    }
    assert DiskInv(c, s');
  }

  lemma EndOpInv(c: Config, s: State, p: Pid, s': State)
    requires Inv(c, s) && EndOpStep(s, p, s')
    ensures Inv(c, s')
  {
    assert s.phase == Running;
    HistSnoc(c.base, s.hist, End(p));
    forall b ensures Pending(s', b) == Pending(s, b) {}
    forall b | b in s'.cache ensures BufOk(c, s', b) {
      assert BufOk(c, s, b);
    }
    assert s'.hist[..|s'.hist|] == s'.hist;
    if s.ops == {p} && s.lh == [] {
      forall b | 0 <= b < |s.disk| && Home(c.g, b) ensures s'.saved[b] == s'.disk[b] {
        assert !Pending(s, b);
      }
    }
  }

  /** write_log copies exactly what was logged, because the buffer is pinned and unlocked. */
  lemma AppendBlockInv(c: Config, s: State, s': State)
    requires Inv(c, s) && AppendBlockStep(c, s, s')
    ensures Inv(c, s')
  {
    var i := s.phase.i;
    var to, b := c.g.start + 1 + i, s.lh[i];
    assert BufOk(c, s, b);
    assert Bread(s, b) == s.view[b];
    forall x ensures Pending(s', x) == Pending(s, x) {}
    BwriteLogCache(c, s, to, s.view[b], s');
    AppendBlockDisk(c, s, s');
  }

  lemma AppendBlockDisk(c: Config, s: State, s': State)
    requires Shape(c, s) && DiskInv(c, s) && AppendBlockStep(c, s, s')
    requires Bread(s, s.lh[s.phase.i]) == s.view[s.lh[s.phase.i]]
    ensures Shape(c, s') && DiskInv(c, s')
  {
    forall x ensures Pending(s', x) == Pending(s, x) {}
    assert HeadNums(c.g, s'.disk) == HeadNums(c.g, s.disk);
  }

  /** Writing a sector of the log area through the cache keeps the cache invariant. */
  lemma BwriteLogCache(c: Config, s: State, to: nat, data: Sector, s': State)
    requires Inv(c, s) && to < |s.disk| && !Home(c.g, to)
    requires s'.cache == Bwrite(s, to, data).cache && s'.disk == Bwrite(s, to, data).disk
    requires s'.view == s.view && s'.lh == s.lh && s'.ops == s.ops
    requires Up(s) == Up(s') && Done(s) == Done(s')
    ensures CacheInv(c, s')
  {
    forall x ensures Pending(s', x) == Pending(s, x) {}
    forall x | x in s'.cache ensures BufOk(c, s', x) {
      if x != to { assert BufOk(c, s, x); }
    }
  }

  lemma CommitHeadDisk(c: Config, s: State, s': State)
    requires Shape(c, s) && DiskInv(c, s) && CommitHeadStep(c, s, s') && Bread(s, c.g.start) == s.disk[c.g.start]
    ensures Shape(c, s') && DiskInv(c, s')
  {
    assert s'.disk == SetHead(c.g, s.disk, s.lh);
    forall x ensures Pending(s', x) == Pending(s, x) {}
  }

  lemma CommitHeadInv(c: Config, s: State, s': State)
    requires Inv(c, s) && CommitHeadStep(c, s, s')
    ensures Inv(c, s')
  {
    if c.g.start in s.cache { assert BufOk(c, s, c.g.start); }
    CommitHeadDisk(c, s, s');
    BwriteLogCache(c, s, c.g.start, s'.disk[c.g.start], s');
    assert s.hist[..|s.hist|] == s.hist;
  }

  lemma InstallPending(c: Config, s: State, s': State)
    requires Inv(c, s) && InstallBlockStep(c, s, s')
    ensures forall x :: Pending(s', x) <==> Pending(s, x) && x != s.lh[s.phase.i]
  {
    forall x | Pending(s, x) && x != s.lh[s.phase.i] ensures Pending(s', x) {
      var j :| Done(s) <= j < |s.lh| && s.lh[j] == x;
      assert Done(s') <= j;
    }
  }

  lemma InstallBlockShape(c: Config, s: State, s': State)
    requires Shape(c, s) && InstallBlockStep(c, s, s')
    ensures Shape(c, s') && HeadNums(c.g, s'.disk) == HeadNums(c.g, s.disk)
  {}

  lemma InstallBlockDisk(c: Config, s: State, s': State)
    requires Shape(c, s) && DiskInv(c, s) && InstallBlockStep(c, s, s') && Shape(c, s')
    requires HeadNums(c.g, s'.disk) == HeadNums(c.g, s.disk)
    requires Bread(s, c.g.start + 1 + s.phase.i) == s.view[s.lh[s.phase.i]]
    requires forall x :: Pending(s', x) <==> Pending(s, x) && x != s.lh[s.phase.i]
    ensures DiskInv(c, s')
  {}

  lemma InstallBlockCache(c: Config, s: State, s': State)
    requires Shape(c, s) && CacheInv(c, s) && InstallBlockStep(c, s, s') && |s'.disk| == |s'.view|
    requires Bread(s, c.g.start + 1 + s.phase.i) == s.view[s.lh[s.phase.i]]
    requires forall x :: Pending(s', x) <==> Pending(s, x) && x != s.lh[s.phase.i]
    ensures CacheInv(c, s')
  {
    forall x | x in s'.cache ensures BufOk(c, s', x) {
      if x != s.lh[s.phase.i] { assert BufOk(c, s, x); }
    }
  }

  lemma InstallBlockInv(c: Config, s: State, s': State)
    requires Inv(c, s) && InstallBlockStep(c, s, s')
    ensures Inv(c, s')
  {
    var from := c.g.start + 1 + s.phase.i;
    assert Bread(s, from) == s.view[s.lh[s.phase.i]] by {
      if from in s.cache { assert BufOk(c, s, from); }
    }
    InstallBlockShape(c, s, s');
    assert DiskInv(c, s') by {
      InstallPending(c, s, s');
      InstallBlockDisk(c, s, s');
    }
    assert CacheInv(c, s') by {
      InstallPending(c, s, s');
      InstallBlockCache(c, s, s');
    }
  }

  lemma ClearHeadInv(c: Config, s: State, s': State)
    requires Inv(c, s) && ClearHeadStep(c, s, s')
    ensures Inv(c, s')
  {
    if c.g.start in s.cache { assert BufOk(c, s, c.g.start); }
    assert s'.disk == SetHead(c.g, s.disk, []);
    forall x ensures !Pending(s, x) && !Pending(s', x) {}
    forall x | x in s'.cache ensures BufOk(c, s', x) {
      if x != c.g.start { assert BufOk(c, s, x); }
    }
  }

  lemma ReadHeadDisk(c: Config, s: State, s': State)
    requires Shape(c, s) && DiskInv(c, s) && ReadHeadStep(c, s, s')
    requires forall b: nat :: b in s'.lh ==> Pending(s', b)
    ensures Shape(c, s') && DiskInv(c, s')
  {}

  lemma ReadHeadInv(c: Config, s: State, s': State)
    requires Inv(c, s) && ReadHeadStep(c, s, s')
    ensures Inv(c, s')
  {
    forall b: nat | b in s'.lh ensures Pending(s', b) {
      var j :| 0 <= j < |s'.lh| && s'.lh[j] == b;
      assert Done(s') <= j;
    }
    ReadHeadDisk(c, s, s');
  }

  /** In every state the disk is worth the committed part of the history. */
  lemma WorthSaved(c: Config, s: State)
    requires Inv(c, s)
    ensures Sound(c.g, s.disk) && Worth(c.g, s.disk, s.saved)
  {
    if s.phase.Installing? {
      forall b | 0 <= b < |s.disk| && Home(c.g, b) && b !in s.lh ensures s.saved[b] == s.disk[b] {
        assert !Pending(s, b);
      }
    }
  }

  lemma CrashInv(c: Config, s: State, s': State)
    requires Inv(c, s) && CrashStep(s, s')
    ensures Inv(c, s')
  {
    WorthSaved(c, s);
    assert s'.hist[..s'.durable] == s'.hist;
  }

  /** Every step keeps the invariant, as long as a block that is entered finds room: the test in
      log_write does not see to that, because it is made without the lock. */
  lemma StepInv(c: Config, s: State, l: Label, s': State)
    requires Inv(c, s) && Step(c, s, l, s') && (l.LogWrite? ==> Room(c, s'))
    ensures Inv(c, s')
  {
    match l
    case BeginOp(p) => BeginOpInv(c, s, p, s');
    case Hit(b) => HitInv(c, s, b, s');
    case Recycle(b, v) => RecycleInv(c, s, b, v, s');
    case Lock(p, b) => LockInv(c, s, p, b, s');
    case Fill(p, b) => FillInv(c, s, p, b, s');
    case Modify(p, b, data) => ModifyInv(c, s, p, b, data, s');
    case LogTest(p, b) => LogTestInv(c, s, p, b, s');
    case LogWrite(p, b) => LogWriteInv(c, s, p, b, s');
    case Release(p, b) => ReleaseInv(c, s, p, b, s');
    case EndOp(p) => EndOpInv(c, s, p, s');
    case AppendBlock => AppendBlockInv(c, s, s');
    case CommitHead => CommitHeadInv(c, s, s');
    case InstallBlock => InstallBlockInv(c, s, s');
    case ClearHead => ClearHeadInv(c, s, s');
    case ReadHead => ReadHeadInv(c, s, s');
    case Crash => CrashInv(c, s, s');
  }

  ghost predicate PassedInv(c: Config, s: State) {
    forall p :: PassedOk(c, s, p)
  }

  lemma PassedOne(c: Config, s: State, l: Label, s': State, p: Pid)
    requires Step(c, s, l, s') && PassedOk(c, s, p) && (s.phase != Running ==> s.ops == {})
    requires p in s.passed ==> s.cache[s.passed[p]].refs > 0
    ensures PassedOk(c, s', p)
  {}

  /** A process that has passed the test can always go on: nothing that others do, short of a
      crash, takes from it what entering the block needs. */
  lemma PassedStep(c: Config, s: State, l: Label, s': State)
    requires Inv(c, s) && Step(c, s, l, s') && PassedInv(c, s)
    ensures PassedInv(c, s')
  {
    forall p ensures PassedOk(c, s', p) {
      assert PassedOk(c, s, p);
      if p in s.passed { assert BufOk(c, s, s.passed[p]); }
      PassedOne(c, s, l, s', p);
    }
  }
}
