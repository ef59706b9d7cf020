/** The log-space results carried over to the full machine of log, cache and disk. */
module LogReservation {
  import opened Basics
  import opened GroupCommit
  import LogSpace

  /** The blocks that each unfinished operation of a history has logged. */
  ghost function UsedOf(h: seq<Event>): set<(Pid, nat)> {
    if h == [] then {}
    else
      var used := UsedOf(h[..|h| - 1]);
      match h[|h| - 1]
      case Begin(p) => used
      case Write(p, b, _) => used + {(p, b)}
      case End(p) => used - (set x | x in used && x.0 == p)
  }

  ghost function SpaceOf(c: Config): LogSpace.Space {
    LogSpace.Space(c.maxop, c.logsize, c.g.nlog)
  }

  ghost function Project(s: State): LogSpace.State {
    LogSpace.State(if Up(s) then s.lh else [], s.ops, UsedOf(s.hist), s.passed.Keys,
                   s.phase.Appending? || (s.phase.Installing? && !s.phase.boot))
  }

  lemma UsedSnoc(h: seq<Event>, e: Event)
    ensures e.Begin? ==> UsedOf(h + [e]) == UsedOf(h)
    ensures e.Write? ==> UsedOf(h + [e]) == UsedOf(h) + {(e.p, e.b)}
    ensures e.End? ==> UsedOf(h + [e]) == UsedOf(h) - (set x | x in UsedOf(h) && x.0 == e.p)
  {
    assert (h + [e])[..|h|] == h;
  }

  /** The events of a run are those of operations in progress. */
  ghost predicate UsedOpen(s: State) {
    && (forall x :: x in UsedOf(s.hist) ==> x.0 in s.ops)
    && s.durable <= |s.hist|
    && UsedOf(s.hist[..s.durable]) == {}
  }

  /** No step of the log-space machine, or one, or the end of the last operation together with
      the commit that has nothing to do. */
  ghost predicate Stays(c: Config, s: State, s': State) {
    || Project(s') == Project(s)
    || LogSpace.Next(SpaceOf(c), Project(s), Project(s'))
    || exists x :: LogSpace.Next(SpaceOf(c), Project(s), x) && LogSpace.Step(SpaceOf(c), x, LogSpace.Reset, Project(s'))
  }

  ghost predicate IsOp(l: Label) {
    l.BeginOp? || l.LogTest? || l.LogWrite? || l.EndOp?
  }

  ghost function LabelOf(l: Label): LogSpace.Label
    requires IsOp(l)
  {
    match l
    case BeginOp(p) => LogSpace.Begin(p)
    case LogTest(p, b) => LogSpace.Test(p)
    case LogWrite(p, b) => LogSpace.Write(p, b)
    case EndOp(p) => LogSpace.End(p)
  }

  ghost predicate EmptyCommit(s: State, l: Label) {
    l.EndOp? && s.ops == {l.p} && s.lh == []
  }

  lemma OpHistory(c: Config, s: State, l: Label, s': State)
    requires Step(c, s, l, s') && UsedOpen(s) && (l.BeginOp? || l.LogWrite? || l.EndOp?)
    ensures l.BeginOp? ==> UsedOf(s'.hist) == UsedOf(s.hist)
    ensures l.LogWrite? ==> UsedOf(s'.hist) == UsedOf(s.hist) + {(l.p, l.b)}
    ensures l.EndOp? ==> UsedOf(s'.hist) == UsedOf(s.hist) - (set x | x in UsedOf(s.hist) && x.0 == l.p)
    ensures s.durable <= |s'.hist| && s'.hist[..s.durable] == s.hist[..s.durable]
  {
    var e :=
      if l.BeginOp? then Begin(l.p)
      else if l.LogWrite? then Write(l.p, l.b, s.cache[l.b].data)
      else End(l.p);
    assert s'.hist == s.hist + [e];
    UsedSnoc(s.hist, e);
  }

  lemma BeginProjects(c: Config, s: State, p: Pid, s': State)
    requires UsedOpen(s) && BeginOpStep(c, s, p, s')
    ensures LogSpace.Step(SpaceOf(c), Project(s), LogSpace.Begin(p), Project(s')) && UsedOpen(s')
  {
    OpHistory(c, s, BeginOp(p), s');
  }

  lemma TestProjects(c: Config, s: State, p: Pid, b: nat, s': State)
    requires Shape(c, s) && UsedOpen(s) && LogTestStep(c, s, p, b, s')
    ensures LogSpace.Step(SpaceOf(c), Project(s), LogSpace.Test(p), Project(s')) && UsedOpen(s')
  {
    assert s'.passed.Keys == s.passed.Keys + {p};
  }

  lemma WriteProjects(c: Config, s: State, p: Pid, b: nat, s': State)
    requires Shape(c, s) && UsedOpen(s) && LogWriteStep(c, s, p, b, s')
    ensures LogSpace.Step(SpaceOf(c), Project(s), LogSpace.Write(p, b), Project(s')) && UsedOpen(s')
  {
    OpHistory(c, s, LogWrite(p, b), s');
    assert s'.passed.Keys == s.passed.Keys - {p};
  }

  lemma EndProjects(c: Config, s: State, p: Pid, s': State)
    requires Shape(c, s) && UsedOpen(s) && EndOpStep(s, p, s') && !EmptyCommit(s, EndOp(p))
    ensures LogSpace.Step(SpaceOf(c), Project(s), LogSpace.End(p), Project(s')) && UsedOpen(s')
  {
    OpHistory(c, s, EndOp(p), s');
  }

  /** begin_op, the two parts of log_write and end_op are the steps of the log-space machine. */
  lemma OpProjects(c: Config, s: State, l: Label, s': State)
    requires Shape(c, s) && HistInv(c, s) && UsedOpen(s) && Step(c, s, l, s') && IsOp(l) && !EmptyCommit(s, l)
    ensures LogSpace.Step(SpaceOf(c), Project(s), LabelOf(l), Project(s')) && UsedOpen(s')
  {
    match l
    case BeginOp(p) => BeginProjects(c, s, p, s');
    case LogTest(p, b) => TestProjects(c, s, p, b, s');
    case LogWrite(p, b) => WriteProjects(c, s, p, b, s');
    case EndOp(p) => EndProjects(c, s, p, s');
  }

  lemma EmptyProjects(c: Config, s: State, l: Label, s': State)
    requires Shape(c, s) && HistInv(c, s) && UsedOpen(s) && Step(c, s, l, s') && EmptyCommit(s, l)
      && s.passed.Keys <= s.ops
    ensures Stays(c, s, s') && UsedOpen(s')
  {
    OpHistory(c, s, l, s');
    assert s'.hist[..|s'.hist|] == s'.hist;
    assert s.passed.Keys == {};
    var p := Project(s);
    var x := p.(ops := p.ops - {l.p}, used := p.used - LogSpace.Share(p, l.p), committing := true);
    assert LogSpace.Step(SpaceOf(c), p, LogSpace.End(l.p), x);
    assert UsedOf(s'.hist) == {};
    assert LogSpace.Step(SpaceOf(c), x, LogSpace.Reset, Project(s'));
  }

  /** Every step of the full machine is a step of the log-space machine, or none at all, or the
      last end_op with an empty commit. */
  lemma StepProjects(c: Config, s: State, l: Label, s': State)
    requires Shape(c, s) && HistInv(c, s) && UsedOpen(s) && Step(c, s, l, s') && s.passed.Keys <= s.ops
    ensures Stays(c, s, s') && UsedOpen(s')
  {
    if IsOp(l) {
      if EmptyCommit(s, l) { EmptyProjects(c, s, l, s'); } else { OpProjects(c, s, l, s'); }
    } else if l.ClearHead? || l.Crash? {
      assert s'.hist[..s'.durable] == s.hist[..s.durable];
      assert s'.hist[..|s'.hist|] == s'.hist;
      assert s'.passed.Keys == {} by { if l.ClearHead? { assert s.passed.Keys == {}; } }
      assert LogSpace.Step(SpaceOf(c), Project(s), LogSpace.Reset, Project(s'));
    } else if l.CommitHead? {
      assert s.hist[..|s.hist|] == s.hist;
    }
  }

  /** A run of the full machine in which every outstanding operation has logged at most m
      distinct blocks at any time. */
  ghost predicate BoundedRun(c: Config, m: nat, t: seq<State>) {
    Run(c, t) && forall i :: 0 <= i < |t| ==> LogSpace.Within(Project(t[i]), m)
  }

  ghost predicate Fits(c: Config, m: nat, s: State) {
    UsedOpen(s) && Spaced(c, m, Project(s))
  }

  lemma OneFits(c: Config, m: nat, x: LogSpace.State, l: LogSpace.Label, y: LogSpace.State)
    requires LogSpace.Step(SpaceOf(c), x, l, y) && LogSpace.Tidy(x) && LogSpace.Within(x, m) && m <= c.maxop
      && 2 <= c.logsize
    requires LogSpace.Reserved(x, m, LogSpace.Bound(SpaceOf(c), m))
    ensures LogSpace.Tidy(y) && LogSpace.Reserved(y, m, LogSpace.Bound(SpaceOf(c), m))
  {
    LogSpace.TidyStep(SpaceOf(c), x, l, y);
    LogSpace.ReservedStep(SpaceOf(c), x, l, y, m);
  }

  lemma ResetFits(m: nat, bound: nat)
    ensures LogSpace.Tidy(LogSpace.State([], {}, {}, {}, false))
      && LogSpace.Reserved(LogSpace.State([], {}, {}, {}, false), m, bound)
  {}

  /** The log-space part of Fits. */
  ghost predicate Spaced(c: Config, m: nat, x: LogSpace.State) {
    LogSpace.Tidy(x) && LogSpace.Reserved(x, m, LogSpace.Bound(SpaceOf(c), m))
  }

  lemma NextSpaced(c: Config, m: nat, x: LogSpace.State, y: LogSpace.State)
    requires LogSpace.Next(SpaceOf(c), x, y) && Spaced(c, m, x) && LogSpace.Within(x, m) && m <= c.maxop
      && 2 <= c.logsize
    ensures Spaced(c, m, y)
  {
    var k :| LogSpace.Step(SpaceOf(c), x, k, y);
    OneFits(c, m, x, k, y);
  }

  lemma ProjectFits(c: Config, m: nat, s: State, s': State)
    requires Stays(c, s, s') && Spaced(c, m, Project(s)) && LogSpace.Within(Project(s), m) && m <= c.maxop
      && 2 <= c.logsize
    ensures Spaced(c, m, Project(s'))
  {
    if LogSpace.Next(SpaceOf(c), Project(s), Project(s')) {
      NextSpaced(c, m, Project(s), Project(s'));
    } else if Project(s') != Project(s) {
      ResetFits(m, LogSpace.Bound(SpaceOf(c), m));
      assert Project(s') == LogSpace.State([], {}, {}, {}, false);
    }
  }

  lemma StaysFits(c: Config, m: nat, s: State, l: Label, s': State)
    requires Shape(c, s) && HistInv(c, s) && Step(c, s, l, s') && Fits(c, m, s)
    requires LogSpace.Within(Project(s), m) && m <= c.maxop && 2 <= c.logsize
    ensures Fits(c, m, s')
  {
    assert s.passed.Keys == Project(s).passed;
    StepProjects(c, s, l, s');
    ProjectFits(c, m, s, s');
  }

  /** The bound on operations that keeps two entries of the header free, and a log of LOGSIZE sectors. */
  ghost predicate Spare(c: Config, m: nat) {
    m < c.maxop && m + 2 <= c.logsize <= c.g.nlog
  }

  /** A log that holds what the header lists: operations keep to MAXOPBLOCKS blocks and the log has
      more than LOGSIZE sectors, or they keep below and it has LOGSIZE. */
  ghost predicate Ample(c: Config, m: nat) {
    m <= c.maxop && 2 <= c.logsize && (c.logsize < c.g.nlog || Spare(c, m))
  }

  lemma FitsRoom(c: Config, m: nat, s: State)
    requires Fits(c, m, s) && LogSpace.Within(Project(s), m) && m <= c.maxop && 2 <= c.logsize && Up(s)
    ensures |s.lh| <= c.logsize
    ensures Ample(c, m) ==> Room(c, s)
    ensures Spare(c, m) ==> |s.lh| <= c.logsize - 2 && !LogSpace.Panics(SpaceOf(c), Project(s))
  {
    LogSpace.UsedAtMost(Project(s), s.ops, m);
  }

  /** Everything that holds throughout a run. */
  ghost predicate Kept(c: Config, m: nat, s: State) {
    Inv(c, s) && PassedInv(c, s) && Fits(c, m, s)
  }

  lemma InitKept(c: Config, m: nat, s: State)
    requires Init(c, s) && Ample(c, m)
    ensures Kept(c, m, s)
  {
    InitInv(c, s);
    ResetFits(m, LogSpace.Bound(SpaceOf(c), m));
  }

  /** The invariant and the reservations carry each other: the reservations give the block that
      is entered its room, whatever has happened since the test. */
  lemma NextKept(c: Config, m: nat, s: State, s': State)
    requires Kept(c, m, s) && Next(c, s, s') && Ample(c, m)
    requires LogSpace.Within(Project(s), m) && LogSpace.Within(Project(s'), m)
    ensures Kept(c, m, s')
  {
    var l :| Step(c, s, l, s');
    StaysFits(c, m, s, l, s');
    if l.LogWrite? {
      assert s.phase == Running;
      FitsRoom(c, m, s');
    }
    PassedStep(c, s, l, s');
    StepInv(c, s, l, s');
  }

  /** It holds up to state i. */
  ghost predicate KeptTo(c: Config, m: nat, t: seq<State>, i: nat) {
    i < |t| && Kept(c, m, t[i]) && (i > 0 ==> KeptTo(c, m, t, i - 1))
  }

  lemma KeptFirst(c: Config, m: nat, t: seq<State>)
    requires BoundedRun(c, m, t) && Ample(c, m)
    ensures KeptTo(c, m, t, 0)
  {
    InitKept(c, m, t[0]);
  }

  lemma KeptAt(c: Config, m: nat, t: seq<State>, i: nat)
    requires BoundedRun(c, m, t) && 0 < i < |t| && Ample(c, m) && KeptTo(c, m, t, i - 1)
    ensures KeptTo(c, m, t, i)
  {
    assert Follows(c, t, i);
    NextKept(c, m, t[i - 1], t[i]);
  }

  lemma {:induction false} RunKeptTo(c: Config, m: nat, t: seq<State>, i: nat)
    requires BoundedRun(c, m, t) && i < |t| && Ample(c, m)
    ensures KeptTo(c, m, t, i)
  {
    if i == 0 {
      KeptFirst(c, m, t);
    } else {
      RunKeptTo(c, m, t, i - 1);
      KeptAt(c, m, t, i);
    }
  }

  lemma RunKept(c: Config, m: nat, t: seq<State>, i: nat)
    requires BoundedRun(c, m, t) && i < |t| && Ample(c, m)
    ensures Kept(c, m, t[i])
  {
    RunKeptTo(c, m, t, i);
  }

  /** While processes run, the header is at most LOGSIZE - 2 entries long if operations keep below
      MAXOPBLOCKS blocks, on an image whose log has LOGSIZE sectors. It is this that gives every
      block its log sector, and log_write does not panic. */
  lemma HeaderNeverFull(c: Config, m: nat, t: seq<State>, i: nat)
    requires BoundedRun(c, m, t) && i < |t| && Spare(c, m) && Up(t[i])
    ensures |t[i].lh| <= c.logsize - 2 && !LogSpace.Panics(SpaceOf(c), Project(t[i]))
  {
    RunKept(c, m, t, i);
    FitsRoom(c, m, t[i]);
  }
}
