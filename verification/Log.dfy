/** commit and recovery of kernel/log.c as they run: loops over the in-memory header, each
    iteration going through the buffer cache and ending in one synchronous sector write.
    The ghost trace keeps the disk image left by every sector write, so that a crash is the
    choice of one of its elements. */
module Log {
  import opened Basics
  import opened LogDisk

  ghost predicate CoherentWith(disk: Disk, cache: map<nat, Sector>, lh: seq<nat>) {
    && (forall b :: b in cache ==> b < |disk|)
    && (forall b :: b in cache && b !in lh ==> cache[b] == disk[b])
  }

  ghost predicate SettledIn(disk: Disk, cache: map<nat, Sector>, lh: seq<nat>, k: nat)
    requires k <= |lh| && forall i :: 0 <= i < |lh| ==> lh[i] < |disk|
  {
    forall i :: 0 <= i < k ==> lh[i] in cache && cache[lh[i]] == disk[lh[i]]
  }

  /** The cache after the two breads and the bwrite of an iteration of install_trans: a log sector
      that agrees with the disk, and a home block that has just been written. */
  lemma InstallCache(disk: Disk, cache: map<nat, Sector>, lh: seq<nat>, tail: nat, from: nat, data: Sector,
                     other: Sector)
    requires tail < |lh| && from < |disk| && from !in lh && (forall i :: 0 <= i < |lh| ==> lh[i] < |disk|)
    requires CoherentWith(disk, cache, lh) && SettledIn(disk, cache, lh, tail) && data == disk[from]
    ensures var c, d := cache[from := data][lh[tail] := other][lh[tail] := data], disk[lh[tail] := data];
      CoherentWith(d, c, lh) && SettledIn(d, c, lh, tail + 1)
  {}

  class Log {
    const g: Geometry
    var disk: Disk
    /** Contents of the valid buffers; a block in lh may be newer here than on the disk. */
    var cache: map<nat, Sector>
    /** log.lh.block[0..log.lh.n] */
    var lh: seq<nat>
    ghost var trace: seq<Disk>

    /** Every buffer that is not pinned by the log agrees with the disk. */
    ghost predicate Coherent()
      reads this
    {
      CoherentWith(disk, cache, lh)
    }

    ghost predicate Valid()
      reads this
    {
      HasHeader(g, disk) && Coherent() && Loggable(g, |disk|, lh) && |lh| <= |disk[g.start].block|
    }

    /** The logged blocks are in the cache, with contents vals. */
    ghost predicate Pinned(vals: seq<Sector>)
      reads this
    {
      |vals| == |lh| && forall i :: 0 <= i < |lh| ==> lh[i] in cache && cache[lh[i]] == vals[i]
    }

    /** The first k logged blocks have reached their home. */
    ghost predicate Settled(k: nat)
      reads this
      requires k <= |lh| && forall i :: 0 <= i < |lh| ==> lh[i] < |disk|
    {
      SettledIn(disk, cache, lh, k)
    }

    method Bread(b: nat) returns (data: Sector)
      requires b < |disk|
      modifies this`cache
      ensures data == (if b in old(cache) then old(cache)[b] else disk[b])
      ensures cache == old(cache)[b := data]
    {
      if b !in cache {
        cache := cache[b := disk[b]];
      }
      data := cache[b];
    }

    method Bwrite(b: nat, data: Sector)
      requires b < |disk|
      modifies this`cache, this`disk, this`trace
      ensures disk == old(disk)[b := data] && cache == old(cache)[b := data]
      ensures trace == old(trace) + [disk]
    {
      cache := cache[b := data];
      disk := disk[b := data];
      trace := trace + [disk];
    }

    /** The state of write_log when it started from disk d and trace t and has done tail blocks. */
    ghost predicate Appending(d: Disk, t: seq<Disk>, vals: seq<Sector>, tail: nat)
      reads this
    {
      && Valid() && Pinned(vals) && tail <= |lh|
      && g.start + g.nlog <= |d|
      && disk == Appended(g, d, vals, tail)
      && trace == AppendTrace(t, g, d, vals, tail)
    }

    /** One iteration of write_log: the cached block goes to log sector tail. */
    method AppendBlock(tail: nat, ghost d: Disk, ghost t: seq<Disk>, ghost vals: seq<Sector>)
      requires Appending(d, t, vals, tail) && tail < |lh|
      modifies this`cache, this`disk, this`trace
      ensures Appending(d, t, vals, tail + 1)
    {
      var to := Bread(g.start + tail + 1);
      var from := Bread(lh[tail]);
      assert g.start + tail + 1 !in lh;
      assert Appended(g, d, vals, tail + 1) == AppendOne(g, disk, vals[tail], tail);
      Bwrite(g.start + tail + 1, from);
    }

    method WriteLog(ghost vals: seq<Sector>)
      requires Valid() && Pinned(vals)
      modifies this`cache, this`disk, this`trace
      ensures Valid()
      ensures disk == Appended(g, old(disk), vals, |lh|)
      ensures trace == AppendTrace(old(trace), g, old(disk), vals, |lh|)
    {
      ghost var d, t := disk, trace;
      for tail := 0 to |lh|
        invariant Appending(d, t, vals, tail)
      {
        AppendBlock(tail, d, t, vals);
      }
    }

    /** The entries of a header sector with the first ones replaced by lh. */
    method FillHeader(block: seq<nat>) returns (r: seq<nat>)
      requires |lh| <= |block|
      ensures r == lh + block[|lh|..]
    {
      r := block;
      var i := 0;
      while i < |lh|
        invariant 0 <= i <= |lh|
        invariant r == lh[..i] + block[i..]
      {
        r := r[i := lh[i]];
        i := i + 1;
      }
    }

    /** Rewrites the count and the first entries of the header sector. */
    method WriteHead()
      requires Valid()
      modifies this`cache, this`disk, this`trace
      ensures Valid() && disk == SetHead(g, old(disk), lh)
      ensures trace == old(trace) + [disk]
      ensures cache == old(cache)[g.start := disk[g.start]]
    {
      assert g.start !in lh;
      var buf := Bread(g.start);
      var block := FillHeader(buf.block);
      Bwrite(g.start, Head(|lh|, block));
    }

    /** The state of install_trans when it started from disk d and trace t and has done tail blocks. */
    ghost predicate Installing(d: Disk, t: seq<Disk>, tail: nat)
      reads this
    {
      && Valid() && tail <= |lh| && Settled(tail)
      && |d| == |disk| && d[g.start] == disk[g.start]
      && disk == Installed(g, d, lh, tail)
      && trace == InstallTrace(t, g, d, lh, tail)
    }

    /** One iteration of install_trans: log sector tail goes to its home block. */
    method InstallBlock(tail: nat, ghost d: Disk, ghost t: seq<Disk>)
      requires Installing(d, t, tail) && tail < |lh|
      modifies this`cache, this`disk, this`trace
      ensures Installing(d, t, tail + 1)
    {
      ghost var was, from := cache, g.start + tail + 1;
      assert from !in lh;
      assert Installed(g, d, lh, tail + 1) == InstallOne(g, disk, lh, tail);
      ghost var other := CopySector(g.start + tail + 1, lh[tail]);
      InstallCache(old(disk), was, lh, tail, from, old(disk)[from], other);
    }

    /** bread both, memmove, bwrite: here the first one agrees with the disk. */
    method CopySector(from: nat, home: nat) returns (ghost other: Sector)
      requires from < |disk| && home < |disk| && from != home && (from in cache ==> cache[from] == disk[from])
      modifies this`cache, this`disk, this`trace
      ensures disk == old(disk)[home := old(disk)[from]] && trace == old(trace) + [disk]
      ensures cache == old(cache)[from := old(disk)[from]][home := other][home := old(disk)[from]]
    {
      var lbuf := Bread(from);
      var dbuf := Bread(home);
      other := dbuf;
      Bwrite(home, lbuf);
    }

    /** Copies the log sectors home. */
    method InstallTrans()
      requires Valid()
      modifies this`cache, this`disk, this`trace
      ensures Valid() && disk[g.start] == old(disk)[g.start]
      ensures forall b :: b in cache ==> cache[b] == disk[b]
      ensures disk == Installed(g, old(disk), lh, |lh|)
      ensures trace == InstallTrace(old(trace), g, old(disk), lh, |lh|)
    {
      ghost var d, t := disk, trace;
      for tail := 0 to |lh|
        invariant Installing(d, t, tail)
      {
        InstallBlock(tail, d, t);
      }
    }

    /** The second half of commit, and all of recovery after read_head. */
    method InstallAndClear()
      requires Valid() && HeadNums(g, disk) == lh
      modifies this
      ensures Valid() && lh == []
      ensures trace == RecoveryTrace(old(trace), g, old(disk))
      ensures disk == Recovering(g, old(disk), |old(lh)| + 1)
    {
      InstallTrans();
      lh := [];
      WriteHead();
    }

    /** The first half of commit, up to and including the write that commits. */
    method AppendAndCommit(ghost vals: seq<Sector>)
      requires Valid() && Pinned(vals)
      modifies this
      ensures Valid() && lh == old(lh) && HeadNums(g, disk) == lh
      ensures disk == Committing(g, old(disk), lh, vals, |lh| + 1)
      ensures trace == AppendTrace(old(trace), g, old(disk), vals, |lh|) + [disk]
    {
      AppendedContents(g, disk, vals, |lh|);
      WriteLog(vals);
      WriteHead();
    }

    /** Commits the pinned contents: its sector writes are those of LogDisk.Committing, and at
        the end every buffer agrees with the disk. */
    method Commit(ghost vals: seq<Sector>)
      requires Valid() && Pinned(vals)
      modifies this
      ensures Valid() && lh == []
      ensures old(lh) == [] ==> disk == old(disk) && trace == old(trace)
      ensures old(lh) != [] ==>
        && trace == CommitTrace(old(trace), g, old(disk), old(lh), vals)
        && disk == Committing(g, old(disk), old(lh), vals, 2 * |old(lh)| + 2)
    {
      if |lh| > 0 {
        AppendedContents(g, disk, vals, |lh|);
        AppendAndCommit(vals);
        InstallAndClear();
      }
    }

    /** Replays whatever the header on disk lists, then clears it. The cache must not hold
        anything newer than the disk, as after a boot. */
    method RecoverFromLog()
      requires Sound(g, disk) && (forall b :: b in cache ==> b < |disk| && cache[b] == disk[b])
      modifies this
      ensures Valid() && lh == []
      ensures trace == RecoveryTrace(old(trace), g, old(disk))
      ensures disk == Recovering(g, old(disk), |HeadNums(g, old(disk))| + 1)
    {
      var buf := Bread(g.start);
      lh := buf.block[..buf.n];
      InstallAndClear();
    }
  }
}
