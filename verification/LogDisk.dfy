/** The disk as the write-ahead log of kernel/log.c sees it: a sequence of sectors,
    one atomic sector write at a time, with a log header, a log area and home blocks.
    The crash theorem about commit and recovery is at the end. */
module LogDisk {
  import opened Basics

  datatype Sector =
    | Data(bytes: string)
    | Head(n: nat, block: seq<nat>)

  type Disk = seq<Sector>

  /** log.start and log.size */
  datatype Geometry = Geometry(start: nat, nlog: nat)

  ghost predicate Home(g: Geometry, b: nat) {
    b < g.start || g.start + g.nlog <= b
  }

  /** A list of block numbers that the log can hold and that recovery may overwrite. */
  ghost predicate Loggable(g: Geometry, size: nat, nums: seq<nat>) {
    && |nums| < g.nlog
    && Distinct(nums)
    && forall i :: 0 <= i < |nums| ==> Home(g, nums[i]) && nums[i] < size
  }

  ghost predicate HasHeader(g: Geometry, d: Disk) {
    && g.start + g.nlog <= |d|
    && 0 < g.nlog
    && d[g.start].Head?
    && d[g.start].n <= |d[g.start].block|
  }

  function HeadNums(g: Geometry, d: Disk): (nums: seq<nat>)
    requires HasHeader(g, d)
  {
    d[g.start].block[..d[g.start].n]
  }

  ghost predicate Sound(g: Geometry, d: Disk) {
    HasHeader(g, d) && Loggable(g, |d|, HeadNums(g, d))
  }

  ghost predicate SameHome(g: Geometry, d: Disk, e: Disk) {
    |d| == |e| && forall b :: 0 <= b < |d| && Home(g, b) ==> d[b] == e[b]
  }

  /** h gives what every home block of d is worth: the logged copy if the header names it,
      else the block itself. */
  ghost predicate Worth(g: Geometry, d: Disk, h: Disk)
    requires Sound(g, d)
  {
    && |h| == |d|
    && (forall b :: 0 <= b < |d| && Home(g, b) && b !in HeadNums(g, d) ==> h[b] == d[b])
    && (forall i :: 0 <= i < |HeadNums(g, d)| ==> h[HeadNums(g, d)[i]] == d[g.start + 1 + i])
  }

  /** h has the home blocks of d after a transaction that writes vals[i] to nums[i]. */
  ghost predicate Written(g: Geometry, d: Disk, nums: seq<nat>, vals: seq<Sector>, h: Disk) {
    && |h| == |d| && |nums| == |vals|
    && (forall b :: 0 <= b < |d| && Home(g, b) && b !in nums ==> h[b] == d[b])
    && (forall i :: 0 <= i < |nums| && nums[i] < |h| ==> h[nums[i]] == vals[i])
  }

  /** write_head: the count and the first entries change, the rest of the sector stays. */
  function HeadWith(h: Sector, nums: seq<nat>): (r: Sector)
    requires h.Head? && |nums| <= |h.block|
    ensures r.Head? && r.n == |nums| && |r.block| == |h.block| && r.block[..r.n] == nums
  {
    Head(|nums|, nums + h.block[|nums|..])
  }

  // ---- The disk images left by each sector write of commit and recovery

  /** One iteration of install_trans: log sector i goes to its home block. */
  ghost function InstallOne(g: Geometry, d: Disk, nums: seq<nat>, i: nat): (e: Disk)
    requires i < |nums| && nums[i] < |d| && g.start + 1 + i < |d|
    ensures |e| == |d|
  {
    d[nums[i] := d[g.start + 1 + i]]
  }

  /** One iteration of write_log: a cached block goes to log sector i. */
  ghost function AppendOne(g: Geometry, d: Disk, data: Sector, i: nat): (e: Disk)
    requires g.start + 1 + i < |d|
    ensures |e| == |d|
  {
    d[g.start + 1 + i := data]
  }

  /** install_trans stopped after its first k writes. */
  ghost function Installed(g: Geometry, d: Disk, nums: seq<nat>, k: nat): (e: Disk)
    requires g.start + g.nlog <= |d| && Loggable(g, |d|, nums) && k <= |nums|
    ensures |e| == |d|
  {
    if k == 0 then d
    else
      InstallOne(g, Installed(g, d, nums, k - 1), nums, k - 1)
  }

  /** write_log stopped after its first k writes. */
  ghost function Appended(g: Geometry, d: Disk, vals: seq<Sector>, k: nat): (e: Disk)
    requires g.start + g.nlog <= |d| && |vals| < g.nlog && k <= |vals|
    ensures |e| == |d|
  {
    if k == 0 then d else AppendOne(g, Appended(g, d, vals, k - 1), vals[k - 1], k - 1)
  }

  ghost function SetHead(g: Geometry, d: Disk, nums: seq<nat>): (r: Disk)
    requires HasHeader(g, d) && |nums| <= |d[g.start].block|
    ensures |r| == |d| && HasHeader(g, r) && HeadNums(g, r) == nums
    ensures |r[g.start].block| == |d[g.start].block|
    ensures forall b :: 0 <= b < |d| && b != g.start ==> r[b] == d[b]
  {
    d[g.start := HeadWith(d[g.start], nums)]
  }

  /** The first k entries are home and nothing else has changed. */
  lemma {:induction false} InstalledContents(g: Geometry, d: Disk, nums: seq<nat>, k: nat)
    requires g.start + g.nlog <= |d| && Loggable(g, |d|, nums) && k <= |nums|
    ensures forall b {:trigger Installed(g, d, nums, k)[b]} :: 0 <= b < |d| && b !in nums[..k] ==>
      Installed(g, d, nums, k)[b] == d[b]
    ensures forall j :: 0 <= j < k ==> Installed(g, d, nums, k)[nums[j]] == d[g.start + 1 + j]
  {
    if k > 0 {
      InstalledContents(g, d, nums, k - 1);
      var e, e' := Installed(g, d, nums, k - 1), Installed(g, d, nums, k);
      assert g.start + k !in nums[..k - 1];
      assert e' == e[nums[k - 1] := d[g.start + k]];
      assert nums[..k] == nums[..k - 1] + [nums[k - 1]];
    }
  }

  /** Only the first k log sectors have changed. */
  lemma {:induction false} AppendedContents(g: Geometry, d: Disk, vals: seq<Sector>, k: nat)
    requires g.start + g.nlog <= |d| && |vals| < g.nlog && k <= |vals|
    ensures forall b :: 0 <= b < |d| && !(g.start < b <= g.start + k) ==> Appended(g, d, vals, k)[b] == d[b]
    ensures forall b :: g.start < b <= g.start + k ==> Appended(g, d, vals, k)[b] == vals[b - g.start - 1]
  {
    if k > 0 {
      AppendedContents(g, d, vals, k - 1);
    }
  }

  /** recover_from_log stopped after its first k writes: install_trans, then write_head. */
  ghost function Recovering(g: Geometry, d: Disk, k: nat): (e: Disk)
    requires Sound(g, d) && k <= |HeadNums(g, d)| + 1
    ensures |e| == |d|
  {
    var nums := HeadNums(g, d);
    if k <= |nums| then Installed(g, d, nums, k)
    else
      InstalledContents(g, d, nums, |nums|);
      SetHead(g, Installed(g, d, nums, |nums|), [])
  }

  /** commit stopped after its first k writes: write_log, write_head, install_trans, write_head. */
  ghost function Committing(g: Geometry, d: Disk, nums: seq<nat>, vals: seq<Sector>, k: nat): (e: Disk)
    requires HasHeader(g, d) && Loggable(g, |d|, nums) && |vals| == |nums| <= |d[g.start].block|
    requires k <= 2 * |nums| + 2
    ensures |e| == |d|
  {
    if k <= |nums| then Appended(g, d, vals, k)
    else
      AppendedContents(g, d, vals, |nums|);
      Recovering(g, SetHead(g, Appended(g, d, vals, |nums|), nums), k - |nums| - 1)
  }

  // ---- The same images as they accumulate behind an earlier trace t

  ghost function InstallTrace(t: seq<Disk>, g: Geometry, d: Disk, nums: seq<nat>, k: nat): (r: seq<Disk>)
    requires g.start + g.nlog <= |d| && Loggable(g, |d|, nums) && k <= |nums|
    ensures |r| == |t| + k
  {
    if k == 0 then t else InstallTrace(t, g, d, nums, k - 1) + [Installed(g, d, nums, k)]
  }

  ghost function AppendTrace(t: seq<Disk>, g: Geometry, d: Disk, vals: seq<Sector>, k: nat): (r: seq<Disk>)
    requires g.start + g.nlog <= |d| && |vals| < g.nlog && k <= |vals|
    ensures |r| == |t| + k
  {
    if k == 0 then t else AppendTrace(t, g, d, vals, k - 1) + [Appended(g, d, vals, k)]
  }

  ghost function RecoveryTrace(t: seq<Disk>, g: Geometry, d: Disk): (r: seq<Disk>)
    requires Sound(g, d)
    ensures |r| == |t| + |HeadNums(g, d)| + 1
  {
    var all := |HeadNums(g, d)|;
    InstallTrace(t, g, d, HeadNums(g, d), all) + [Recovering(g, d, all + 1)]
  }

  ghost function CommitTrace(t: seq<Disk>, g: Geometry, d: Disk, nums: seq<nat>, vals: seq<Sector>): (r: seq<Disk>)
    requires HasHeader(g, d) && Loggable(g, |d|, nums) && |vals| == |nums| <= |d[g.start].block|
    ensures |r| == |t| + 2 * |nums| + 2
  {
    AppendedContents(g, d, vals, |nums|);
    var e := SetHead(g, Appended(g, d, vals, |nums|), nums);
    RecoveryTrace(AppendTrace(t, g, d, vals, |nums|) + [e], g, e)
  }

  lemma {:induction false} InstallTraceAt(t: seq<Disk>, g: Geometry, d: Disk, nums: seq<nat>, k: nat)
    requires g.start + g.nlog <= |d| && Loggable(g, |d|, nums) && k <= |nums|
    ensures t <= InstallTrace(t, g, d, nums, k)
    ensures forall j :: |t| <= j < |t| + k ==>
      InstallTrace(t, g, d, nums, k)[j] == Installed(g, d, nums, j - |t| + 1)
  {
    if k > 0 { InstallTraceAt(t, g, d, nums, k - 1); }
  }

  lemma {:induction false} AppendTraceAt(t: seq<Disk>, g: Geometry, d: Disk, vals: seq<Sector>, k: nat)
    requires g.start + g.nlog <= |d| && |vals| < g.nlog && k <= |vals|
    ensures t <= AppendTrace(t, g, d, vals, k)
    ensures forall j :: |t| <= j < |t| + k ==>
      AppendTrace(t, g, d, vals, k)[j] == Appended(g, d, vals, j - |t| + 1)
  {
    if k > 0 { AppendTraceAt(t, g, d, vals, k - 1); }
  }

  /** The sector writes of a recovery are exactly the images at which it can be stopped. */
  lemma RecoveryTraceAt(t: seq<Disk>, g: Geometry, d: Disk)
    requires Sound(g, d)
    ensures t <= RecoveryTrace(t, g, d)
    ensures forall j :: |t| <= j < |t| + |HeadNums(g, d)| + 1 ==>
      RecoveryTrace(t, g, d)[j] == Recovering(g, d, j - |t| + 1)
  {
    InstallTraceAt(t, g, d, HeadNums(g, d), |HeadNums(g, d)|);
  }

  /** The sector writes of a commit are exactly the images at which it can be stopped. */
  lemma CommitTraceAt(t: seq<Disk>, g: Geometry, d: Disk, nums: seq<nat>, vals: seq<Sector>)
    requires HasHeader(g, d) && Loggable(g, |d|, nums) && |vals| == |nums| <= |d[g.start].block|
    ensures t <= CommitTrace(t, g, d, nums, vals)
    ensures forall j :: |t| <= j < |t| + 2 * |nums| + 2 ==>
      CommitTrace(t, g, d, nums, vals)[j] == Committing(g, d, nums, vals, j - |t| + 1)
  {
    AppendedContents(g, d, vals, |nums|);
    AppendTraceAt(t, g, d, vals, |nums|);
    var e := SetHead(g, Appended(g, d, vals, |nums|), nums);
    RecoveryTraceAt(AppendTrace(t, g, d, vals, |nums|) + [e], g, e);
  }

  // ---- Crash atomicity

  lemma InstalledSound(g: Geometry, d: Disk, k: nat)
    requires Sound(g, d) && k <= |HeadNums(g, d)|
    ensures var e := Installed(g, d, HeadNums(g, d), k);
      Sound(g, e) && e[g.start] == d[g.start] && HeadNums(g, e) == HeadNums(g, d)
  {
    InstalledContents(g, d, HeadNums(g, d), k);
  }

  /** With the first k entries copied home and the header unchanged, the worth is unchanged;
      with all of them copied, the home blocks are the worth. */
  lemma InstalledWorth(g: Geometry, d: Disk, h: Disk, k: nat)
    requires Sound(g, d) && Worth(g, d, h) && k <= |HeadNums(g, d)|
    ensures var e := Installed(g, d, HeadNums(g, d), k);
      && Sound(g, e) && e[g.start] == d[g.start] && HeadNums(g, e) == HeadNums(g, d)
      && Worth(g, e, h)
      && (k == |HeadNums(g, d)| ==> SameHome(g, e, h))
  {
    var nums := HeadNums(g, d);
    InstalledContents(g, d, nums, k);
    InstalledSound(g, d, k);
    var e := Installed(g, d, nums, k);
    forall i | 0 <= i < |nums| ensures h[nums[i]] == e[g.start + 1 + i] {
      assert g.start + 1 + i !in nums[..k];
    }
  }

  lemma RecoverySound(g: Geometry, d: Disk, k: nat)
    requires Sound(g, d) && k <= |HeadNums(g, d)| + 1
    ensures Sound(g, Recovering(g, d, k))
    ensures k == |HeadNums(g, d)| + 1 ==> HeadNums(g, Recovering(g, d, k)) == []
  {
    var all := |HeadNums(g, d)|;
    InstalledSound(g, d, if k <= all then k else all);
  }

  /** A recovery that stops after any number of its writes leaves a disk that is still
      worth the same; a completed one has put that worth in place. */
  lemma RecoveryKeepsWorth(g: Geometry, d: Disk, h: Disk, k: nat)
    requires Sound(g, d) && Worth(g, d, h) && k <= |HeadNums(g, d)| + 1
    ensures Sound(g, Recovering(g, d, k)) && Worth(g, Recovering(g, d, k), h)
    ensures k == |HeadNums(g, d)| + 1 ==> SameHome(g, Recovering(g, d, k), h)
  {
    var all := |HeadNums(g, d)|;
    RecoverySound(g, d, k);
    InstalledWorth(g, d, h, if k <= all then k else all);
  }

  /** Boot after boot into recoveries of which the j-th dies after crashes[j] writes,
      followed by one recovery that completes. */
  ghost function AfterCrashes(g: Geometry, d: Disk, crashes: seq<nat>): (e: Disk)
    requires Sound(g, d)
    ensures Sound(g, e) && HeadNums(g, e) == []
    decreases |crashes|
  {
    var all := |HeadNums(g, d)| + 1;
    if crashes == [] then
      RecoverySound(g, d, all);
      Recovering(g, d, all)
    else
      var k := if crashes[0] <= all then crashes[0] else all;
      RecoverySound(g, d, k);
      AfterCrashes(g, Recovering(g, d, k), crashes[1..])
  }

  /** Recoveries that crash lose nothing: the first completed one restores the worth. */
  lemma {:induction false} CrashesKeepWorth(g: Geometry, d: Disk, h: Disk, crashes: seq<nat>)
    requires Sound(g, d) && Worth(g, d, h)
    ensures SameHome(g, AfterCrashes(g, d, crashes), h)
    decreases |crashes|
  {
    var all := |HeadNums(g, d)| + 1;
    if crashes == [] {
      RecoveryKeepsWorth(g, d, h, all);
    } else {
      var k := if crashes[0] <= all then crashes[0] else all;
      RecoveryKeepsWorth(g, d, h, k);
      CrashesKeepWorth(g, Recovering(g, d, k), h, crashes[1..]);
    }
  }

  /** The header write turns the appended copies into the worth of the disk. */
  lemma HeaderWriteCommits(g: Geometry, d: Disk, nums: seq<nat>, vals: seq<Sector>, h: Disk)
    requires HasHeader(g, d) && Loggable(g, |d|, nums) && |vals| == |nums| <= |d[g.start].block|
    requires Written(g, d, nums, vals, h)
    ensures HasHeader(g, Appended(g, d, vals, |nums|))
    ensures |Appended(g, d, vals, |nums|)[g.start].block| == |d[g.start].block|
    ensures var e := SetHead(g, Appended(g, d, vals, |nums|), nums); Sound(g, e) && Worth(g, e, h)
  {
    AppendedContents(g, d, vals, |nums|);
  }

  /** Where each write of a commit leaves the worth of the disk: before the header write
      it is the old home contents, from the header write on it is the new ones. */
  lemma CommitWorth(g: Geometry, d: Disk, nums: seq<nat>, vals: seq<Sector>, h: Disk, k: nat)
    requires Sound(g, d) && HeadNums(g, d) == []
    requires Loggable(g, |d|, nums) && |vals| == |nums| <= |d[g.start].block|
    requires Written(g, d, nums, vals, h)
    requires k <= 2 * |nums| + 2
    ensures Sound(g, Committing(g, d, nums, vals, k))
    ensures Worth(g, Committing(g, d, nums, vals, k), if k <= |nums| then d else h)
    ensures k == 2 * |nums| + 2 ==>
      && HeadNums(g, Committing(g, d, nums, vals, k)) == []
      && SameHome(g, Committing(g, d, nums, vals, k), h)
  {
    if k <= |nums| {
      AppendedContents(g, d, vals, k);
    } else {
      HeaderWriteCommits(g, d, nums, vals, h);
      var e := SetHead(g, Appended(g, d, vals, |nums|), nums);
      RecoverySound(g, e, k - |nums| - 1);
      RecoveryKeepsWorth(g, e, h, k - |nums| - 1);
    }
  }

  /** Crash atomicity: stop a commit after any of its sector writes, then let any number of
      recoveries die after any of theirs; the first one that completes leaves every home
      block as it was before the transaction, or every home block as the transaction wrote
      it, decided by whether the header write was reached. */
  lemma CrashAtomicity(g: Geometry, d: Disk, nums: seq<nat>, vals: seq<Sector>, h: Disk, k: nat, crashes: seq<nat>)
    requires Sound(g, d) && HeadNums(g, d) == []
    requires Loggable(g, |d|, nums) && |vals| == |nums| <= |d[g.start].block|
    requires Written(g, d, nums, vals, h)
    requires k <= 2 * |nums| + 2
    ensures Sound(g, Committing(g, d, nums, vals, k))
    ensures var e := AfterCrashes(g, Committing(g, d, nums, vals, k), crashes);
      HeadNums(g, e) == [] && SameHome(g, e, if k <= |nums| then d else h)
  {
    CommitWorth(g, d, nums, vals, h, k);
    CrashesKeepWorth(g, Committing(g, d, nums, vals, k), if k <= |nums| then d else h, crashes);
  }
}
