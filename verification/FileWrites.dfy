/** filewrite of kernel/file.c: a write cut into transactions. Between two of them the inode is
    unlocked and no operation is open, so that other processes may change any file and, if they
    share the struct file, its offset; what they leave behind is given as a sequence of worlds,
    one for each transaction, about which nothing is known but that the file system is sound. */
module FileWrites {
  import opened Basics
  import opened BlockBits
  import opened FileBlocks
  import opened FileOps

  /** The file system and f->off as a transaction finds them. */
  datatype World = World(s: State, off: nat)

  /** One transaction: what it found, and what it left behind. */
  datatype Txn = Txn(pre: World, post: World, owner: map<nat, (nat, nat)>)

  // ---- Chunks

  /** The number of transactions for n bytes. */
  function Chunks(n: nat): nat {
    (n + CHUNK - 1) / CHUNK
  }

  function Cut(n: nat, k: nat): nat {
    Min(k * CHUNK, n)
  }

  /** The bytes of transaction k. */
  function Piece(src: seq<Byte>, k: nat): (p: seq<Byte>)
    ensures |p| <= CHUNK
  {
    src[Cut(|src|, k)..Cut(|src|, k + 1)]
  }

  lemma LastChunk(n: nat, k: nat)
    ensures k < Chunks(n) <==> k * CHUNK < n
    ensures k == Chunks(n) ==> Cut(n, k) == n
  {
    assert CHUNK == 1536;
  }

  // ---- What a write amounts to

  /** Transaction t has put piece into file i at the offset it found, touched no other file, and
      moved the offset past it. */
  ghost predicate TxnOk(lay: Layout, i: nat, t: Txn, piece: seq<Byte>) {
    Wrote(lay, t.pre.s, t.post.s, t.owner, i, t.pre.off, piece) && t.post.off == t.pre.off + |piece|
  }

  ghost predicate AllOk(lay: Layout, i: nat, ts: seq<Txn>, src: seq<Byte>) {
    forall k: nat :: k < |ts| ==> TxnOk(lay, i, ts[k], Piece(src, k))
  }

  /** Each transaction has found the world that was given for it. */
  ghost predicate Found(ts: seq<Txn>, env: seq<World>) {
    |ts| <= |env| && forall k :: 0 <= k < |ts| ==> ts[k].pre == env[k]
  }

  /** Nobody came between two transactions. */
  ghost predicate Quiet(ts: seq<Txn>) {
    forall k: nat :: Undisturbed(ts, k)
  }

  ghost predicate Undisturbed(ts: seq<Txn>, k: nat) {
    0 < k < |ts| ==> ts[k].pre == ts[k - 1].post
  }

  lemma NextPiece(src: seq<Byte>, k: nat)
    ensures src[..Cut(|src|, k)] + Piece(src, k) == src[..Cut(|src|, k + 1)]
  {}

  /** A write that nobody disturbed is one write of all the bytes so far. */
  lemma {:induction false} QuietWrite(lay: Layout, i: nat, ts: seq<Txn>, src: seq<Byte>, n: nat)
    requires AllOk(lay, i, ts, src) && Quiet(ts) && 0 < n <= |ts|
    ensures Wrote(lay, ts[0].pre.s, ts[n - 1].post.s, ts[n - 1].owner, i, ts[0].pre.off, src[..Cut(|src|, n)])
    ensures ts[n - 1].post.off == ts[0].pre.off + Cut(|src|, n)
  {
    assert TxnOk(lay, i, ts[n - 1], Piece(src, n - 1));
    NextPiece(src, n - 1);
    if n == 1 {
      assert src[..Cut(|src|, 0)] == [];
      assert [] + Piece(src, 0) == Piece(src, 0);
    } else {
      QuietWrite(lay, i, ts, src, n - 1);
      assert Undisturbed(ts, n - 1);
      WroteTwice(lay, ts[0].pre.s, ts[n - 2].post.s, ts[n - 1].post.s, ts[n - 2].owner, ts[n - 1].owner, i,
                 ts[0].pre.off,
                 src[..Cut(|src|, n - 1)], Piece(src, n - 1));
    }
  }

  // ---- The code

  ghost predicate WorldOk(lay: Layout, w: World, owner: map<nat, (nat, nat)>, i: nat) {
    Inv(lay, w.s, owner) && i < |w.s.inodes| && w.off < WORD
  }

  /** Why writei refuses a transaction. */
  ghost predicate Refuses(w: World, i: nat, n: nat) {
    i < |w.s.inodes| && (w.off > w.s.inodes[i].size || w.off + n > MAXFILE * BSIZE)
  }

  /** Every operation from number n on. */
  ghost predicate AllWithin(lay: Layout, txns: seq<set<nat>>, n: nat) {
    n <= |txns| && forall t :: n <= t < |txns| ==> WithinOp(lay, txns[t])
  }

  /** begin_op and ilock: the world is as the others have left it. */
  method TakeUp(f: Files, w: World, ghost owner: map<nat, (nat, nat)>, ghost i: nat)
    requires WorldOk(f.lay, w, owner, i)
    modifies f`bm, f`blocks, f`inodes, f`dinodes, f`owner
    ensures f.Now() == w.s && f.owner == owner && f.Ok() && f.dinodes == f.inodes
  {
    f.bm, f.blocks, f.inodes, f.dinodes := w.s.bm, w.s.blocks, w.s.inodes, w.s.inodes;
    f.owner := owner;
  }

  /** One turn of the loop of filewrite. */
  method Turn(f: Files, i: nat, piece: seq<Byte>, w: World, ghost owner: map<nat, (nat, nat)>)
    returns (r: Outcome, off: nat, ghost t: Txn)
    requires WorldOk(f.lay, w, owner, i) && |piece| <= CHUNK
    modifies f
    ensures r == Done ==> t.pre == w && t.post == World(f.Now(), off) && TxnOk(f.lay, i, t, piece)
    ensures r == Refused ==> Refuses(w, i, |piece|) && off == w.off
    ensures Refuses(w, i, |piece|) ==> r == Refused
    ensures r == OutOfBlocks ==> Full(f.lay, f.bm) && f.txns == old(f.txns)
    ensures r != OutOfBlocks ==> exists x :: WithinOp(f.lay, x) && f.txns == old(f.txns) + [x]
  {
    TakeUp(f, w, owner, i);
    r := f.WriteChunk(i, w.off, piece);
    off := w.off;
    if r == Done {
      off := off + |piece|;
    }
    t := Txn(w, World(f.Now(), off), f.owner);
  }

  /** Where the loop stands after the transactions ts. */
  ghost predicate Sofar(lay: Layout, i: nat, src: seq<Byte>, env: seq<World>, ts: seq<Txn>) {
    && |ts| <= Chunks(|src|) && AllOk(lay, i, ts, src) && Found(ts, env)
    && forall k :: 0 <= k < |ts| ==> !Refuses(env[k], i, |Piece(src, k)|)
  }

  lemma SofarMore(lay: Layout, i: nat, src: seq<Byte>, env: seq<World>, ts: seq<Txn>, t: Txn)
    requires Sofar(lay, i, src, env, ts) && |ts| < Chunks(|src|) == |env| && t.pre == env[|ts|]
    requires TxnOk(lay, i, t, Piece(src, |ts|)) && !Refuses(env[|ts|], i, |Piece(src, |ts|)|)
    ensures Sofar(lay, i, src, env, ts + [t])
  {
    var us := ts + [t];
    forall k: nat | k < |us| ensures TxnOk(lay, i, us[k], Piece(src, k)) {
      if k < |ts| { assert TxnOk(lay, i, ts[k], Piece(src, k)); }
    }
  }

  lemma AtChunk(src: seq<Byte>, w: nat, k: nat)
    requires w == Cut(|src|, k) < |src|
    ensures k < Chunks(|src|) && w / CHUNK == k
    ensures var n := Min(|src| - w, CHUNK); 0 < n && Piece(src, k) == src[w..w + n] && w + n == Cut(|src|, k + 1)
  {
    LastChunk(|src|, k);
  }

  lemma WithinMore(lay: Layout, txns: seq<set<nat>>, n: nat, x: set<nat>)
    requires AllWithin(lay, txns, n) && WithinOp(lay, x)
    ensures AllWithin(lay, txns + [x], n)
  {}

  /** All the bytes, if nobody came between. */
  ghost predicate OneWrite(lay: Layout, i: nat, ts: seq<Txn>, src: seq<Byte>) {
    |ts| > 0 && Quiet(ts) ==>
      && Wrote(lay, ts[0].pre.s, ts[|ts| - 1].post.s, ts[|ts| - 1].owner, i, ts[0].pre.off, src)
      && ts[|ts| - 1].post.off == ts[0].pre.off + |src|
  }

  lemma AllWritten(lay: Layout, i: nat, src: seq<Byte>, env: seq<World>, ts: seq<Txn>)
    requires Sofar(lay, i, src, env, ts) && Cut(|src|, |ts|) == |src|
    ensures |ts| == Chunks(|src|) && OneWrite(lay, i, ts, src)
  {
    LastChunk(|src|, |ts|);
    if |ts| > 0 && Quiet(ts) {
      QuietWrite(lay, i, ts, src, |ts|);
      assert src[..|src|] == src;
    }
  }

  /** filewrite to an inode; Done and Refused are the return values n and -1. Every transaction
      splices its bytes in at the offset it finds and keeps within what begin_op has reserved;
      the first one that writei refuses ends the write. If nobody comes between them, the
      transactions together are one write. */
  method Filewrite(f: Files, i: nat, src: seq<Byte>, env: seq<World>, ghost owners: seq<map<nat, (nat, nat)>>)
    returns (r: Outcome, ghost ts: seq<Txn>)
    requires |env| == |owners| == Chunks(|src|) && forall k :: 0 <= k < |env| ==> WorldOk(f.lay, env[k], owners[k], i)
    modifies f
    ensures Sofar(f.lay, i, src, env, ts)
    ensures r == Done ==> |ts| == Chunks(|src|) && OneWrite(f.lay, i, ts, src)
    ensures r == Refused ==> |ts| < Chunks(|src|) && Refuses(env[|ts|], i, |Piece(src, |ts|)|)
    ensures r == OutOfBlocks ==> |ts| < Chunks(|src|) && Full(f.lay, f.bm)
    ensures AllWithin(f.lay, f.txns, |old(f.txns)|)
  {
    ts := [];
    ghost var n0 := |f.txns|;
    var w := 0;
    while w < |src|
      invariant w == Cut(|src|, |ts|) && Sofar(f.lay, i, src, env, ts) && AllWithin(f.lay, f.txns, n0)
      decreases |src| - w
    {
      var n1 := Min(|src| - w, CHUNK);
      AtChunk(src, w, |ts|);
      var piece := src[w..w + n1];
      assert piece == Piece(src, |ts|);
      ghost var was := f.txns;
      ghost var t;
      var off;
      r, off, t := Turn(f, i, piece, env[w / CHUNK], owners[w / CHUNK]);
      if r != OutOfBlocks {
        ghost var x :| WithinOp(f.lay, x) && f.txns == was + [x];
        WithinMore(f.lay, was, n0, x);
      }
      if r != Done {
        return;
      }
      SofarMore(f.lay, i, src, env, ts, t);
      ts := ts + [t];
      w := w + n1;
    }
    AllWritten(f.lay, i, src, env, ts);
    r := Done;
  }
}
