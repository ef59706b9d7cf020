/** The loops of kernel/proc.c over the process table, run with ptable.lock held. */
module ProcessTable {
  import opened Options
  import opened Processes

  class Table {
    const procs: array<Proc>

    constructor (n: nat)
      ensures fresh(procs) && procs.Length == n && forall p :: 0 <= p < n ==> procs[p] == NO_PROC
    {
      procs := new Proc[n](_ => NO_PROC);
    }

    method Wakeup1(chan: Chan)
      modifies procs
      ensures procs[..] == Wake(old(procs[..]), chan)
    {
      for p := 0 to procs.Length
        invariant forall q :: 0 <= q < p ==> procs[q] == Woken(old(procs[q]), chan)
        invariant forall q :: p <= q < procs.Length ==> procs[q] == old(procs[q])
      {
        if procs[p].status == Sleeping(chan) {
          procs[p] := procs[p].(status := Runnable);
        }
      }
    }

    /** exit's loop over the table. */
    method AbandonChildren(cur: nat)
      modifies procs
      ensures procs[..] == Reparent(old(procs[..]), cur)
    {
      ghost var was := procs[..];
      ghost var woke := false;
      for p := 0 to procs.Length
        invariant woke <==> exists k :: 0 <= k < p && ZombieChild(was, cur, k)
        invariant forall q :: 0 <= q < procs.Length ==> procs[q] == Passed(was[q], cur, woke, q < p)
      {
        if procs[p].parent == Some(cur) {
          procs[p] := procs[p].(parent := Some(INITPROC));
          if procs[p].status == Zombie {
            assert ZombieChild(was, cur, p);
            woke := true;
            Wakeup1(WaitOf(INITPROC));
          }
        }
      }
    }

    /** wait's scan: the first zombie child, and whether there is any child at all. */
    method ScanChildren(cur: nat) returns (zombie: Option<nat>, havekids: bool)
      ensures zombie.Some? ==> ZombieChild(procs[..], cur, zombie.value)
                               && forall j :: 0 <= j < zombie.value ==> !ZombieChild(procs[..], cur, j)
      ensures zombie == None ==> !HasZombie(procs[..], cur) && (havekids <==> HasChild(procs[..], cur))
    {
      havekids := false;
      for p := 0 to procs.Length
        invariant forall j :: 0 <= j < p ==> !ZombieChild(procs[..], cur, j)
        invariant havekids <==> exists k :: 0 <= k < p && procs[..][k].parent == Some(cur)
      {
        assert procs[..][p] == procs[p];
        if procs[p].parent == Some(cur) {
          havekids := true;
          if procs[p].status == Zombie {
            return Some(p), true;
          }
        }
      }
      zombie := None;
    }
  }
}
