/** What several parts of the model share. */
module Basics {

  /** The values of a 32-bit word. */
  const WORD: nat := 0x1_0000_0000

  /** The inode of the root directory. */
  const ROOTINO: nat := 1

  type Pid = nat

  function Min(a: nat, b: nat): nat {
    if a < b then a else b
  }

  function Max(a: nat, b: nat): nat {
    if a < b then b else a
  }

  /** The place after i on a circle of n. */
  function Succ(n: nat, i: nat): nat {
    if i + 1 == n then 0 else i + 1
  }

  ghost predicate Distinct(s: seq<nat>) {
    forall i, j :: 0 <= i < j < |s| ==> s[i] != s[j]
  }
}
