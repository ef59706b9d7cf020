/** The free-block bitmap of kernel/fs.c, bit by bit: block b is bit b % 8 of byte b / 8 of the
    bitmap blocks laid end to end. */
module BlockBits {

  /** Bits in one bitmap block. */
  const BPB: nat := 4096

  /** 1 << i */
  function Mask(i: nat): bv8
    requires i < 8
  {
    if i == 0 then 1 else if i == 1 then 2 else if i == 2 then 4 else if i == 3 then 8
    else if i == 4 then 16 else if i == 5 then 32 else if i == 6 then 64 else 128
  }

  predicate Bit(x: bv8, i: nat)
    requires i < 8
  {
    x & Mask(i) != 0
  }

  predicate Used(bm: seq<bv8>, b: nat) {
    b / 8 < |bm| && Bit(bm[b / 8], b % 8)
  }

  function Mark(bm: seq<bv8>, b: nat): seq<bv8>
    requires b / 8 < |bm|
  {
    bm[b / 8 := bm[b / 8] | Mask(b % 8)]
  }

  function Clear(bm: seq<bv8>, b: nat): seq<bv8>
    requires b / 8 < |bm|
  {
    bm[b / 8 := bm[b / 8] & !Mask(b % 8)]
  }

  lemma MarkBit(x: bv8, i: nat, j: nat)
    requires i < 8 && j < 8
    ensures Bit(x | Mask(i), j) <==> i == j || Bit(x, j)
  {}

  lemma ClearBit(x: bv8, i: nat, j: nat)
    requires i < 8 && j < 8
    ensures Bit(x & !Mask(i), j) <==> i != j && Bit(x, j)
  {}

  lemma Split(b: nat, c: nat)
    requires b / 8 == c / 8 && b % 8 == c % 8
    ensures b == c
  {}

  /** Setting a bit marks that block and no other. */
  lemma MarkOnly(bm: seq<bv8>, b: nat)
    requires b / 8 < |bm|
    ensures |Mark(bm, b)| == |bm|
    ensures forall c: nat :: Used(Mark(bm, b), c) <==> c == b || Used(bm, c)
  {
    forall c: nat ensures Used(Mark(bm, b), c) <==> c == b || Used(bm, c) {
      if c / 8 == b / 8 {
        MarkBit(bm[b / 8], b % 8, c % 8);
        if c % 8 == b % 8 { Split(b, c); }
      }
    }
  }

  /** Clearing a bit frees that block and no other. */
  lemma ClearOnly(bm: seq<bv8>, b: nat)
    requires b / 8 < |bm|
    ensures |Clear(bm, b)| == |bm|
    ensures forall c: nat :: Used(Clear(bm, b), c) <==> c != b && Used(bm, c)
  {
    forall c: nat ensures Used(Clear(bm, b), c) <==> c != b && Used(bm, c) {
      if c / 8 == b / 8 {
        ClearBit(bm[b / 8], b % 8, c % 8);
        if c % 8 == b % 8 { Split(b, c); }
      }
    }
  }

  /** Bit bi of bitmap block q, in byte bi / 8 of that block, is the bit of block q * BPB + bi. */
  lemma InBlock(q: nat, bi: nat)
    requires bi < BPB
    ensures (q * BPB + bi) / BPB == q && (q * BPB + bi) / 8 == q * (BPB / 8) + bi / 8 && (q * BPB + bi) % 8 == bi % 8
  {
    assert bi == bi / 8 * 8 + bi % 8;
    var x := q * 512 + bi / 8;
    assert q * BPB + bi == x * 8 + bi % 8;
  }
}
