/**
 The work split of `Boruvka::BoruvkaIteration` (boruvka_lib/boruvka.cpp): the
 edge indices `[0, |edges|)` and the vertex ids `[0, n)` are each cut into
 `workers` contiguous blocks of length `ceil(total / workers)`; the last blocks
 may be short or empty, and a block whose start exceeds the total is empty.
 */
module Blocks {

  /** `(total + workers - 1) / workers`. */
  function BlockLength(total: nat, workers: nat): nat
    requires workers >= 1
  {
    (total + workers - 1) / workers
  }

  function Min(a: nat, b: nat): nat {
    if a <= b then a else b
  }

  /** `i * blockLen`. */
  function BlockStart(i: nat, len: nat): nat {
    i * len
  }

  /** `std::min((i + 1) * blockLen, total)`. */
  function BlockEnd(i: nat, len: nat, total: nat): nat {
    Min((i + 1) * len, total)
  }

  predicate InBlock(x: nat, i: nat, len: nat, total: nat) {
    BlockStart(i, len) <= x < BlockEnd(i, len, total)
  }

  /** `x` lies in one of the blocks `0 .. workers - 1`. */
  ghost predicate InSomeBlock(x: nat, workers: nat, len: nat, total: nat) {
    exists i: nat :: i < workers && InBlock(x, i, len, total)
  }

  /** The part `[0, Prefix(w))` of the range covered by the blocks before block `w`. */
  function Prefix(w: nat, len: nat, total: nat): nat {
    Min(w * len, total)
  }

  lemma MulLeftMonotone(a: nat, b: nat, c: nat)
    requires a <= b
    ensures a * c <= b * c
  {
  }

  /** `workers` blocks are long enough to hold the whole range. */
  lemma BlocksLongEnough(total: nat, workers: nat)
    requires workers >= 1
    ensures workers * BlockLength(total, workers) >= total
    ensures total > 0 ==> BlockLength(total, workers) >= 1
  {
    var len := BlockLength(total, workers);
    var s := total + workers - 1;
    assert s == workers * len + s % workers;
    assert s % workers < workers;
  }

  /** Block `w` continues exactly where the blocks before it stopped, or is empty. */
  lemma BlockStep(w: nat, len: nat, total: nat)
    ensures Prefix(w, len, total) <= Prefix(w + 1, len, total) <= total
    ensures BlockStart(w, len) <= total ==>
      BlockStart(w, len) == Prefix(w, len, total) && BlockEnd(w, len, total) == Prefix(w + 1, len, total)
    ensures BlockStart(w, len) > total ==>
      Prefix(w, len, total) == total && Prefix(w + 1, len, total) == total && BlockEnd(w, len, total) == total
  {
    assert (w + 1) * len == w * len + len;
  }

  lemma PrefixCoversAll(total: nat, workers: nat)
    requires workers >= 1
    ensures Prefix(workers, BlockLength(total, workers), total) == total
  {
    BlocksLongEnough(total, workers);
  }

  /** Every index of `[0, total)` lies in block `x / len`, one of the `workers` blocks. */
  lemma BlocksCover(total: nat, workers: nat, x: nat)
    requires workers >= 1 && x < total
    ensures var len := BlockLength(total, workers); 0 < len && x / len < workers && InBlock(x, x / len, len, total)
  {
    var len := BlockLength(total, workers);
    BlocksLongEnough(total, workers);
    var i := x / len;
    assert x == i * len + x % len;
    assert i * len <= x < (i + 1) * len by {
      assert (i + 1) * len == i * len + len;
    }
    if i >= workers {
      MulLeftMonotone(workers, i, len);
    }
  }

  /** No index lies in two different blocks. */
  lemma BlocksDisjoint(len: nat, total: nat, x: nat, i: nat, j: nat)
    requires InBlock(x, i, len, total) && InBlock(x, j, len, total)
    ensures i == j
  {
    if i < j {
      MulLeftMonotone(i + 1, j, len);
    } else if j < i {
      MulLeftMonotone(j + 1, i, len);
    }
  }

  /** The `workers` blocks are pairwise disjoint and cover `[0, total)`; a block
      starting at or past `total` is empty. */
  lemma BlocksPartition(total: nat, workers: nat)
    requires workers >= 1
    ensures var len := BlockLength(total, workers);
      forall x: nat :: x < total ==> InSomeBlock(x, workers, len, total)
    ensures var len := BlockLength(total, workers);
      forall x: nat, i: nat, j: nat :: InBlock(x, i, len, total) && InBlock(x, j, len, total) ==> i == j
    ensures var len := BlockLength(total, workers);
      forall i: nat :: BlockStart(i, len) >= total ==> BlockEnd(i, len, total) <= BlockStart(i, len)
  {
    var len := BlockLength(total, workers);
    forall x: nat | x < total
      ensures InSomeBlock(x, workers, len, total)
    {
      BlocksCover(total, workers, x);
    }
    forall x: nat, i: nat, j: nat | InBlock(x, i, len, total) && InBlock(x, j, len, total)
      ensures i == j
    {
      BlocksDisjoint(len, total, x, i, j);
    }
  }
}
