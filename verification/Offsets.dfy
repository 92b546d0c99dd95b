/** Offsets into memory laid out in rows of one size. */
module Offsets {

  /** `k` rows of `size` entries. */
  function Offset(k: nat, size: nat): nat {
    k * size
  }

  lemma OffsetNext(k: nat, size: nat)
    ensures Offset(k + 1, size) == Offset(k, size) + size
    ensures Offset(0, size) == 0
  {
  }

  lemma OffsetSum(a: nat, b: nat, size: nat)
    ensures Offset(a + b, size) == Offset(a, size) + Offset(b, size)
  {
  }

  lemma OffsetMonotone(a: nat, b: nat, size: nat)
    requires a < b
    ensures Offset(a, size) + size <= Offset(b, size)
  {
    var d := b - a - 1;
    OffsetSum(a, 1 + d, size);
    OffsetSum(1, d, size);
  }

  /** Every position lies in one row. */
  lemma Remainder(at: nat, size: nat)
    requires size >= 1
    ensures at % size <= at && at % size < size && at == Offset(at / size, size) + at % size
  {
  }

  /** Dividing an offset within row `k` gives back the row and the position in it. */
  lemma OffsetDivides(k: nat, size: nat, r: nat)
    requires r < size
    ensures (Offset(k, size) + r) / size == k && (Offset(k, size) + r) % size == r
  {
    var q, s := (Offset(k, size) + r) / size, (Offset(k, size) + r) % size;
    assert Offset(q, size) + s == Offset(k, size) + r;
    if q < k {
      OffsetMonotone(q, k, size);
    } else if q > k {
      OffsetMonotone(k, q, size);
    }
  }

  /** Index of the chunk that starts `block` blocks behind the chunk boundary `off`. */
  lemma ChunkIndex(off: nat, block: nat, cb: nat, c: nat, j: nat)
    requires cb >= 1 && off == Offset(c, cb) && block == Offset(j, cb)
    ensures (off + block) / cb == c + j
  {
    OffsetSum(c, j, cb);
    OffsetDivides(c + j, cb, 0);
  }
}
