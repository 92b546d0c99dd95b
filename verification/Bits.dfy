/** Powers of two and the single-bit index arithmetic of the butterfly layers.
    A bit is named by its position `b`, so `1 << b` never appears as a number. */
module Bits {

  function Pow2(k: nat): (p: nat)
    ensures p >= 1
  {
    if k == 0 then 1 else 2 * Pow2(k - 1)
  }

  lemma {:induction false} Pow2Monotone(a: nat, b: nat)
    requires a <= b
    ensures Pow2(a) <= Pow2(b)
    decreases b
  {
    if a < b {
      Pow2Monotone(a, b - 1);
    }
  }

  /** Bit `b` of `i`. */
  predicate IsSet(i: nat, b: nat) {
    if b == 0 then i % 2 == 1 else IsSet(i / 2, b - 1)
  }

  /** `i ^ (1 << b)` */
  function Flip(i: nat, b: nat): nat {
    if b == 0 then (if i % 2 == 1 then i - 1 else i + 1) else 2 * Flip(i / 2, b - 1) + i % 2
  }

  /** `i & ~(1 << b)` */
  function Clear(i: nat, b: nat): nat {
    if b == 0 then i - i % 2 else 2 * Clear(i / 2, b - 1) + i % 2
  }

  /** `i | (1 << b)` */
  function Set(i: nat, b: nat): nat {
    if b == 0 then i - i % 2 + 1 else 2 * Set(i / 2, b - 1) + i % 2
  }

  /** `i` and `j` agree on their lowest `b` bits. */
  predicate Agree(i: nat, j: nat, b: nat) {
    b == 0 || (i % 2 == j % 2 && Agree(i / 2, j / 2, b - 1))
  }

  /** Flipping a bit is an involution without fixed points; of a flipped pair,
      the index with the bit cleared is the smaller one. */
  lemma {:induction false} FlipLaws(i: nat, b: nat)
    ensures Flip(i, b) != i
    ensures Flip(Flip(i, b), b) == i
    ensures IsSet(Flip(i, b), b) != IsSet(i, b)
    ensures Clear(i, b) < Set(i, b)
    ensures Clear(i, b) == if IsSet(i, b) then Flip(i, b) else i
    ensures Set(i, b) == if IsSet(i, b) then i else Flip(i, b)
  {
    if b > 0 {
      FlipLaws(i / 2, b - 1);
      assert Flip(i, b) / 2 == Flip(i / 2, b - 1) && Flip(i, b) % 2 == i % 2;
    }
  }

  /** A layer of width 2^dim is closed under flipping any of its bits. */
  lemma {:induction false} FlipInLayer(i: nat, b: nat, dim: nat)
    requires b < dim && i < Pow2(dim)
    ensures Flip(i, b) < Pow2(dim)
  {
    if b > 0 {
      assert i / 2 < Pow2(dim - 1);
      FlipInLayer(i / 2, b - 1, dim - 1);
      assert Flip(i, b) == 2 * Flip(i / 2, b - 1) + i % 2;
    }
  }

  /** Agreement on b bits extends to b + 1 bits either directly or after flipping bit b. */
  lemma {:induction false} AgreeOrFlip(i: nat, j: nat, b: nat)
    requires Agree(i, j, b)
    ensures Agree(i, j, b + 1) || Agree(i, Flip(j, b), b + 1)
  {
    if b > 0 {
      AgreeOrFlip(i / 2, j / 2, b - 1);
      assert Flip(j, b) / 2 == Flip(j / 2, b - 1) && Flip(j, b) % 2 == j % 2;
    }
  }

  /** Indices of one layer that agree on all bits are equal. */
  lemma {:induction false} AgreeAll(i: nat, j: nat, dim: nat)
    requires i < Pow2(dim) && j < Pow2(dim)
    ensures Agree(i, j, dim) <==> i == j
  {
    if dim > 0 {
      AgreeAll(i / 2, j / 2, dim - 1);
    }
  }

  /** Flipping bit b above b agreeing bits: exactly one of the two candidates agrees one bit further. */
  lemma {:induction false} AgreeExclusive(i: nat, j: nat, b: nat)
    ensures Agree(i, j, b + 1) ==> Agree(i, j, b) && !Agree(i, Flip(j, b), b + 1)
    ensures Agree(i, Flip(j, b), b + 1) ==> Agree(i, j, b)
  {
    if b > 0 {
      AgreeExclusive(i / 2, j / 2, b - 1);
      assert Flip(j, b) / 2 == Flip(j / 2, b - 1) && Flip(j, b) % 2 == j % 2;
    }
  }

  /** Flipping the same bit on both sides keeps agreement. */
  lemma {:induction false} AgreeFlipBoth(i: nat, j: nat, b: nat)
    requires Agree(i, j, b + 1)
    ensures Agree(Flip(i, b), Flip(j, b), b + 1)
  {
    if b > 0 {
      AgreeFlipBoth(i / 2, j / 2, b - 1);
      assert Flip(j, b) / 2 == Flip(j / 2, b - 1) && Flip(j, b) % 2 == j % 2;
      assert Flip(i, b) / 2 == Flip(i / 2, b - 1) && Flip(i, b) % 2 == i % 2;
    }
  }

  function Max(a: nat, b: nat): (m: nat)
    ensures m >= a && m >= b && (m == a || m == b)
  {
    if a >= b then a else b
  }

  function Min(a: nat, b: nat): (m: nat)
    ensures m <= a && m <= b && (m == a || m == b)
  {
    if a <= b then a else b
  }
}
