/** Addressing of one layer of a butterfly, shared by the two emitters. */
module RowSources {
  import Bits

  /** Where a row of nodes finds its predecessors, as addresses in memory. */
  datatype RowSource = Unary(inputs: nat) | Cross(prev: nat, bit: nat) | Join(primary: nat, ingress: nat) {
    /** All addresses read by a row of width 2^dim lie below `top`. */
    predicate Below(dim: nat, top: nat) {
      match this
      case Unary(p) => p + Bits.Pow2(dim) <= top
      case Cross(p, b) => b < dim && p + Bits.Pow2(dim) <= top
      case Join(p, q) => p + Bits.Pow2(dim) <= top && q + Bits.Pow2(dim) <= top
    }

    /** No address read by the row lies in its destination. */
    predicate Apart(dim: nat, dst: nat) {
      match this
      case Unary(p) => p + Bits.Pow2(dim) <= dst || dst + Bits.Pow2(dim) <= p
      case Cross(p, _) => p + Bits.Pow2(dim) <= dst || dst + Bits.Pow2(dim) <= p
      case Join(p, q) =>
        (p + Bits.Pow2(dim) <= dst || dst + Bits.Pow2(dim) <= p)
          && (q + Bits.Pow2(dim) <= dst || dst + Bits.Pow2(dim) <= q)
    }
  }
}
