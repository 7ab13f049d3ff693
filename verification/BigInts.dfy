/** Go's mutable big integers, as far as the scanners use them: the receiver is overwritten. */
module BigInts {
  import opened Messages

  class BigInt {
    var v: int

    constructor (n: int)
      ensures v == n
    {
      v := n;
    }

    /** `x.Add(a, b)`; a and b may be the receiver itself. */
    method Add(a: BigInt, b: BigInt)
      modifies this
      ensures v == old(a.v) + old(b.v)
    {
      v := a.v + b.v;
    }

    method Sub(a: BigInt, b: BigInt)
      modifies this
      ensures v == old(a.v) - old(b.v)
    {
      v := a.v - b.v;
    }

    /** `Cmp`: -1, 0 or 1. */
    method Cmp(b: BigInt) returns (r: int)
      ensures -1 <= r <= 1 && (r == -1 <==> v < b.v) && (r == 1 <==> v > b.v)
    {
      r := if v < b.v then -1 else if v == b.v then 0 else 1;
    }
  }

  /** The position of a scanner whose start block is such a number, or not set yet. */
  ghost function Position(block: BigInt?): (pos: Option<nat>)
    requires block != null ==> block.v >= 0
    reads if block == null then {} else {block}
  {
    if block == null then None else Some(block.v)
  }
}
