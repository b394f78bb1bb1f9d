/** Unsigned 64-bit arithmetic of the counters. */
module Unsigned {
  const U64 := 0x1_0000_0000_0000_0000

  function Wrap(x: int): (r: nat)
    ensures r < U64
  {
    x % U64
  }

  lemma InRange(x: int)
    requires 0 <= x < U64
    ensures Wrap(x) == x
  {
  }

  lemma {:induction false} WrapAdds(x: int, y: int)
    ensures Wrap(x + Wrap(y)) == Wrap(x + y)
  {
    var q := y / U64;
    assert x + y == x + Wrap(y) + q * U64;
  }
}
