/** Go's int64 arithmetic on top of unbounded integers. */
module Int64 {
  const TWO63: int := 0x8000_0000_0000_0000
  const TWO64: int := 2 * TWO63
  const MAX: int := TWO63 - 1

  predicate Fits(x: int) {
    -TWO63 <= x < TWO63
  }

  /** The int64 that a 64-bit addition or subtraction with exact result `x` leaves. */
  function Wrap(x: int): (r: int)
    ensures Fits(r)
    ensures Fits(x) ==> r == x
    ensures 0 <= x ==> r <= x
    decreases if x < 0 then -x else x + 1
  {
    if x < -TWO63 then Wrap(x + TWO64)
    else if x >= TWO63 then Wrap(x - TWO64)
    else x
  }

  /** Wrapping early or late makes no difference. */
  lemma {:induction false} WrapLate(x: int, y: int)
    ensures Wrap(Wrap(x) + y) == Wrap(x + y)
    decreases if x < 0 then -x else x + 1
  {
    if x < -TWO63 {
      WrapLate(x + TWO64, y);
      WrapTurn(x + y);
    } else if x >= TWO63 {
      WrapLate(x - TWO64, y);
      WrapTurn(x + y - TWO64);
    }
  }

  lemma WrapTurn(x: int)
    ensures Wrap(x + TWO64) == Wrap(x)
  {
    if -TWO64 <= x < -TWO63 {
    } else if x < -TWO64 {
    }
  }

  /** Moving by less than 2^64 always shows. */
  lemma {:induction false} WrapDistinct(x: int, k: int)
    requires 0 < k < TWO64
    ensures Wrap(x) != Wrap(x - k)
    decreases if x < 0 then -x else x + 1
  {
    if x < -TWO63 {
      WrapDistinct(x + TWO64, k);
      WrapTurn(x - k);
    } else if x >= TWO63 {
      WrapDistinct(x - TWO64, k);
      WrapTurn(x - k - TWO64);
    } else {
      WrapTurn(x - k);
    }
  }
}
