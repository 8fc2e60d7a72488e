/** The withdrawal fee schedule: division-first arithmetic on int64, clamped to a cap and a minimum. */
module Fees {
  import opened Int64
  import opened Arithmetic

  /** Basis points in a whole. */
  const WHOLE: int := 10_000

  function Min(x: int, y: int): int {
    if x < y then x else y
  }

  function Max(x: int, y: int): int {
    if x < y then y else x
  }

  /**
   The fee as documented: max(min(amount * bps / 10000, cap), min), never
   negative, 0 when there is nothing to charge.
   */
  function Fee(amount: int, bps: int, min: int, cap: int): int {
    if amount <= 0 || bps <= 0 then 0 else Max(Max(Min(amount * bps / 10_000, cap), min), 0)
  }

  /** Dividing before multiplying loses nothing: the remainder is charged separately. */
  lemma DivideFirst(amount: nat, bps: nat)
    ensures amount / WHOLE * bps + amount % WHOLE * bps / WHOLE == amount * bps / 10_000
    ensures amount / WHOLE * bps <= amount * bps / WHOLE
  {
    var q, r := amount / WHOLE, amount % WHOLE;
    Distribute(q * WHOLE, r, bps);
    Regroup(q, bps);
    AddWholes(r * bps, q * bps);
  }

  lemma Regroup(q: int, k: int)
    ensures q * WHOLE * k == q * k * WHOLE
  {
  }

  lemma AddWholes(x: nat, n: nat)
    ensures (x + n * WHOLE) / WHOLE == n + x / WHOLE
  {
  }

  /** Up to 100% no step of the computation leaves int64, whatever the amount. */
  lemma NoOverflow(amount: int, bps: int)
    requires 0 < amount && Fits(amount) && 0 < bps <= WHOLE
    ensures Fits(amount / WHOLE * bps) && Fits(amount % WHOLE * bps) && Fits(amount * bps / WHOLE)
  {
    var q, r := amount / WHOLE, amount % WHOLE;
    MulMono(bps, WHOLE, q);
    MulMono(bps, WHOLE, r);
    MulMono(bps, WHOLE, amount);
    MulMono(0, q, bps);
    MulMono(0, r, bps);
    DivideFirst(amount, bps);
  }

  /** Go's division of int64 values truncates toward zero. */
  function Quo(x: int): int {
    if x < 0 then -(-x / WHOLE) else x / WHOLE
  }

  /** The unclamped fee as int64 arithmetic computes it. */
  function Raw(amount: int, bps: int): int {
    Wrap(Wrap(Quo(amount) * bps) + Quo(Wrap((amount - WHOLE * Quo(amount)) * bps)))
  }

  lemma RawExact(amount: int, bps: int)
    requires 0 < amount && Fits(amount) && 0 < bps <= WHOLE
    ensures Raw(amount, bps) == amount * bps / 10_000
  {
    NoOverflow(amount, bps);
    DivideFirst(amount, bps);
    MulMono(0, amount % WHOLE, bps);
  }

  /** A rate is priced exactly for every int64 amount if and only if it is at most 100%. */
  lemma ExactForAllAmountsIff(bps: int)
    requires 0 < bps
    ensures (forall amount: int :: 0 < amount && Fits(amount) ==> Raw(amount, bps) == amount * bps / 10_000) <==>
            bps <= 10_000
  {
    if bps <= WHOLE {
      forall amount: int | 0 < amount && Fits(amount) ensures Raw(amount, bps) == amount * bps / 10_000 {
        RawExact(amount, bps);
      }
    } else {
      MulMono(WHOLE + 1, bps, MAX);
      assert MAX * (WHOLE + 1) / WHOLE > MAX;
      assert Fits(Raw(MAX, bps));
      DivMono(MAX * (WHOLE + 1), MAX * bps);
    }
  }

  lemma DivMono(x: int, y: int)
    requires x <= y
    ensures x / WHOLE <= y / WHOLE
  {
  }

  method ComputeWithdrawalFee(amountMinor: int, bps: int, minMinor: int, capMinor: int) returns (raw: int)
    requires Fits(amountMinor) && Fits(bps) && Fits(minMinor) && Fits(capMinor)
    ensures bps <= 10_000 ==> raw == Fee(amountMinor, bps, minMinor, capMinor)
    ensures amountMinor > 0 && bps > 10_000 ==> raw == Max(Max(Min(Raw(amountMinor, bps), capMinor), minMinor), 0)
    ensures amountMinor <= 0 ==> raw == 0
  {
    if amountMinor <= 0 || bps <= 0 {
      return 0;
    }
    raw := Raw(amountMinor, bps);
    if bps <= WHOLE {
      RawExact(amountMinor, bps);
    }
    if raw > capMinor {
      raw := capMinor;
    }
    if raw < minMinor {
      raw := minMinor;
    }
    if raw < 0 {
      raw := 0;
    }
  }

  /** With 0 <= min <= cap a charged fee stays between them. */
  lemma FeeInRange(amount: int, bps: int, min: int, cap: int)
    requires 0 <= min <= cap && amount > 0 && bps > 0
    ensures min <= Fee(amount, bps, min, cap) <= cap
  {
  }

  lemma FeeMonotone(a: int, b: int, bps: int, min: int, cap: int)
    requires a <= b
    ensures Fee(a, bps, min, cap) <= Fee(b, bps, min, cap)
  {
    if bps > 0 {
      MulMono(a, b, bps);
      DivMono(a * bps, b * bps);
    }
  }

  /** Splitting a withdrawal in two never saves more than one kobo. */
  lemma SplitSavesAtMostOne(a: int, b: int, bps: int, min: int, cap: int)
    ensures Fee(a + b, bps, min, cap) <= Fee(a, bps, min, cap) + Fee(b, bps, min, cap) + 1
  {
    if a <= 0 {
      FeeMonotone(a + b, b, bps, min, cap);
    } else if b <= 0 {
      FeeMonotone(a + b, a, bps, min, cap);
    } else if bps > 0 {
      Distribute(a, b, bps);
      MulMono(0, a, bps);
      MulMono(0, b, bps);
      FloorsAddWithin(a * bps, b * bps);
    }
  }

  lemma FloorsAddWithin(x: nat, y: nat)
    ensures x / WHOLE + y / WHOLE <= (x + y) / WHOLE <= x / WHOLE + y / WHOLE + 1
  {
  }

  /** The bound is reached: 1 kobo is saved where both remainders are lost. */
  lemma SplitCanSaveOne(cap: int)
    requires cap >= 1
    ensures Fee(5_000 + 5_000, 1, 0, cap) == Fee(5_000, 1, 0, cap) + Fee(5_000, 1, 0, cap) + 1
  {
  }
}
