/** Exact money arithmetic (domain/money) and conversion quotes. */
module Quote {
  import opened Int64
  import opened Arithmetic

  const MINOR_UNIT: int := 100

  datatype Rate = Rate(rate: int, feeBps: int, minMinor: int, maxMinor: int) {
    predicate WellTyped() {
      Fits(rate) && Fits(feeBps) && Fits(minMinor) && Fits(maxMinor)
    }
  }

  datatype QuoteRow = QuoteRow(input: int, fee: int, output: int)

  datatype Quoted = Success(value: QuoteRow) | Failure

  datatype Ratio = Ok(minor: int) | Overflow | DivideByZero

  function Abs(x: int): nat {
    if x < 0 then -x else x
  }

  /** Quotient truncated toward zero, as big.Int.QuoRem gives it. */
  function Quo(n: int, d: int): int
    requires d != 0
  {
    var q := Abs(n) / Abs(d);
    if (n < 0) == (d < 0) then q else -q
  }

  /** The truncated quotient, moved one away from zero on a remainder of at least half. */
  function Rounded(n: int, den: int): int
    requires den != 0
  {
    var q := Quo(n, den);
    var r := n - q * den;
    if 2 * Abs(r) < Abs(den) then q else if n >= 0 then q + 1 else q - 1
  }

  /** m * num / den. */
  function MulRatio(m: int, num: int, den: int): Ratio {
    if den == 0 then DivideByZero
    else if num == 0 || m == 0 then Ok(0)
    else if Fits(Rounded(m * num, den)) then Ok(Rounded(m * num, den))
    else Overflow
  }

  /** Out-of-range basis points are refused. */
  function Percent(m: int, bps: int): Ratio {
    if bps < 0 || bps > 10000 then Overflow else MulRatio(m, bps, 10000)
  }

  /** Money.Sub reports a wrapped difference as an overflow. */
  function Sub(m: int, k: int): Ratio {
    var d := Wrap(m - k);
    if (d < m) != (k > 0) then Overflow else Ok(d)
  }

  /** `rate` is NGN minor units per stablecoin major unit, in both directions. */
  function ConvertCross(base: int, rate: int, fromCurrency: string, toCurrency: string): Ratio {
    if rate <= 0 then DivideByZero
    else if toCurrency == "NGN" then MulRatio(base, rate, MINOR_UNIT)
    else if fromCurrency == "NGN" then MulRatio(base, MINOR_UNIT, rate)
    else DivideByZero
  }

  function QuoteConversion(amount: int, r: Rate, fromCurrency: string, toCurrency: string): Quoted {
    if amount <= 0 || r.rate <= 0 || amount < r.minMinor || amount > r.maxMinor then Failure
    else
      match Percent(amount, r.feeBps)
      case Overflow => Failure
      case DivideByZero => Failure
      case Ok(fee) =>
        match Sub(amount, fee)
        case Overflow => Failure
        case DivideByZero => Failure
        case Ok(net) =>
          match ConvertCross(net, r.rate, fromCurrency, toCurrency)
          case Overflow => Failure
          case DivideByZero => Failure
          case Ok(output) => Success(QuoteRow(amount, fee, output))
  }

  // ---- Rounding ----

  /** `q` is the integer nearest to n/d, a tie going away from zero. */
  ghost predicate Nearest(q: int, n: int, d: int) {
    if n >= 0 then 2 * (q * d) - d <= 2 * n < 2 * (q * d) + d
    else 2 * (-q * d) - d <= -2 * n < 2 * (-q * d) + d
  }

  lemma QuoParts(n: int, d: int)
    requires d != 0
    ensures Abs(n - Quo(n, d) * d) == Abs(n) % Abs(d)
    ensures Abs(n) == Abs(n) / Abs(d) * Abs(d) + Abs(n) % Abs(d)
  {
    DivMod(Abs(n), Abs(d));
    var q := Abs(n) / Abs(d);
    SignedProduct(q, d);
  }

  lemma SignedProduct(q: int, d: int)
    ensures q * d == if d < 0 then -(q * Abs(d)) else q * Abs(d)
    ensures -q * d == if d < 0 then q * Abs(d) else -(q * Abs(d))
  {
  }

  lemma RoundedNearest(n: int, d: int)
    requires d > 0
    ensures Nearest(Rounded(n, d), n, d)
    ensures n >= 0 ==> Rounded(n, d) >= 0
  {
    QuoParts(n, d);
    var q := Abs(n) / d;
    assert (q + 1) * d == q * d + d;
    assert -(q + 1) * d == -(q * d) - d;
  }

  /**
   With a negative denominator the code still moves the quotient by the
   numerator's sign, which is the wrong way: it rounds to nearest exactly when
   no rounding was due.
   */
  lemma NegativeDenominatorNearestIff(n: int, d: int)
    requires d < 0
    ensures Nearest(-Rounded(n, d), n, -d) <==> 2 * (Abs(n) % Abs(d)) < Abs(d)
  {
    QuoParts(n, d);
    var q := Abs(n) / Abs(d);
    assert (q - 1) * -d == q * -d + d;
    assert -(q - 1) * -d == -(q * -d) - d;
    assert (q + 1) * -d == q * -d - d;
    assert -(q + 1) * -d == -(q * -d) + d;
  }

  /** MulRatio rounds m * num / den to nearest for every positive denominator. */
  lemma MulRatioNearest(m: int, num: int, den: int)
    requires den > 0 && MulRatio(m, num, den).Ok?
    ensures Nearest(MulRatio(m, num, den).minor, m * num, den)
    ensures m * num >= 0 ==> MulRatio(m, num, den).minor >= 0
  {
    RoundedNearest(m * num, den);
  }

  lemma NearestMonotone(q: int, n: int, q': int, n': int, d: int)
    requires d > 0 && 0 <= n <= n' && Nearest(q, n, d) && Nearest(q', n', d)
    ensures q <= q'
  {
    assert (q - q') * d == q * d - q' * d;
    assert q - q' >= 1 ==> (q - q') * d >= d;
  }

  // ---- Quotes ----

  /** What a net amount is worth at `rate` kobo per 100 units, exactly: a numerator over a denominator. */
  function WorthNum(net: int, rate: int, toCurrency: string): int {
    if toCurrency == "NGN" then net * rate else net * 100
  }

  function WorthDen(rate: int, toCurrency: string): int {
    if toCurrency == "NGN" then 100 else rate
  }

  /**
   A quote splits the input into fee and net without losing a unit; the fee
   is the nearest integer to its exact share and the output the nearest
   integer to what the net is worth.
   */
  lemma QuoteExact(amount: int, r: Rate, fromCurrency: string, toCurrency: string)
    requires Fits(amount) && r.WellTyped()
    ensures QuoteConversion(amount, r, fromCurrency, toCurrency).Success? ==>
            var q := QuoteConversion(amount, r, fromCurrency, toCurrency).value;
            && q.input == amount
            && 0 <= q.fee <= amount
            && 0 <= r.feeBps <= 10000 && Nearest(q.fee, amount * r.feeBps, 10000)
            && 0 <= WorthNum(amount - q.fee, r.rate, toCurrency)
            && Nearest(q.output, WorthNum(amount - q.fee, r.rate, toCurrency), WorthDen(r.rate, toCurrency))
            && q.output >= 0
  {
    if QuoteConversion(amount, r, fromCurrency, toCurrency).Success? {
      FeeExact(amount, r.feeBps);
      var fee := Percent(amount, r.feeBps).minor;
      WorthExact(amount - fee, r.rate, fromCurrency, toCurrency);
    }
  }

  lemma FeeExact(amount: int, bps: int)
    requires amount > 0 && Percent(amount, bps).Ok?
    ensures var fee := Percent(amount, bps).minor;
            0 <= fee <= amount && 0 <= bps <= 10000 && Nearest(fee, amount * bps, 10000)
  {
    MulMono(0, bps, amount);
    MulMono(bps, 10000, amount);
    MulRatioNearest(amount, bps, 10000);
  }

  lemma WorthExact(net: int, rate: int, fromCurrency: string, toCurrency: string)
    requires net >= 0 && ConvertCross(net, rate, fromCurrency, toCurrency).Ok?
    ensures var output := ConvertCross(net, rate, fromCurrency, toCurrency).minor;
            && 0 <= WorthNum(net, rate, toCurrency)
            && Nearest(output, WorthNum(net, rate, toCurrency), WorthDen(rate, toCurrency))
            && output >= 0
  {
    MulMono(0, rate, net);
    if toCurrency == "NGN" {
      MulRatioNearest(net, rate, MINOR_UNIT);
    } else {
      MulRatioNearest(net, MINOR_UNIT, rate);
    }
  }

  /** A larger input never yields a smaller output. */
  lemma QuoteMonotone(amount: int, amount': int, r: Rate, fromCurrency: string, toCurrency: string)
    requires Fits(amount) && Fits(amount') && r.WellTyped() && amount <= amount'
    ensures var q := QuoteConversion(amount, r, fromCurrency, toCurrency);
            var q' := QuoteConversion(amount', r, fromCurrency, toCurrency);
            q.Success? && q'.Success? ==> q.value.output <= q'.value.output
  {
    var q := QuoteConversion(amount, r, fromCurrency, toCurrency);
    var q' := QuoteConversion(amount', r, fromCurrency, toCurrency);
    if q.Success? && q'.Success? {
      QuoteExact(amount, r, fromCurrency, toCurrency);
      QuoteExact(amount', r, fromCurrency, toCurrency);
      var net, net' := amount - q.value.fee, amount' - q'.value.fee;
      NetMonotone(amount, q.value.fee, amount', q'.value.fee, r.feeBps);
      WorthMonotone(net, net', r.rate, toCurrency);
      NearestMonotone(q.value.output, WorthNum(net, r.rate, toCurrency),
                      q'.value.output, WorthNum(net', r.rate, toCurrency), WorthDen(r.rate, toCurrency));
    }
  }

  lemma WorthMonotone(net: int, net': int, rate: int, toCurrency: string)
    requires net <= net' && rate > 0
    ensures WorthNum(net, rate, toCurrency) <= WorthNum(net', rate, toCurrency)
  {
    assert (net' - net) * rate >= 0;
  }

  /** A fee of at most all of the amount grows no faster than the amount. */
  lemma NetMonotone(a: int, fee: int, a': int, fee': int, bps: int)
    requires 0 <= a <= a' && 0 <= bps <= 10000
    requires Nearest(fee, a * bps, 10000) && Nearest(fee', a' * bps, 10000)
    ensures a - fee <= a' - fee'
  {
    Distribute(a' - a, a, bps);
    MulMono(bps, 10000, a' - a);
    MulMono(0, bps, a);
    MulMono(0, bps, a');
  }


  // ---- When there is a quote ----

  /** A share of at most all of the amount, and what is left of it, are always computed. */
  lemma FeeGiven(amount: int, bps: int)
    requires 0 < amount <= MAX
    ensures Percent(amount, bps).Ok? <==> 0 <= bps <= 10_000
    ensures Percent(amount, bps).Ok? ==>
              Sub(amount, Percent(amount, bps).minor) == Ok(amount - Percent(amount, bps).minor)
  {
    if 0 <= bps <= 10_000 {
      MulMono(0, bps, amount);
      MulMono(bps, 10_000, amount);
      RoundedNearest(amount * bps, 10_000);
      FeeExact(amount, bps);
    }
  }

  /** The net of a positive amount can be turned into the other currency. */
  predicate Convertible(net: int, rate: int, fromCurrency: string, toCurrency: string)
    requires rate > 0
  {
    && (toCurrency == "NGN" || fromCurrency == "NGN")
    && Fits(Rounded(WorthNum(net, rate, toCurrency), WorthDen(rate, toCurrency)))
  }

  lemma WorthGiven(net: int, rate: int, fromCurrency: string, toCurrency: string)
    requires 0 <= net && rate > 0
    ensures ConvertCross(net, rate, fromCurrency, toCurrency).Ok? <==> Convertible(net, rate, fromCurrency, toCurrency)
  {
    RoundedNearest(0, WorthDen(rate, toCurrency));
    assert net == 0 ==> WorthNum(net, rate, toCurrency) == 0;
  }

  /**
   There is a quote exactly for a positive amount within the row's limits, at
   a positive rate with a fee of at most 100%, between NGN and another
   currency, whose output fits int64.
   */
  lemma QuoteIff(amount: int, r: Rate, fromCurrency: string, toCurrency: string)
    requires Fits(amount) && r.WellTyped()
    ensures QuoteConversion(amount, r, fromCurrency, toCurrency).Success? <==>
            && 0 < amount && r.minMinor <= amount <= r.maxMinor && r.rate > 0 && 0 <= r.feeBps <= 10_000
            && Percent(amount, r.feeBps).Ok?
            && Convertible(amount - Percent(amount, r.feeBps).minor, r.rate, fromCurrency, toCurrency)
  {
    if 0 < amount && r.rate > 0 && 0 <= r.feeBps <= 10_000 {
      FeeGiven(amount, r.feeBps);
      FeeExact(amount, r.feeBps);
      WorthGiven(amount - Percent(amount, r.feeBps).minor, r.rate, fromCurrency, toCurrency);
    } else if 0 < amount {
      FeeGiven(amount, r.feeBps);
    }
  }
}
