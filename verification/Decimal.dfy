/**
 Decimal text of money and token amounts: printing, parsing, and when one
 undoes the other. Text is a string of ASCII bytes.
 */
module Decimal {
  import opened Int64
  import opened Arithmetic

  datatype Error = Empty | TooManyDigits | Overflow | Invalid | Negative

  datatype Parsed = Value(value: int) | Failed(error: Error)

  // ---- Digits ----

  predicate IsDigit(c: char) {
    '0' <= c <= '9'
  }

  predicate AllDigits(s: string) {
    forall i :: 0 <= i < |s| ==> IsDigit(s[i])
  }

  function Pow10(n: nat): (p: nat)
    ensures p > 0
  {
    if n == 0 then 1 else 10 * Pow10(n - 1)
  }

  /** The number a string of digits denotes. */
  function Num(s: string): nat
    requires AllDigits(s)
  {
    if s == "" then 0 else Num(s[..|s| - 1]) * 10 + (s[|s| - 1] as int - '0' as int)
  }

  function Dec(n: nat): (s: string)
    ensures s != "" && AllDigits(s)
  {
    var d := [('0' as int + n % 10) as char];
    if n < 10 then d else Dec(n / 10) + d
  }

  function Zeros(n: int): (s: string)
    ensures |s| == (if n < 0 then 0 else n) && AllDigits(s)
  {
    if n <= 0 then "" else Zeros(n - 1) + "0"
  }

  lemma {:induction false} NumDec(n: nat)
    ensures Num(Dec(n)) == n
  {
    var s := Dec(n);
    var k := |s| - 1;
    if n < 10 {
      assert s[..k] == "";
    } else {
      NumDec(n / 10);
      assert s[..k] == Dec(n / 10);
    }
  }

  lemma {:induction false} DecLength(n: nat, k: nat)
    requires k > 0 && n < Pow10(k)
    ensures |Dec(n)| <= k
  {
    if n >= 10 {
      DecLength(n / 10, k - 1);
    }
  }

  lemma {:induction false} NumAppend(s: string, t: string)
    requires AllDigits(s) && AllDigits(t)
    ensures AllDigits(s + t) && Num(s + t) == Num(s) * Pow10(|t|) + Num(t)
  {
    if t == "" {
      assert s + t == s;
    } else {
      var k := |t| - 1;
      NumAppend(s, t[..k]);
      assert (s + t)[..|s + t| - 1] == s + t[..k];
      Distribute(Num(s) * Pow10(k), Num(t[..k]), 10);
      Shift(Num(s), Pow10(k));
    }
  }

  lemma Shift(x: int, p: int)
    ensures x * p * 10 == x * (10 * p)
  {
  }

  lemma {:induction false} NumZeros(n: nat)
    ensures Num(Zeros(n)) == 0
  {
    if n > 0 {
      NumZeros(n - 1);
      assert Zeros(n)[..n - 1] == Zeros(n - 1);
    }
  }

  /** Printing with leading zeros does not change the number. */
  lemma NumPadded(n: nat, zeros: nat)
    ensures Num(Zeros(zeros) + Dec(n)) == n
  {
    NumAppend(Zeros(zeros), Dec(n));
    NumZeros(zeros);
    assert 0 * Pow10(|Dec(n)|) == 0;
    NumDec(n);
  }

  // ---- Go's formatting and number parsing ----

  function DecInt(n: int): string {
    if n < 0 then "-" + Dec(-n) else Dec(n)
  }

  /** %0*d: the sign, then zeros up to the width. */
  function Padded(width: nat, n: int): string {
    if n < 0 then "-" + Zeros(width - 1 - |Dec(-n)|) + Dec(-n) else Zeros(width - |Dec(n)|) + Dec(n)
  }

  predicate Signed(s: string) {
    s != "" && (s[0] == '+' || s[0] == '-')
  }

  function Unsigned(s: string): string {
    if Signed(s) then s[1..] else s
  }

  /** big.Int.SetString in base ten. */
  function SetString(s: string): Parsed {
    var digits := Unsigned(s);
    if digits == "" || !AllDigits(digits) then Failed(Invalid)
    else if s[0] == '-' then Value(0 - Num(digits))
    else Value(Num(digits))
  }

  /** strconv's digit loop, which stops at the first digit that leaves uint64. */
  function ScanUint(s: string, n: nat): Parsed
    decreases |s|
  {
    if s == "" then Value(n)
    else if !IsDigit(s[0]) then Failed(Invalid)
    else
      var n' := n * 10 + (s[0] as int - '0' as int);
      if n' >= TWO64 then Failed(Overflow) else ScanUint(s[1..], n')
  }

  /** strconv.ParseInt in base ten for 64 bits. */
  function ParseInt(s: string): Parsed {
    var digits := Unsigned(s);
    if digits == "" then Failed(Invalid)
    else
      match ScanUint(digits, 0)
      case Failed(e) => Failed(e)
      case Value(n) =>
        if s[0] == '-' then (if n > TWO63 then Failed(Overflow) else Value(-n))
        else if n >= TWO63 then Failed(Overflow)
        else Value(n)
  }

  lemma {:induction false} ScanDigits(s: string, t: string)
    requires AllDigits(s) && AllDigits(t) && Num(s) < TWO64
    ensures AllDigits(s + t)
    ensures ScanUint(t, Num(s)) == if Num(s + t) < TWO64 then Value(Num(s + t)) else Failed(Overflow)
    decreases |t|
  {
    if t == "" {
      assert s + t == s;
    } else {
      var s' := s + [t[0]];
      assert s'[..|s|] == s;
      assert s' + t[1..] == s + t;
      if Num(s') < TWO64 {
        ScanDigits(s', t[1..]);
      } else {
        NumAppend(s', t[1..]);
        Grows(Num(s'), Pow10(|t| - 1));
      }
    }
  }

  lemma Grows(x: nat, p: nat)
    requires p > 0
    ensures x <= x * p
  {
  }

  /** On digits ParseInt reports overflow exactly when no int64 holds the number. */
  lemma ParseDigits(s: string)
    requires s != "" && AllDigits(s)
    ensures ParseInt(s) == if Num(s) <= MAX then Value(Num(s)) else Failed(Overflow)
  {
    ScanDigits("", s);
    assert "" + s == s;
  }

  // ---- Splitting and padding ----

  function UpToDot(s: string): string {
    if s == "" || s[0] == '.' then "" else [s[0]] + UpToDot(s[1..])
  }

  function PastDot(s: string): string {
    if s == "" then "" else if s[0] == '.' then s[1..] else PastDot(s[1..])
  }

  lemma {:induction false} SplitAt(whole: string, rest: string)
    requires '.' !in whole
    ensures UpToDot(whole + "." + rest) == whole && PastDot(whole + "." + rest) == rest
    ensures UpToDot(whole) == whole && PastDot(whole) == ""
  {
    var s := whole + "." + rest;
    if whole == "" {
      assert s == "." + rest;
      assert s[1..] == rest;
    } else {
      assert s[1..] == whole[1..] + "." + rest;
      SplitAt(whole[1..], rest);
    }
  }

  function OrZero(whole: string): string {
    if whole == "" then "0" else whole
  }

  /** The padding loop both parsers share. */
  method PadFraction(frac: string, digits: int) returns (r: string)
    ensures r == frac + Zeros(digits - |frac|)
  {
    r := frac;
    while |r| < digits
      invariant |r| >= |frac| && r == frac + Zeros(|r| - |frac|)
      invariant |r| <= digits || r == frac
      decreases digits - |r|
    {
      assert Zeros(|r| - |frac|) + "0" == Zeros(|r| + 1 - |frac|);
      r := r + "0";
    }
  }

  // ---- Token amounts ----

  /** QuoRem truncates toward zero, so the remainder takes the sign of the amount. */
  function BaseToMajor(base: int, decimals: int): string {
    if decimals <= 0 then DecInt(base)
    else if base >= 0 then DecInt(base / Pow10(decimals)) + "." + Padded(decimals, base % Pow10(decimals))
    else DecInt(-(-base / Pow10(decimals))) + "." + Padded(decimals, -(-base % Pow10(decimals)))
  }

  /** What parseMajorToBase makes of a text. */
  function MajorToBase(text: string, decimals: int): Parsed {
    if text == "" then Failed(Empty)
    else
      var neg := text[0] == '-';
      var s := if neg then text[1..] else text;
      var frac := PastDot(s);
      if |frac| > decimals then Failed(TooManyDigits)
      else
        var val := SetString(OrZero(UpToDot(s)) + (frac + Zeros(decimals - |frac|)));
        if val.Failed? then val else if neg then Failed(Negative) else val
  }

  method ParseMajorToBase(text: string, decimals: int) returns (r: Parsed)
    ensures r == MajorToBase(text, decimals)
  {
    if text == "" {
      return Failed(Empty);
    }
    var s, neg := text, false;
    if s[0] == '-' {
      neg := true;
      s := s[1..];
    }
    var whole, frac := UpToDot(s), PastDot(s);
    if whole == "" {
      whole := "0";
    }
    if |frac| > decimals {
      return Failed(TooManyDigits);
    }
    frac := PadFraction(frac, decimals);
    var val := SetString(whole + frac);
    if val.Failed? {
      return val;
    }
    if neg {
      return Failed(Negative);
    }
    return val;
  }

  lemma DigitsHaveNoDot(s: string)
    requires AllDigits(s)
    ensures '.' !in s && !Signed(s)
  {
  }

  /** Zeros appended shift the number. */
  lemma NumShifted(s: string, n: nat)
    requires AllDigits(s)
    ensures AllDigits(s + Zeros(n)) && Num(s + Zeros(n)) == Num(s) * Pow10(n)
  {
    NumAppend(s, Zeros(n));
    NumZeros(n);
  }

  lemma SetDigits(s: string)
    requires s != "" && AllDigits(s)
    ensures SetString(s) == Value(Num(s))
  {
    DigitsHaveNoDot(s);
  }

  /** A text of digits with at most `decimals` fraction digits is read exactly. */
  lemma PlainBase(whole: string, frac: string, decimals: nat)
    requires whole != "" && AllDigits(whole) && AllDigits(frac) && |frac| <= decimals
    ensures AllDigits(whole + frac)
    ensures MajorToBase(whole + "." + frac, decimals) == Value(Num(whole + frac) * Pow10(decimals - |frac|))
    ensures frac == "" ==> MajorToBase(whole, decimals) == Value(Num(whole) * Pow10(decimals))
  {
    DigitsHaveNoDot(whole);
    SplitAt(whole, frac);
    NumAppend(whole, frac);
    var zeros := Zeros(decimals - |frac|);
    NumShifted(whole + frac, decimals - |frac|);
    assert whole + (frac + zeros) == whole + frac + zeros;
    SetDigits(whole + (frac + zeros));
    assert frac == "" ==> whole + frac == whole;
  }

  /** No text is ever read as a negative amount. */
  lemma NeverNegative(text: string, decimals: int)
    requires MajorToBase(text, decimals).Value?
    ensures MajorToBase(text, decimals).value >= 0
  {
  }

  /** A quotient and a remainder printed side by side. */
  lemma Printed(q: nat, r: nat, digits: nat)
    requires digits > 0 && r < Pow10(digits)
    ensures var frac := Padded(digits, r);
            && AllDigits(frac) && |frac| == digits
            && AllDigits(Dec(q) + frac) && Num(Dec(q) + frac) == q * Pow10(digits) + r
  {
    var frac := Padded(digits, r);
    DecLength(r, digits);
    NumPadded(r, digits - |Dec(r)|);
    NumAppend(Dec(q), frac);
    NumDec(q);
  }

  lemma PrintedBase(q: nat, r: nat, decimals: nat)
    requires decimals > 0 && r < Pow10(decimals)
    ensures MajorToBase(Dec(q) + "." + Padded(decimals, r), decimals) == Value(q * Pow10(decimals) + r)
  {
    Printed(q, r, decimals);
    PlainBase(Dec(q), Padded(decimals, r), decimals);
    assert Pow10(0) == 1;
  }

  lemma BaseRoundTrip(base: nat, decimals: nat)
    ensures MajorToBase(BaseToMajor(base, decimals), decimals) == Value(base)
  {
    if decimals > 0 {
      var p := Pow10(decimals);
      DivMod(base, p);
      PrintedBase(base / p, base % p, decimals);
    } else {
      PlainBase(Dec(base), "", 0);
      NumDec(base);
      assert Pow10(0) == 1;
    }
  }

  /** Parsing undoes printing exactly for amounts and scales that are not negative. */
  lemma BaseRoundTripIff(base: int, decimals: int)
    ensures MajorToBase(BaseToMajor(base, decimals), decimals) == Value(base) <==> base >= 0 && decimals >= 0
  {
    var text := BaseToMajor(base, decimals);
    if base < 0 {
      if MajorToBase(text, decimals).Value? {
        NeverNegative(text, decimals);
      }
    } else if decimals >= 0 {
      BaseRoundTrip(base, decimals);
    }
  }

  // ---- Money ----

  const MINOR_UNIT: int := 100

  /** Money.String; negating the least int64 leaves it unchanged, and Go's division truncates. */
  function MoneyText(m: int): string {
    var abs := if m < 0 then Wrap(-m) else m;
    var whole := if abs < 0 then -(-abs / MINOR_UNIT) else abs / MINOR_UNIT;
    var frac := if abs < 0 then -(-abs % MINOR_UNIT) else abs % MINOR_UNIT;
    (if m < 0 then "-" else "") + DecInt(whole) + "." + Padded(2, frac)
  }

  predicate IsSpace(c: char) {
    c == ' ' || '\t' <= c <= '\r'
  }

  function TrimLeft(s: string): string {
    if s != "" && IsSpace(s[0]) then TrimLeft(s[1..]) else s
  }

  function TrimRight(s: string): string {
    if s != "" && IsSpace(s[|s| - 1]) then TrimRight(s[..|s| - 1]) else s
  }

  function TrimSpace(s: string): string {
    TrimRight(TrimLeft(s))
  }

  /** The fraction is taken only when there is exactly one dot. */
  function FractionOf(s: string): string {
    if '.' in PastDot(s) then "" else PastDot(s)
  }

  /** What FromMajorUnits makes of a text. */
  function MajorToMinor(text: string): Parsed {
    var t := TrimSpace(text);
    if t == "" then Failed(Empty)
    else
      var neg := t[0] == '-';
      var s := if neg then t[1..] else t;
      var frac := FractionOf(s);
      if |frac| > 18 then Failed(TooManyDigits)
      else
        var m := ParseInt(OrZero(UpToDot(s)) + (frac + Zeros(2 - |frac|)));
        if m.Failed? then m else if neg then Failed(Negative) else m
  }

  method FromMajorUnits(text: string) returns (r: Parsed)
    ensures r == MajorToMinor(text)
  {
    var s, neg := TrimSpace(text), false;
    if s == "" {
      return Failed(Empty);
    }
    if s[0] == '-' {
      neg := true;
      s := s[1..];
    }
    var whole, frac := UpToDot(s), FractionOf(s);
    if whole == "" {
      whole := "0";
    }
    if |frac| > 18 {
      return Failed(TooManyDigits);
    }
    frac := PadFraction(frac, 2);
    var m := ParseInt(whole + frac);
    if m.Failed? {
      return m;
    }
    if neg {
      return Failed(Negative);
    }
    return m;
  }

  /** The text with a fraction: whole "." frac, all digits. */
  ghost predicate Plain(whole: string, frac: string) {
    AllDigits(whole) && AllDigits(frac) && |frac| <= 18
  }

  lemma NoTrim(whole: string, frac: string)
    requires Plain(whole, frac)
    ensures TrimSpace(whole + "." + frac) == whole + "." + frac
  {
    var s := whole + "." + frac;
    assert IsDigit(s[0]) || s[0] == '.';
    assert s[|s| - 1] == (if frac == "" then '.' else frac[|frac| - 1]);
  }

  /** The minor units a plain text is read as. */
  function Minor(whole: string, frac: string): nat
    requires Plain(whole, frac)
  {
    NumAppend(whole, frac);
    Num(whole + frac) * Pow10(if |frac| < 2 then 2 - |frac| else 0)
  }

  /** A plain text is read as `Minor`, and as overflow exactly when no int64 holds that. */
  lemma PlainMinor(whole: string, frac: string)
    requires Plain(whole, frac)
    ensures MajorToMinor(whole + "." + frac) ==
            if Minor(whole, frac) <= MAX then Value(Minor(whole, frac)) else Failed(Overflow)
  {
    NoTrim(whole, frac);
    DigitsHaveNoDot(whole);
    DigitsHaveNoDot(frac);
    SplitAt(whole, frac);
    var zeros := Zeros(2 - |frac|);
    CombinedNum(whole, frac, zeros);
    ParseDigits(OrZero(whole) + (frac + zeros));
  }

  lemma CombinedNum(whole: string, frac: string, zeros: string)
    requires Plain(whole, frac) && zeros == Zeros(2 - |frac|)
    ensures AllDigits(OrZero(whole) + (frac + zeros)) && Num(OrZero(whole) + (frac + zeros)) == Minor(whole, frac)
  {
    JoinedNum(whole, frac, zeros);
    if whole == "" {
      assert whole + (frac + zeros) == frac + zeros;
      LeadingZero(frac + zeros);
    }
  }

  lemma JoinedNum(whole: string, frac: string, zeros: string)
    requires Plain(whole, frac) && zeros == Zeros(2 - |frac|)
    ensures AllDigits(whole + (frac + zeros)) && Num(whole + (frac + zeros)) == Minor(whole, frac)
  {
    var n := if |frac| < 2 then 2 - |frac| else 0;
    assert zeros == Zeros(n);
    NumAppend(whole, frac);
    NumShifted(whole + frac, n);
    assert whole + frac + zeros == whole + (frac + zeros);
    assert Minor(whole, frac) == Num(whole + frac) * Pow10(n);
  }

  lemma LeadingZero(s: string)
    requires AllDigits(s)
    ensures AllDigits("0" + s) && Num("0" + s) == Num(s)
  {
    NumAppend("0", s);
    assert Num("0") == 0;
  }

  /**
   The number of minor units is the one the text denotes exactly when it has
   at most two fraction digits: further digits are kept without rescaling.
   */
  lemma ExactIff(whole: string, frac: string)
    requires Plain(whole, frac)
    ensures AllDigits(whole + frac)
    ensures Minor(whole, frac) * Pow10(|frac|) == Num(whole + frac) * MINOR_UNIT <==>
            |frac| <= 2 || Num(whole + frac) == 0
  {
    NumAppend(whole, frac);
    var n := Num(whole + frac);
    if |frac| > 2 {
      PowGrows(|frac|);
      if n > 0 {
        Less(n, MINOR_UNIT, Pow10(|frac|));
      }
    } else {
      assert Pow10(2) == 100 && Pow10(1) == 10 && Pow10(0) == 1;
    }
  }

  lemma {:induction false} PowGrows(k: nat)
    requires k > 2
    ensures Pow10(k) > 100
  {
    if k > 3 {
      PowGrows(k - 1);
    } else {
      assert Pow10(2) == 100;
    }
  }

  lemma Less(n: nat, x: nat, y: nat)
    requires n > 0 && x < y
    ensures n * x < n * y
  {
  }

  /** A text that starts with a minus sign is never read as an amount. */
  lemma MinusFails(rest: string)
    requires rest != "" && !IsSpace(rest[|rest| - 1])
    ensures MajorToMinor("-" + rest).Failed?
  {
    assert ("-" + rest)[|rest|] == rest[|rest| - 1];
  }

  lemma {:induction false} LastDigit(n: nat)
    ensures IsDigit(Dec(n)[|Dec(n)| - 1])
  {
  }

  lemma MoneyRoundTrip(m: nat, text: string)
    requires Fits(m) && text == Dec(m / MINOR_UNIT) + "." + Padded(2, m % MINOR_UNIT)
    ensures MajorToMinor(text) == Value(m)
  {
    var q, r := m / MINOR_UNIT, m % MINOR_UNIT;
    assert Pow10(2) == 100;
    Printed(q, r, 2);
    PlainMinor(Dec(q), Padded(2, r));
  }

  /** Parsing undoes printing for every amount that is not negative, and for no other. */
  lemma MoneyRoundTripIff(m: int)
    requires Fits(m)
    ensures MajorToMinor(MoneyText(m)) == Value(m) <==> m >= 0
  {
    if m < 0 {
      var text := MoneyText(m);
      MoneyEnds(m);
      assert text == "-" + text[1..];
      MinusFails(text[1..]);
    } else {
      assert MoneyText(m) == Dec(m / MINOR_UNIT) + "." + Padded(2, m % MINOR_UNIT);
      MoneyRoundTrip(m, MoneyText(m));
    }
  }

  lemma MoneyEnds(m: int)
    requires Fits(m) && m < 0
    ensures var text := MoneyText(m); |text| > 1 && text[0] == '-' && IsDigit(text[|text| - 1])
  {
    var abs := Wrap(-m);
    var frac := if abs < 0 then -(-abs % MINOR_UNIT) else abs % MINOR_UNIT;
    LastDigit(if frac < 0 then -frac else frac);
    var tail := Padded(2, frac);
    assert IsDigit(tail[|tail| - 1]);
  }

  /** With two dots the fraction is dropped without an error. */
  lemma SecondDotDropsFraction(whole: string, mid: string, rest: string)
    requires whole != "" && AllDigits(whole) && AllDigits(mid) && AllDigits(rest) && rest != ""
    ensures MajorToMinor(whole + "." + (mid + "." + rest)) == MajorToMinor(whole + ".")
  {
    var text := whole + "." + (mid + "." + rest);
    assert text[0] == whole[0] && text[|text| - 1] == rest[|rest| - 1];
    assert TrimSpace(text) == text;
    DigitsHaveNoDot(whole);
    SplitAt(whole, mid + "." + rest);
    assert (mid + "." + rest)[|mid|] == '.';
    NoTrim(whole, "");
    assert whole + "." + "" == whole + ".";
    SplitAt(whole, "");
  }
}
