/**
 When each request commits, and what the accounts hold afterwards, in terms of
 the accounts before. `Wrap(amount + fee)` is amount plus fee whenever int64
 holds it.
 */
module Acceptance {
  import opened Int64
  import opened Quote
  import opened Ledger
  import opened Conservation

  /** The account exists and its sum can be read. */
  predicate Readable(db: Db, a: Account) {
    a in db.accounts && Fits(Sum(db.entries, a))
  }

  /** The sum of `a` after the request. */
  function After(db: Db, r: Request, a: Account): int {
    Sum(Apply(db, r).0.entries, a)
  }

  /** A commit adds the sums of its entries; anything else adds nothing. */
  lemma AfterIs(db: Db, r: Request, a: Account)
    ensures After(db, r, a) ==
            Sum(db.entries, a) +
            if Apply(db, r).1.Committed? then Sum(PlanOf(Prepare(db, r), r).posting.entries, a) else 0
  {
    ApplyRows(db, r);
    if Apply(db, r).1.Committed? {
      SumAppend(db.entries, PlanOf(Prepare(db, r), r).posting.entries, a);
    }
  }

  /** A commit is a valid request under a new key whose transaction goes through. */
  lemma CommitsIff(db: Db, r: Request)
    ensures Apply(db, r).1.Committed? <==>
            Precheck(r).None? && !KeyUsed(db, r.key) && PlanOf(Prepare(db, r), r).Planned?
    ensures Apply(db, r).1.Replayed? <==> Precheck(r).None? && KeyUsed(db, r.key)
  {
  }

  // ---- Credits and debits ----

  /** A positive movement passes the overflow guard exactly when the account would hold it. */
  lemma GuardIff(current: int, total: int)
    requires Fits(current) && 0 < total <= MAX
    ensures Wrap(current + total) >= 0 <==> 0 <= current + total <= MAX
  {
    if current + total > MAX {
      WrapTurn(current + total - TWO64);
    }
  }

  /** A credit commits exactly when it has a value, a new key and an account that can hold it. */
  lemma CreditCommitsIff(db: Db, r: Request)
    requires r.Credit? && WellTyped(r)
    ensures var a := Account(r.user, r.kind, r.currency);
            && (Apply(db, r).1.Committed? <==>
                && r.amount > 0 && !KeyUsed(db, r.key) && Readable(db, a)
                && 0 <= Sum(db.entries, a) + r.amount <= MAX)
            && (Apply(db, r).1.Committed? ==>
                  && Apply(db, r).1.txn == Txn(r.user, r.typ, r.currency, r.amount, r.fee, r.ref, r.key)
                  && forall x :: After(db, r, x) == Sum(db.entries, x) + if x == a then r.amount else 0)
  {
    var a := Account(r.user, r.kind, r.currency);
    CommitsIff(db, r);
    assert PlanOf(db, r) == PlanMove(db, r);
    if r.amount > 0 && Readable(db, a) {
      GuardIff(Sum(db.entries, a), r.amount);
    }
    if Apply(db, r).1.Committed? {
      forall x ensures After(db, r, x) == Sum(db.entries, x) + if x == a then r.amount else 0 {
        AfterIs(db, r, x);
        Sum1(Entry(|db.txns|, a, true, r.amount), x);
      }
    }
  }

  /**
   A debit commits exactly when amount plus fee is positive, the key is new
   and the account covers them, as long as twice that fits int64: the guard
   against overflow adds where it should subtract.
   */
  lemma DebitCommitsIff(db: Db, r: Request)
    requires r.Debit? && WellTyped(r)
    ensures var (a, total) := (Account(r.user, r.kind, r.currency), Wrap(r.amount + r.fee));
            && (Apply(db, r).1.Committed? <==>
                && total > 0 && !KeyUsed(db, r.key) && Readable(db, a)
                && total <= Sum(db.entries, a) && Sum(db.entries, a) + total <= MAX)
            && (Apply(db, r).1.Committed? ==>
                  && Apply(db, r).1.txn == Txn(r.user, r.typ, r.currency, r.amount, r.fee, r.ref, r.key)
                  && forall x :: After(db, r, x) == Sum(db.entries, x) - if x == a then total else 0)
  {
    var a, total := Account(r.user, r.kind, r.currency), Wrap(r.amount + r.fee);
    CommitsIff(db, r);
    assert PlanOf(db, r) == PlanMove(db, r);
    if total > 0 && Readable(db, a) {
      GuardIff(Sum(db.entries, a), total);
    }
    if Apply(db, r).1.Committed? {
      forall x ensures After(db, r, x) == Sum(db.entries, x) - if x == a then total else 0 {
        AfterIs(db, r, x);
        Sum1(Entry(|db.txns|, a, false, total), x);
      }
    }
  }

  // ---- External withdrawals ----

  /**
   An external withdrawal commits exactly when principal and fee are valid,
   the key is new, the account covers both, and the fee account can be read
   once the payer is debited; the payer loses both and the platform gains the
   fee.
   */
  lemma WithdrawCommitsIff(db: Db, r: Request)
    requires r.WithdrawExternal? && WellTyped(r)
    ensures var c := OrNgn(r.currency);
            var (a, f, total) := (Account(r.user, r.kind, c), FeeAccount(c), Wrap(r.amount + r.fee));
            && (Apply(db, r).1.Committed? <==>
                && r.amount > 0 && r.fee >= 0 && !KeyUsed(db, r.key) && Readable(db, a) && total <= Sum(db.entries, a)
                && (r.fee > 0 ==> Fits(Sum(db.entries, f) - if f == a then total else 0)))
            && (Apply(db, r).1.Committed? ==>
                  && Apply(db, r).1.txn == Txn(r.user, r.typ, c, r.amount, r.fee, r.ref, r.key)
                  && forall x :: After(db, r, x) ==
                       Sum(db.entries, x) - (if x == a then total else 0) + if x == f then r.fee else 0)
  {
    var c := OrNgn(r.currency);
    var a, f, total := Account(r.user, r.kind, c), FeeAccount(c), Wrap(r.amount + r.fee);
    var paid := Entry(|db.txns|, a, false, total);
    CommitsIff(db, r);
    assert PlanOf(db, r) == PlanWithdraw(db, r);
    SumAppend(db.entries, [paid], f);
    Sum1(paid, f);
    if Apply(db, r).1.Committed? {
      forall x ensures After(db, r, x) ==
                       Sum(db.entries, x) - (if x == a then total else 0) + if x == f then r.fee else 0
      {
        AfterIs(db, r, x);
        WithdrawSum(db, r, x);
      }
    }
  }

  lemma WithdrawSum(db: Db, r: Request, x: Account)
    requires r.WithdrawExternal? && r.fee >= 0 && PlanWithdraw(db, r).Planned?
    ensures var c := OrNgn(r.currency);
            Sum(PlanWithdraw(db, r).posting.entries, x) ==
            (if x == FeeAccount(c) then r.fee else 0) -
            if x == Account(r.user, r.kind, c) then Wrap(r.amount + r.fee) else 0
  {
    var es := PlanWithdraw(db, r).posting.entries;
    Sum1(es[0], x);
    if r.fee > 0 {
      assert es == [es[0], es[1]];
      Sum2(es[0], es[1], x);
    }
  }

  // ---- Transfers ----

  /** What a transfer takes from its source. */
  function Taken(r: Request): int
    requires r.Transfer?
  {
    r.amount + if r.fee > 0 then r.fee else 0
  }

  /**
   A transfer commits exactly when its amount is positive, the key is new, the
   source covers amount plus fee, and an internal destination exists and can
   be read once the source is debited.
   */
  lemma TransferCommitsIff(db: Db, r: Request)
    requires r.Transfer? && WellTyped(r)
    ensures var c := OrNgn(r.currency);
            var (a, b) := (Account(r.user, r.fromKind, c), Account(r.user, r.toKind, c));
            && (Apply(db, r).1.Committed? <==>
                && r.amount > 0 && !KeyUsed(db, r.key) && Readable(db, a)
                && Wrap(r.amount + r.fee) <= Sum(db.entries, a)
                && (r.toKind != "" ==> b in db.accounts && Fits(Sum(db.entries, b) - if a == b then Taken(r) else 0)))
            && (Apply(db, r).1.Committed? ==>
                  && Apply(db, r).1.txn == Txn(r.user, "transfer", c, r.amount, r.fee, r.ref, r.key)
                  && forall x :: After(db, r, x) ==
                       Sum(db.entries, x) - (if x == a then Taken(r) else 0) +
                       if r.toKind != "" && x == b then r.amount else 0)
  {
    var c := OrNgn(r.currency);
    var a, b := Account(r.user, r.fromKind, c), Account(r.user, r.toKind, c);
    var n := |db.txns|;
    var paid := [Entry(n, a, false, r.amount)] + if r.fee > 0 then [Entry(n, a, false, r.fee)] else [];
    CommitsIff(db, r);
    assert PlanOf(db, r) == PlanTransfer(db, r);
    PaidSum(db.entries, paid, r.amount, r.fee, a, b);
    if Apply(db, r).1.Committed? {
      forall x ensures After(db, r, x) ==
                       Sum(db.entries, x) - (if x == a then Taken(r) else 0) +
                       if r.toKind != "" && x == b then r.amount else 0
      {
        AfterIs(db, r, x);
        TransferSum(db, r, x);
      }
    }
  }

  // ---- Conversions ----

  /**
   A conversion with a quote, whose accounts it creates itself, commits
   exactly when the key is new, the source covers the input and both sums can
   be read; input leaves one account and output reaches the other.
   */
  lemma ConvertCommitsIff(db: Db, r: Request)
    requires r.Convert? && WellTyped(r)
    ensures var (a, b) := (Account(r.user, AVAILABLE, r.fromCurrency), Account(r.user, AVAILABLE, r.toCurrency));
            && (Apply(db, r).1.Committed? <==>
                && QuoteOf(r).Success? && !KeyUsed(db, r.key)
                && Fits(Sum(db.entries, a)) && r.amount <= Sum(db.entries, a) && Fits(Sum(db.entries, b)))
            && (Apply(db, r).1.Committed? ==>
                  var q := QuoteOf(r).value;
                  && Apply(db, r).1.txn == Txn(r.user, "conversion", r.fromCurrency, r.amount, q.fee, "", r.key)
                  && forall x :: After(db, r, x) ==
                       Sum(db.entries, x) - (if x == a then r.amount else 0) + if x == b then q.output else 0)
  {
    var a, b := Account(r.user, AVAILABLE, r.fromCurrency), Account(r.user, AVAILABLE, r.toCurrency);
    CommitsIff(db, r);
    if QuoteOf(r).Success? {
      QuoteExact(r.amount, r.rate.value, r.fromCurrency, r.toCurrency);
      ConvertPlanned(db, r);
      if Apply(db, r).1.Committed? {
        var q := QuoteOf(r).value;
        var d := Prepare(db, r);
        var e, f := Entry(|d.txns|, a, false, q.input), Entry(|d.txns|, b, true, q.output);
        forall x ensures After(db, r, x) ==
                         Sum(db.entries, x) - (if x == a then r.amount else 0) + if x == b then q.output else 0
        {
          AfterIs(db, r, x);
          Sum2(e, f, x);
        }
      }
    }
  }

  /** Its own preparation leaves only the sums to be checked. */
  lemma ConvertPlanned(db: Db, r: Request)
    requires r.Convert? && QuoteOf(r).Success?
    ensures var (a, b) := (Account(r.user, AVAILABLE, r.fromCurrency), Account(r.user, AVAILABLE, r.toCurrency));
            var q := QuoteOf(r).value;
            PlanOf(Prepare(db, r), r).Planned? <==>
            Fits(Sum(db.entries, a)) && q.input <= Sum(db.entries, a) && Fits(Sum(db.entries, b))
  {
    var d := Prepare(db, r);
    assert d.entries == db.entries;
    assert PlanOf(d, r) == PlanConvert(d, r);
  }

  // ---- Refusals ----

  /** The account a request pays from, or into for a credit. */
  function Payer(r: Request): Account {
    match r
    case Credit(user, kind, currency, _, _, _, _, _) => Account(user, kind, currency)
    case Debit(user, kind, currency, _, _, _, _, _) => Account(user, kind, currency)
    case WithdrawExternal(user, kind, currency, _, _, _, _, _) => Account(user, kind, OrNgn(currency))
    case Transfer(user, fromKind, _, currency, _, _, _, _) => Account(user, fromKind, OrNgn(currency))
    case Convert(user, _, fromCurrency, _, _, _) => Account(user, AVAILABLE, fromCurrency)
  }

  /** What it needs there. */
  function Needs(r: Request): int {
    match r
    case Credit(_, _, _, _, _, _, _, _) => 0
    case Debit(_, _, _, _, amount, fee, _, _) => Wrap(amount + fee)
    case WithdrawExternal(_, _, _, _, amount, fee, _, _) => Wrap(amount + fee)
    case Transfer(_, _, _, _, amount, fee, _, _) => Wrap(amount + fee)
    case Convert(_, amount, _, _, _, _) => amount
  }

  /** The movement would leave what an account holds out of range. */
  predicate OutOfRange(db: Db, r: Request) {
    var sum := Sum(db.entries, Payer(r));
    || (r.Credit? && !(0 <= sum + r.amount <= MAX))
    || (r.Debit? && sum + Needs(r) > MAX)
  }

  ghost predicate Short(db: Db, r: Request) {
    && (r.Convert? || Payer(r) in db.accounts) && Fits(Sum(db.entries, Payer(r)))
    && ((!r.Credit? && Sum(db.entries, Payer(r)) < Needs(r)) || OutOfRange(db, r))
  }

  lemma MoveShortIff(db: Db, r: Request)
    requires (r.Credit? || r.Debit?) && WellTyped(r) && Precheck(r).None?
    ensures PlanMove(db, r) == Refused(InsufficientBalance) <==> Short(db, r)
  {
    var current := Sum(db.entries, Payer(r));
    if Fits(current) {
      GuardIff(current, if r.Credit? then r.amount else Needs(r));
    }
  }

  lemma PaymentShortIff(db: Db, r: Request)
    requires (r.WithdrawExternal? || r.Transfer?) && WellTyped(r)
    ensures PlanOf(db, r) == Refused(InsufficientBalance) <==> Short(db, r)
  {
  }

  lemma ConvertShortIff(db: Db, r: Request)
    requires r.Convert? && WellTyped(r) && QuoteOf(r).Success?
    ensures PlanOf(Prepare(db, r), r) == Refused(InsufficientBalance) <==> Short(db, r)
  {
    QuoteExact(r.amount, r.rate.value, r.fromCurrency, r.toCurrency);
    assert PlanOf(Prepare(db, r), r) == PlanConvert(Prepare(db, r), r);
  }

  lemma RefusedIff(db: Db, r: Request)
    ensures Apply(db, r).1 == Rejected(InsufficientBalance) <==>
            Precheck(r).None? && !KeyUsed(db, r.key) && PlanOf(Prepare(db, r), r) == Refused(InsufficientBalance)
  {
  }

  /** A request is refused for its balance exactly when it is valid and new, and the payer is short or out of range. */
  lemma ShortIff(db: Db, r: Request)
    requires WellTyped(r)
    ensures Apply(db, r).1 == Rejected(InsufficientBalance) <==>
            Precheck(r).None? && !KeyUsed(db, r.key) && Short(db, r)
  {
    RefusedIff(db, r);
    if Precheck(r).None? {
      if r.Credit? || r.Debit? {
        MoveShortIff(db, r);
        assert PlanOf(db, r) == PlanMove(db, r);
      } else if r.Convert? {
        ConvertShortIff(db, r);
      } else {
        PaymentShortIff(db, r);
      }
    }
  }
}
