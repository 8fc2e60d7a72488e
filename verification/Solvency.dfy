/** Custody against liabilities: NGN balances are always backed by the USDC the vault holds. */
module Solvency {
  import opened Int64
  import opened Arithmetic
  import opened Ledger
  import opened Conservation

  const BASE: int := 1_000_000

  /** kobo credited for `base` micro-USDC; a result no int64 holds is cut to its low 64 bits. */
  function DepositNgn(base: nat, rate: int): int {
    Wrap(base * rate / BASE)
  }

  /** micro-USDC paid out for `ngn` kobo. */
  function WithdrawUsdc(ngn: int, rate: int): int
    requires rate > 0
  {
    Wrap(ngn * BASE / rate)
  }

  /**
   `custody` is every micro-USDC held on chain, `uncredited` the part whose
   deposits have not been credited (yet).
   */
  datatype Vault = Vault(db: Db, custody: int, uncredited: nat, rate: int)

  datatype Step =
    | Arrive(base: nat)
    | CreditDeposit(user: string, base: nat, key: string)
    | Move(request: Request)
    | SetRate(rateMinor: int)
    | Withdraw(user: string, amount: int, fee: int, key: string, chainOk: bool)

  function DepositRequest(user: string, ngn: int, key: string): Request {
    Credit(user, AVAILABLE, "NGN", "deposit", ngn, 0, "", key)
  }

  function WithdrawRequest(user: string, amount: int, fee: int, key: string): Request {
    WithdrawExternal(user, AVAILABLE, "NGN", "withdrawal", amount, fee, "tx", key)
  }

  /** hasSufficientNGN on the available NGN account. */
  predicate Sufficient(db: Db, user: string, total: int) {
    var a := Account(user, AVAILABLE, "NGN");
    a in db.accounts && SumBalance(db, a).Some? && SumBalance(db, a).value >= total
  }

  /** The unsigned withdrawal reaches the chain. */
  predicate Broadcasts(v: Vault, s: Step)
    requires s.Withdraw? && v.rate > 0
  {
    && !KeyUsed(v.db, s.key)
    && Sufficient(v.db, s.user, Wrap(s.amount + s.fee))
    && WithdrawUsdc(s.amount, v.rate) > 0
    && s.chainOk
  }

  function Take(v: Vault, s: Step): Vault
    requires v.rate > 0
  {
    match s
    case Arrive(base) => v.(custody := v.custody + base, uncredited := v.uncredited + base)
    case CreditDeposit(user, base, key) =>
      var ngn := DepositNgn(base, v.rate);
      if base > v.uncredited || ngn <= 0 then v
      else
        var (d, o) := Apply(v.db, DepositRequest(user, ngn, key));
        v.(db := d, uncredited := if o.Committed? then v.uncredited - base else v.uncredited)
    case Move(request) => v.(db := Apply(v.db, request).0)
    case SetRate(rateMinor) => if rateMinor > 0 then v.(rate := rateMinor) else v
    case Withdraw(user, amount, fee, key, _) =>
      if !Broadcasts(v, s) then v
      else v.(custody := v.custody - WithdrawUsdc(amount, v.rate),
              db := Apply(v.db, WithdrawRequest(user, amount, fee, key)).0)
  }

  function Liabilities(v: Vault): int {
    Totals(v.db, "NGN")
  }

  ghost predicate Solvent(v: Vault) {
    && Valid(v.db) && NonNegative(v.db) && v.rate > 0
    && (v.custody - v.uncredited) * v.rate >= Liabilities(v) * BASE
  }

  /**
   What the run is assumed to do: the rate never falls, money moves only by
   transfers and debits besides the vault, amounts are the validated ones, and
   the NGN supply fits int64 when a withdrawal is served.
   */
  ghost predicate Fair(v: Vault, s: Step) {
    match s
    case Arrive(_) => true
    case CreditDeposit(_, _, _) => true
    case Move(request) => (request.Transfer? || request.Debit?) && Safe(request)
    case SetRate(rateMinor) => rateMinor >= v.rate
    case Withdraw(_, amount, fee, _, _) => amount > 0 && fee >= 0 && amount + fee <= MAX && Liabilities(v) <= MAX
  }

  // ---- Conversion never favours the user ----

  /** A deposit is credited its worth at the rate, rounded down to the kobo; past int64 only low bits are left. */
  lemma DepositExact(base: nat, rate: int)
    requires rate > 0
    ensures var n := DepositNgn(base, rate);
            && n * 1_000_000 <= base * rate
            && (base * rate / 1_000_000 <= MAX ==> base * rate < (n + 1) * 1_000_000)
            && n == Wrap(base * rate / 1_000_000)
  {
    MulMono(0, rate, base);
    DivMod(base * rate, 1_000_000);
  }

  /** A withdrawal is paid its worth at the rate, rounded down to the micro-USDC; past int64 only low bits are left. */
  lemma WithdrawExact(ngn: nat, rate: int)
    requires rate > 0
    ensures var u := WithdrawUsdc(ngn, rate);
            && u * rate <= ngn * 1_000_000
            && (ngn * 1_000_000 / rate <= MAX ==> ngn * 1_000_000 < (u + 1) * rate)
            && u == Wrap(ngn * 1_000_000 / rate)
  {
    var q := ngn * 1_000_000 / rate;
    DivMod(ngn * 1_000_000, rate);
    MulMono(WithdrawUsdc(ngn, rate), q, rate);
    Distribute(q, 1, rate);
  }

  // ---- The pre-check covers the debit ----

  /** One account's entries are part of the supply. */
  lemma SumWithin(db: Db, a: Account)
    requires Valid(db) && NonNegative(db) && Totals(db, a.currency) <= MAX
    ensures Fits(Sum(db.entries, a))
    ensures a in db.accounts ==> Sum(db.entries, a) <= Totals(db, a.currency)
  {
    if a in db.accounts {
      PartOfTotal(db.accounts, db.entries, a);
    } else {
      AbsentSum(db, db.entries, a);
    }
  }

  /** A withdrawal that passes the balance pre-check and is broadcast is always debited. */
  lemma BroadcastIsDebited(v: Vault, s: Step)
    requires s.Withdraw? && Solvent(v) && Fair(v, s) && Broadcasts(v, s)
    ensures Apply(v.db, WithdrawRequest(s.user, s.amount, s.fee, s.key)).1.Committed?
  {
    var r := WithdrawRequest(s.user, s.amount, s.fee, s.key);
    var a, f := Account(s.user, AVAILABLE, "NGN"), FeeAccount("NGN");
    var e := Entry(|v.db.txns|, a, false, s.amount + s.fee);
    SumAppend(v.db.entries, [e], f);
    Sum1(e, f);
    SumWithin(v.db, f);
    assert PlanWithdraw(v.db, r).Planned?;
  }

  /** ... and never for more USDC than is in custody and credited. */
  lemma BroadcastIsCovered(v: Vault, s: Step)
    requires s.Withdraw? && Solvent(v) && Fair(v, s) && Broadcasts(v, s)
    ensures WithdrawUsdc(s.amount, v.rate) <= v.custody - v.uncredited
  {
    SumWithin(v.db, Account(s.user, AVAILABLE, "NGN"));
    WithdrawExact(s.amount, v.rate);
    var usdc, backed := WithdrawUsdc(s.amount, v.rate), v.custody - v.uncredited;
    MulMono(s.amount, Liabilities(v), BASE);
    if usdc > backed {
      MulMono(backed + 1, usdc, v.rate);
      Distribute(backed, 1, v.rate);
    }
  }

  // ---- Steps ----

  /** How one request moves the NGN liabilities. */
  lemma LiabilitiesMove(db: Db, r: Request)
    requires Valid(db) && NoOverflow(r)
    ensures var (d, o) := Apply(db, r);
            && Valid(d)
            && Totals(d, "NGN") == Totals(db, "NGN") + if o.Committed? then Book(BLANK, r, "NGN").Net() else 0
  {
    var (d, o) := Apply(db, r);
    ApplyValid(db, r);
    TotalIsFlow(db.accounts, db.entries, "NGN");
    TotalIsFlow(d.accounts, d.entries, "NGN");
    ApplyRows(db, r);
    if o.Committed? {
      ApplyFlow(db, r, BLANK, "NGN");
    }
  }

  lemma DepositSolvent(v: Vault, s: Step)
    requires s.CreditDeposit? && Solvent(v)
    ensures Solvent(Take(v, s))
  {
    var ngn := DepositNgn(s.base, v.rate);
    if s.base <= v.uncredited && ngn > 0 {
      var r := DepositRequest(s.user, ngn, s.key);
      LiabilitiesMove(v.db, r);
      ApplyNonNegative(v.db, r);
      DepositExact(s.base, v.rate);
      Distribute(v.custody - v.uncredited, s.base, v.rate);
    }
  }

  /** A step of the ledger alone that adds no liability. */
  lemma OwesNoMore(v: Vault, db: Db)
    requires Solvent(v) && Valid(db) && NonNegative(db) && Totals(db, "NGN") <= Liabilities(v)
    ensures Solvent(v.(db := db))
  {
    MulMono(Totals(db, "NGN"), Liabilities(v), BASE);
  }

  lemma MoveSolvent(v: Vault, s: Step)
    requires s.Move? && Solvent(v) && Fair(v, s)
    ensures Solvent(Take(v, s))
  {
    var db := Apply(v.db, s.request).0;
    MoveOwesNoMore(v.db, s.request);
    OwesNoMore(v, db);
  }

  lemma MoveOwesNoMore(db: Db, r: Request)
    requires (r.Transfer? || r.Debit?) && Safe(r) && Valid(db) && NonNegative(db)
    ensures var d := Apply(db, r).0; Valid(d) && NonNegative(d) && Totals(d, "NGN") <= Totals(db, "NGN")
  {
    LiabilitiesMove(db, r);
    ApplyNonNegative(db, r);
    if Apply(db, r).1.Committed? {
      MoveNeverAdds(db, r);
    }
  }

  /** Transfers and debits never raise a currency total. */
  lemma MoveNeverAdds(db: Db, r: Request)
    requires (r.Transfer? || r.Debit?) && Safe(r) && Apply(db, r).1.Committed?
    ensures Book(BLANK, r, "NGN").Net() <= 0
  {
  }

  lemma WithdrawSolvent(v: Vault, s: Step)
    requires s.Withdraw? && Solvent(v) && Fair(v, s)
    ensures Solvent(Take(v, s))
  {
    if Broadcasts(v, s) {
      var r := WithdrawRequest(s.user, s.amount, s.fee, s.key);
      BroadcastIsDebited(v, s);
      LiabilitiesMove(v.db, r);
      ApplyNonNegative(v.db, r);
      WithdrawExact(s.amount, v.rate);
      Distribute(v.custody - v.uncredited, WithdrawUsdc(s.amount, v.rate), v.rate);
    }
  }

  lemma StepSolvent(v: Vault, s: Step)
    requires Solvent(v) && Fair(v, s)
    ensures Solvent(Take(v, s))
  {
    match s {
      case Arrive(base) =>
      case CreditDeposit(_, _, _) => DepositSolvent(v, s);
      case Move(_) => MoveSolvent(v, s);
      case SetRate(rateMinor) => RateSolvent(v, rateMinor);
      case Withdraw(_, _, _, _, _) => WithdrawSolvent(v, s);
    }
  }

  lemma RateSolvent(v: Vault, rateMinor: int)
    requires Solvent(v) && rateMinor >= v.rate
    ensures Solvent(v.(rate := rateMinor))
  {
    var backed := v.custody - v.uncredited;
    TotalNonNegative(v.db.accounts, v.db.entries, "NGN");
    if backed < 0 {
      MulMono(1, -backed, v.rate);
      Distribute(backed, -backed, v.rate);
    } else {
      MulMono(v.rate, rateMinor, backed);
    }
  }

  ghost predicate FairRun(v: Vault, steps: seq<Step>)
    decreases |steps|
  {
    steps == [] || (v.rate > 0 && Fair(v, steps[0]) && FairRun(Take(v, steps[0]), steps[1..]))
  }

  function TakeAll(v: Vault, steps: seq<Step>): Vault
    decreases |steps|
  {
    if steps == [] || v.rate <= 0 then v else TakeAll(Take(v, steps[0]), steps[1..])
  }

  /**
   Solvency: over every fair run, custody at the current rate covers every
   NGN balance, so custody is never overdrawn.
   */
  lemma {:induction false} RunSolvent(v: Vault, steps: seq<Step>)
    requires Solvent(v) && FairRun(v, steps)
    ensures Solvent(TakeAll(v, steps)) && TakeAll(v, steps).custody >= 0
    decreases |steps|
  {
    if steps == [] {
      TotalNonNegative(v.db.accounts, v.db.entries, "NGN");
      if v.custody - v.uncredited < 0 {
        MulMono(1, v.uncredited - v.custody, v.rate);
        Distribute(v.custody, v.uncredited, v.rate);
        Distribute(v.uncredited, v.custody, v.rate);
      }
    } else {
      StepSolvent(v, steps[0]);
      RunSolvent(Take(v, steps[0]), steps[1..]);
    }
  }
}
