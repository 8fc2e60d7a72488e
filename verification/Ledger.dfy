/**
 The append-only money ledger as a value: the `accounts`, `transactions`,
 `ledger_entries` and `balances` tables, what each request plans to post, and
 what a committed posting does to the tables.

 `Post` says what a commit means without following the code: the rows are
 appended and the projection of every touched account becomes the sum of its
 entries. The `Store` class reaches the same state by reading sums and
 overwriting balances one statement at a time.
 */
module Ledger {
  import opened Int64
  import opened Quote

  const PLATFORM_USER: string := "00000000-0000-0000-0000-000000000001"
  const AVAILABLE: string := "available"
  const PLATFORM_FEES: string := "platform_fees"

  /** (user_id, kind, currency) is unique, so it stands for the account's id. */
  datatype Account = Account(user: string, kind: string, currency: string)

  datatype Txn = Txn(user: string, typ: string, currency: string, amount: int, fee: int,
                     providerRef: string, key: string)

  /** `txn` is the row number of the owning transaction. */
  datatype Entry = Entry(txn: nat, account: Account, credit: bool, amount: int) {
    function Delta(): int {
      if credit then amount else -amount
    }
  }

  datatype Db = Db(accounts: seq<Account>, txns: seq<Txn>, entries: seq<Entry>, balances: map<Account, int>) {
    /** A missing balance row reads as zero. */
    function Balance(a: Account): int {
      if a in balances then balances[a] else 0
    }
  }

  datatype Option<+T> = None | Some(value: T)

  datatype Error = InvalidAmount | InsufficientBalance | NotFound | SumOutOfRange | Conflict | BadQuote

  /** What a request leaves behind: a fresh transaction, an old one, or an error. */
  datatype Outcome = Committed(txn: Txn) | Replayed(txn: Txn) | Rejected(error: Error)

  datatype Request =
    | Credit(user: string, kind: string, currency: string, typ: string, amount: int, fee: int, ref: string, key: string)
    | Debit(user: string, kind: string, currency: string, typ: string, amount: int, fee: int, ref: string, key: string)
    | WithdrawExternal(user: string, kind: string, currency: string, typ: string, amount: int, fee: int,
                       ref: string, key: string)
    | Transfer(user: string, fromKind: string, toKind: string, currency: string, amount: int, fee: int,
               ref: string, key: string)
    | Convert(user: string, amount: int, fromCurrency: string, toCurrency: string, rate: Option<Rate>, key: string)

  /** Every integer the Go code holds is an int64. */
  predicate WellTyped(r: Request) {
    match r
    case Credit(_, _, _, _, amount, fee, _, _) => Fits(amount) && Fits(fee)
    case Debit(_, _, _, _, amount, fee, _, _) => Fits(amount) && Fits(fee)
    case WithdrawExternal(_, _, _, _, amount, fee, _, _) => Fits(amount) && Fits(fee)
    case Transfer(_, _, _, _, amount, fee, _, _) => Fits(amount) && Fits(fee)
    case Convert(_, amount, _, _, rate, _) => Fits(amount) && (rate.Some? ==> rate.value.WellTyped())
  }

  // ---- Queries ----

  /** Credits minus debits of one account, as an exact integer. */
  function Sum(es: seq<Entry>, a: Account): int {
    if es == [] then 0
    else Sum(es[..|es| - 1], a) + At(es[|es| - 1], a)
  }

  function At(e: Entry, a: Account): int {
    if e.account == a then e.Delta() else 0
  }

  /** The driver refuses to scan a sum that no int64 holds. */
  function SumBalance(db: Db, a: Account): Option<int> {
    var s := Sum(db.entries, a);
    if Fits(s) then Some(s) else None
  }

  function FindKey(txns: seq<Txn>, key: string): Option<Txn> {
    if txns == [] then None
    else if txns[0].key == key then Some(txns[0])
    else FindKey(txns[1..], key)
  }

  predicate KeyUsed(db: Db, key: string) {
    key != "" && FindKey(db.txns, key).Some?
  }

  function OrNgn(currency: string): string {
    if currency == "" then "NGN" else currency
  }

  // ---- What a request posts ----

  datatype Posting = Posting(txn: Txn, entries: seq<Entry>)

  datatype Plan = Planned(posting: Posting) | Refused(error: Error)

  /** The rows a request writes when it runs alone on `db`; `Refused` is a rolled-back transaction. */
  function PlanOf(db: Db, r: Request): Plan {
    match r
    case Credit(_, _, _, _, _, _, _, _) => PlanMove(db, r)
    case Debit(_, _, _, _, _, _, _, _) => PlanMove(db, r)
    case WithdrawExternal(_, _, _, _, _, _, _, _) => PlanWithdraw(db, r)
    case Transfer(_, _, _, _, _, _, _, _) => PlanTransfer(db, r)
    case Convert(_, _, _, _, _, _) => PlanConvert(db, r)
  }

  function PlanMove(db: Db, r: Request): Plan
    requires r.Credit? || r.Debit?
  {
    var a := Account(r.user, r.kind, r.currency);
    var total := if r.Credit? then r.amount else Wrap(r.amount + r.fee);
    if a !in db.accounts then Refused(NotFound)
    else
      match SumBalance(db, a)
      case None => Refused(SumOutOfRange)
      case Some(current) =>
        if r.Debit? && current < total then Refused(InsufficientBalance)
        else if total > 0 && Wrap(current + total) < 0 then Refused(InsufficientBalance)
        else Planned(Posting(Txn(r.user, r.typ, r.currency, r.amount, r.fee, r.ref, r.key),
                             [Entry(|db.txns|, a, r.Credit?, total)]))
  }

  function FeeAccount(currency: string): Account {
    Account(PLATFORM_USER, PLATFORM_FEES, currency)
  }

  function PlanWithdraw(db: Db, r: Request): Plan
    requires r.WithdrawExternal?
  {
    var c := OrNgn(r.currency);
    var a := Account(r.user, r.kind, c);
    var total := Wrap(r.amount + r.fee);
    var n := |db.txns|;
    if a !in db.accounts then Refused(NotFound)
    else
      match SumBalance(db, a)
      case None => Refused(SumOutOfRange)
      case Some(current) =>
        var txn := Txn(r.user, r.typ, c, r.amount, r.fee, r.ref, r.key);
        var paid := [Entry(n, a, false, total)];
        if current < total then Refused(InsufficientBalance)
        else if r.fee <= 0 then Planned(Posting(txn, paid))
        else if !Fits(Sum(db.entries + paid, FeeAccount(c))) then Refused(SumOutOfRange)
        else Planned(Posting(txn, paid + [Entry(n, FeeAccount(c), true, r.fee)]))
  }

  function PlanTransfer(db: Db, r: Request): Plan
    requires r.Transfer?
  {
    var c := OrNgn(r.currency);
    var a := Account(r.user, r.fromKind, c);
    var b := Account(r.user, r.toKind, c);
    var n := |db.txns|;
    if a !in db.accounts then Refused(NotFound)
    else
      match SumBalance(db, a)
      case None => Refused(SumOutOfRange)
      case Some(current) =>
        var txn := Txn(r.user, "transfer", c, r.amount, r.fee, r.ref, r.key);
        var paid := [Entry(n, a, false, r.amount)] + if r.fee > 0 then [Entry(n, a, false, r.fee)] else [];
        if current < Wrap(r.amount + r.fee) then Refused(InsufficientBalance)
        else if r.toKind == "" then Planned(Posting(txn, paid))
        else if b !in db.accounts then Refused(NotFound)
        else if !Fits(Sum(db.entries + paid, b)) then Refused(SumOutOfRange)
        else Planned(Posting(txn, paid + [Entry(n, b, true, r.amount)]))
  }

  function PlanConvert(db: Db, r: Request): Plan
    requires r.Convert?
  {
    var a := Account(r.user, AVAILABLE, r.fromCurrency);
    var b := Account(r.user, AVAILABLE, r.toCurrency);
    var n := |db.txns|;
    match QuoteOf(r)
    case Failure => Refused(BadQuote)
    case Success(q) =>
      if a !in db.accounts || b !in db.accounts then Refused(NotFound)
      else if SumBalance(db, a).None? then Refused(SumOutOfRange)
      else if SumBalance(db, a).value < q.input then Refused(InsufficientBalance)
      else if SumBalance(db, b).None? then Refused(SumOutOfRange)
      else Planned(Posting(Txn(r.user, "conversion", r.fromCurrency, q.input, q.fee, "", r.key),
                           [Entry(n, a, false, q.input), Entry(n, b, true, q.output)]))
  }

  function QuoteOf(r: Request): Quoted
    requires r.Convert?
  {
    match r.rate
    case None => Failure
    case Some(rate) => QuoteConversion(r.amount, rate, r.fromCurrency, r.toCurrency)
  }

  // ---- What a commit does ----

  function Touched(es: seq<Entry>): set<Account> {
    if es == [] then {} else Touched(es[..|es| - 1]) + {es[|es| - 1].account}
  }

  function SumOf(es: seq<Entry>): Account -> int {
    a => Sum(es, a)
  }

  /** The balance rows once the accounts in `touched` are recomputed from `sum`. */
  function Project(balances: map<Account, int>, sum: Account -> int, touched: set<Account>): map<Account, int> {
    map a | a in balances.Keys + touched :: if a in touched then Wrap(sum(a)) else balances[a]
  }

  /** Append the rows; each touched account's projection becomes the sum of its entries. */
  function Post(db: Db, p: Posting): Db {
    var es := db.entries + p.entries;
    Db(db.accounts, db.txns + [p.txn], es, Project(db.balances, SumOf(es), Touched(p.entries)))
  }

  /**
   What the commit of `Convert` leaves. Both sums are read before either entry
   is written, so when both currencies name one account the second balance
   write forgets the debit.
   */
  function PostConvert(db: Db, r: Request, p: Posting): Db
    requires r.Convert? && QuoteOf(r).Success?
  {
    var a := Account(r.user, AVAILABLE, r.fromCurrency);
    var posted := Post(db, p);
    if r.fromCurrency != r.toCurrency then posted
    else posted.(balances := posted.balances[a := Wrap(Sum(db.entries, a) + QuoteOf(r).value.output)])
  }

  function Ensure(db: Db, a: Account): Db {
    if a in db.accounts then db else db.(accounts := db.accounts + [a])
  }

  /** Rejections made before any lookup. */
  function Precheck(r: Request): Option<Error> {
    match r
    case Credit(_, _, _, _, amount, _, _, _) => if amount <= 0 then Some(InvalidAmount) else None
    case Debit(_, _, _, _, amount, fee, _, _) => if Wrap(amount + fee) <= 0 then Some(InvalidAmount) else None
    case WithdrawExternal(_, _, _, _, amount, fee, _, _) => if amount <= 0 || fee < 0 then Some(InvalidAmount) else None
    case Transfer(_, _, _, _, amount, _, _, _) => if amount <= 0 then Some(InvalidAmount) else None
    case Convert(_, _, _, _, _, _) => if QuoteOf(r).Failure? then Some(BadQuote) else None
  }

  /**
   Accounts a request creates outside its transaction: `Convert` ensures both
   of its accounts once it has a quote, before it looks up the key.
   */
  function Prepare(db: Db, r: Request): Db {
    if r.Convert? && QuoteOf(r).Success? then
      Ensure(Ensure(db, Account(r.user, AVAILABLE, r.fromCurrency)), Account(r.user, AVAILABLE, r.toCurrency))
    else db
  }

  /** The fee account is ensured inside the transaction, so only a commit keeps it. */
  function PrepareInTx(db: Db, r: Request): Db {
    if r.WithdrawExternal? && r.fee > 0 then Ensure(db, FeeAccount(OrNgn(r.currency))) else db
  }

  function Commit(db: Db, r: Request, p: Posting): Db
    requires r.Convert? ==> QuoteOf(r).Success?
  {
    if r.Convert? then PostConvert(db, r, p) else Post(PrepareInTx(db, r), p)
  }

  /** One request run alone: validation, replay lookup, then the transaction. */
  function Apply(db: Db, r: Request): (Db, Outcome) {
    match Precheck(r)
    case Some(e) => (db, Rejected(e))
    case None =>
      var d := Prepare(db, r);
      if KeyUsed(d, r.key) then (d, Replayed(FindKey(d.txns, r.key).value))
      else
        match PlanOf(d, r)
        case Refused(e) => (d, Rejected(e))
        case Planned(p) => (Commit(d, r, p), Committed(p.txn))
  }

  /** Requests served one after another. */
  function Run(db: Db, rs: seq<Request>): Db
    decreases |rs|
  {
    if rs == [] then db else Run(Apply(db, rs[0]).0, rs[1..])
  }

  // ---- Invariants ----

  /** Every stored balance is its account's sum of entries, as an int64 holds it. */
  ghost predicate Agrees(db: Db) {
    forall a: Account :: db.Balance(a) == Wrap(Sum(db.entries, a))
  }

  /** Foreign keys and unique constraints of the schema. */
  ghost predicate Valid(db: Db) {
    && (forall i, j :: 0 <= i < j < |db.accounts| ==> db.accounts[i] != db.accounts[j])
    && (forall i :: 0 <= i < |db.entries| ==> db.entries[i].account in db.accounts && db.entries[i].txn < |db.txns|)
    && (forall i, j :: 0 <= i < j < |db.txns| && db.txns[i].key != "" ==> db.txns[i].key != db.txns[j].key)
  }

  ghost predicate NonNegative(db: Db) {
    forall a: Account :: Sum(db.entries, a) >= 0
  }

  // ---- Sums ----

  lemma {:induction false} SumAppend(es: seq<Entry>, fs: seq<Entry>, a: Account)
    ensures Sum(es + fs, a) == Sum(es, a) + Sum(fs, a)
  {
    if fs == [] {
      assert es + fs == es;
    } else {
      var n := |fs| - 1;
      assert (es + fs)[..|es + fs| - 1] == es + fs[..n];
      SumAppend(es, fs[..n], a);
    }
  }

  lemma Sum1(e: Entry, a: Account)
    ensures Sum([e], a) == At(e, a)
  {
    assert [e][..0] == [];
  }

  lemma Sum2(e: Entry, f: Entry, a: Account)
    ensures Sum([e, f], a) == At(e, a) + At(f, a)
  {
    assert [e, f] == [e] + [f];
    SumAppend([e], [f], a);
    Sum1(e, a);
    Sum1(f, a);
  }

  lemma {:induction false} SumUntouched(es: seq<Entry>, a: Account)
    requires a !in Touched(es)
    ensures Sum(es, a) == 0
  {
    if es != [] {
      var n := |es| - 1;
      SumUntouched(es[..n], a);
    }
  }

  // ---- Keys ----

  lemma {:induction false} FindKeyIff(txns: seq<Txn>, key: string)
    ensures FindKey(txns, key).Some? <==> exists i :: 0 <= i < |txns| && txns[i].key == key
    ensures FindKey(txns, key).Some? ==> FindKey(txns, key).value in txns && FindKey(txns, key).value.key == key
  {
    if txns != [] {
      FindKeyIff(txns[1..], key);
      if txns[0].key != key {
        if i :| 0 <= i < |txns| && txns[i].key == key {
          assert txns[1..][i - 1].key == key;
        }
      }
    }
  }

  lemma {:induction false} FindKeyAppend(txns: seq<Txn>, t: Txn, key: string)
    ensures FindKey(txns + [t], key) ==
            if FindKey(txns, key).Some? then FindKey(txns, key) else if t.key == key then Some(t) else None
  {
    if txns == [] {
      assert [] + [t] == [t];
      assert [t][1..] == [];
    } else {
      assert (txns + [t])[1..] == txns[1..] + [t];
      FindKeyAppend(txns[1..], t, key);
    }
  }

  // ---- The projection law ----

  /** Appending rows and recomputing touched projections keeps every projection right. */
  lemma PostAgrees(db: Db, p: Posting)
    requires Agrees(db)
    ensures Agrees(Post(db, p))
  {
    var d := Post(db, p);
    forall a: Account ensures d.Balance(a) == Wrap(Sum(d.entries, a)) {
      if a !in Touched(p.entries) {
        SumAppend(db.entries, p.entries, a);
        SumUntouched(p.entries, a);
        assert db.Balance(a) == Wrap(Sum(db.entries, a));
      }
    }
  }

  lemma EnsureAgrees(db: Db, a: Account)
    requires Agrees(db)
    ensures Agrees(Ensure(db, a))
  {
    assert forall b: Account :: Ensure(db, a).Balance(b) == db.Balance(b);
  }

  /** A conversion that commits breaks the projection exactly when both currencies are the same. */
  lemma ConvertAgreesIff(db: Db, r: Request)
    requires r.Convert? && WellTyped(r) && Agrees(db)
    ensures Apply(db, r).1.Committed? ==> (Agrees(Apply(db, r).0) <==> r.fromCurrency != r.toCurrency)
  {
    if Apply(db, r).1.Committed? {
      var a := Account(r.user, AVAILABLE, r.fromCurrency);
      var b := Account(r.user, AVAILABLE, r.toCurrency);
      EnsureAgrees(db, a);
      EnsureAgrees(Ensure(db, a), b);
      var d := Prepare(db, r);
      PostAgrees(d, PlanOf(d, r).posting);
      if r.fromCurrency == r.toCurrency {
        SameCurrencyDisagrees(d, r);
      }
    }
  }

  /** With one account on both sides the second balance write forgets the debit. */
  lemma SameCurrencyDisagrees(db: Db, r: Request)
    requires r.Convert? && WellTyped(r) && r.fromCurrency == r.toCurrency && PlanConvert(db, r).Planned?
    ensures !Agrees(PostConvert(db, r, PlanConvert(db, r).posting))
  {
    var a, p, q := Account(r.user, AVAILABLE, r.fromCurrency), PlanConvert(db, r).posting, QuoteOf(r).value;
    QuoteExact(r.amount, r.rate.value, r.fromCurrency, r.toCurrency);
    var e, f, s := p.entries[0], p.entries[1], Sum(db.entries, a);
    SumAppend(db.entries, p.entries, a);
    assert p.entries == [e, f];
    Sum2(e, f, a);
    var d := PostConvert(db, r, p);
    assert Sum(d.entries, a) == s - q.input + q.output;
    assert d.Balance(a) == Wrap(s + q.output);
    WrapDistinct(s + q.output, q.input);
  }

  ghost predicate DistinctCurrencies(r: Request) {
    r.Convert? ==> r.fromCurrency != r.toCurrency
  }

  lemma ApplyAgrees(db: Db, r: Request)
    requires Agrees(db) && DistinctCurrencies(r)
    ensures Agrees(Apply(db, r).0)
  {
    if r.Convert? {
      EnsureAgrees(db, Account(r.user, AVAILABLE, r.fromCurrency));
      EnsureAgrees(Ensure(db, Account(r.user, AVAILABLE, r.fromCurrency)), Account(r.user, AVAILABLE, r.toCurrency));
    }
    var d := Prepare(db, r);
    assert Agrees(d);
    if Precheck(r).None? && !KeyUsed(d, r.key) && PlanOf(d, r).Planned? {
      if r.WithdrawExternal? {
        EnsureAgrees(d, FeeAccount(OrNgn(r.currency)));
      }
      PostAgrees(PrepareInTx(d, r), PlanOf(d, r).posting);
    }
  }

  /**
   After any serial run every stored balance equals its account's credits
   minus debits, whichever requests were rejected, replayed or hit one
   account twice.
   */
  lemma {:induction false} RunAgrees(db: Db, rs: seq<Request>)
    requires Agrees(db) && forall i :: 0 <= i < |rs| ==> DistinctCurrencies(rs[i])
    ensures Agrees(Run(db, rs))
    decreases |rs|
  {
    if rs != [] {
      ApplyAgrees(db, rs[0]);
      RunAgrees(Apply(db, rs[0]).0, rs[1..]);
    }
  }
}
