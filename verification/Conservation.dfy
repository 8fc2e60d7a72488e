/** What serial runs of money requests keep: schema validity, non-negative accounts, and every kobo. */
module Conservation {
  import opened Int64
  import opened Quote
  import opened Ledger

  // ---- Schema constraints survive every request ----

  lemma EnsureValid(db: Db, a: Account)
    requires Valid(db)
    ensures Valid(Ensure(db, a)) && a in Ensure(db, a).accounts
  {
    var d := Ensure(db, a);
    assert forall b :: b in db.accounts ==> b in d.accounts;
  }

  lemma PostValid(db: Db, p: Posting)
    requires Valid(db) && !KeyUsed(db, p.txn.key)
    requires forall e :: e in p.entries ==> e.account in db.accounts && e.txn <= |db.txns|
    ensures Valid(Post(db, p))
  {
    FindKeyIff(db.txns, p.txn.key);
  }

  lemma PrepareValid(db: Db, r: Request)
    requires Valid(db)
    ensures Valid(Prepare(db, r)) && Prepare(db, r).entries == db.entries && Prepare(db, r).txns == db.txns
  {
    if r.Convert? {
      EnsureValid(db, Account(r.user, AVAILABLE, r.fromCurrency));
      EnsureValid(Ensure(db, Account(r.user, AVAILABLE, r.fromCurrency)), Account(r.user, AVAILABLE, r.toCurrency));
    }
  }

  /** Planned entries name existing accounts and the row about to be written. */
  lemma PlanRows(db: Db, r: Request)
    requires PlanOf(db, r).Planned?
    ensures var p := PlanOf(db, r).posting;
            && p.txn.key == r.key
            && forall e :: e in p.entries ==> e.account in PrepareInTx(db, r).accounts && e.txn == |db.txns|
  {
  }

  lemma ApplyValid(db: Db, r: Request)
    requires Valid(db)
    ensures Valid(Apply(db, r).0)
  {
    PrepareValid(db, r);
    var d := Prepare(db, r);
    if Apply(db, r).1.Committed? {
      var p := PlanOf(d, r).posting;
      PlanRows(d, r);
      CommitValid(d, r, p);
    }
  }

  lemma CommitValid(db: Db, r: Request, p: Posting)
    requires Valid(db) && !KeyUsed(db, p.txn.key) && (r.Convert? ==> QuoteOf(r).Success?)
    requires forall e :: e in p.entries ==> e.account in PrepareInTx(db, r).accounts && e.txn == |db.txns|
    ensures Valid(Commit(db, r, p))
  {
    EnsureValid(db, FeeAccount(OrNgn(if r.WithdrawExternal? then r.currency else "")));
    PostValid(PrepareInTx(db, r), p);
  }

  /** A commit appends exactly the planned rows; anything else appends none. */
  lemma ApplyRows(db: Db, r: Request)
    ensures var (d, o) := Apply(db, r);
            if o.Committed? then
              && PlanOf(Prepare(db, r), r).Planned?
              && d.entries == db.entries + PlanOf(Prepare(db, r), r).posting.entries
            else d.entries == db.entries
  {
  }

  /** Transactions are only appended, one per commit, and a commit's key was new. */
  lemma ApplyTxns(db: Db, r: Request)
    ensures var (d, o) := Apply(db, r);
            if o.Committed? then d.txns == db.txns + [o.txn] && o.txn.key == r.key && !KeyUsed(db, r.key)
            else d.txns == db.txns
  {
    if Apply(db, r).1.Committed? {
      PlanRows(Prepare(db, r), r);
    }
  }

  /** Row i posted one entry: a credit of its amount to its user's available account. */
  ghost predicate Booked(db: Db, i: nat)
    requires i < |db.txns|
  {
    exists k :: 0 <= k < |db.entries| && OnlyEntry(db, i, k)
  }

  ghost predicate OnlyEntry(db: Db, i: nat, k: nat)
    requires i < |db.txns| && k < |db.entries|
  {
    var t := db.txns[i];
    && db.entries[k] == Entry(i, Account(t.user, AVAILABLE, t.currency), true, t.amount)
    && forall j :: 0 <= j < |db.entries| && db.entries[j].txn == i ==> j == k
  }

  /** What a row posted is never added to or changed. */
  lemma BookedKept(db: Db, r: Request, i: nat)
    requires i < |db.txns| && Booked(db, i)
    ensures var d := Apply(db, r).0; i < |d.txns| && d.txns[i] == db.txns[i] && Booked(d, i)
  {
    var d := Apply(db, r).0;
    ApplyTxns(db, r);
    ApplyRows(db, r);
    if Apply(db, r).1.Committed? {
      PlanRows(Prepare(db, r), r);
      var es := PlanOf(Prepare(db, r), r).posting.entries;
      assert forall j :: 0 <= j < |es| ==> es[j] in es;
    }
    var k :| 0 <= k < |db.entries| && OnlyEntry(db, i, k);
    assert OnlyEntry(d, i, k);
  }

  /** A committed deposit is booked. */
  lemma CreditBooked(db: Db, r: Request)
    requires Valid(db) && r.Credit? && r.kind == AVAILABLE && Apply(db, r).1.Committed?
    ensures var d := Apply(db, r).0; |d.txns| == |db.txns| + 1 && Booked(d, |db.txns|)
  {
    var d := Apply(db, r).0;
    ApplyTxns(db, r);
    ApplyRows(db, r);
    assert OnlyEntry(d, |db.txns|, |db.entries|);
  }

  lemma ApplyKeepsKeys(db: Db, r: Request, key: string)
    ensures KeyUsed(db, key) ==> KeyUsed(Apply(db, r).0, key)
    ensures Apply(db, r).1.Committed? && r.key != "" ==> KeyUsed(Apply(db, r).0, r.key)
  {
    ApplyTxns(db, r);
    var (d, o) := Apply(db, r);
    if o.Committed? {
      FindKeyAppend(db.txns, o.txn, key);
      FindKeyAppend(db.txns, o.txn, r.key);
    }
  }

  // ---- Totals per currency ----

  /** All balances of one currency, added account by account. */
  function Total(accounts: seq<Account>, es: seq<Entry>, c: string): int {
    if accounts == [] then 0
    else
      var last := accounts[|accounts| - 1];
      Total(accounts[..|accounts| - 1], es, c) + if last.currency == c then Sum(es, last) else 0
  }

  function Totals(db: Db, c: string): int {
    Total(db.accounts, db.entries, c)
  }

  /** What the entries themselves add to a currency. */
  function Flow(es: seq<Entry>, c: string): int {
    if es == [] then 0
    else
      var last := es[|es| - 1];
      Flow(es[..|es| - 1], c) + if last.account.currency == c then last.Delta() else 0
  }

  lemma {:induction false} TotalSplit(accounts: seq<Account>, es: seq<Entry>, e: Entry, c: string)
    requires forall i, j :: 0 <= i < j < |accounts| ==> accounts[i] != accounts[j]
    ensures Total(accounts, es + [e], c) ==
            Total(accounts, es, c) + if e.account in accounts && e.account.currency == c then e.Delta() else 0
  {
    if accounts != [] {
      var n := |accounts| - 1;
      assert accounts == accounts[..n] + [accounts[n]];
      TotalSplit(accounts[..n], es, e, c);
      SumAppend(es, [e], accounts[n]);
      Sum1(e, accounts[n]);
    }
  }

  lemma {:induction false} TotalOfNothing(accounts: seq<Account>, c: string)
    ensures Total(accounts, [], c) == 0
  {
    if accounts != [] {
      TotalOfNothing(accounts[..|accounts| - 1], c);
    }
  }

  lemma {:induction false} TotalIsFlow(accounts: seq<Account>, es: seq<Entry>, c: string)
    requires forall i, j :: 0 <= i < j < |accounts| ==> accounts[i] != accounts[j]
    requires forall i :: 0 <= i < |es| ==> es[i].account in accounts
    ensures Total(accounts, es, c) == Flow(es, c)
  {
    if es == [] {
      TotalOfNothing(accounts, c);
    } else {
      var n := |es| - 1;
      assert es == es[..n] + [es[n]];
      TotalIsFlow(accounts, es[..n], c);
      TotalSplit(accounts, es[..n], es[n], c);
    }
  }

  lemma {:induction false} FlowAppend(es: seq<Entry>, fs: seq<Entry>, c: string)
    ensures Flow(es + fs, c) == Flow(es, c) + Flow(fs, c)
  {
    if fs == [] {
      assert es + fs == es;
    } else {
      var n := |fs| - 1;
      assert (es + fs)[..|es + fs| - 1] == es + fs[..n];
      FlowAppend(es, fs[..n], c);
    }
  }

  lemma Flow1(e: Entry, c: string)
    ensures Flow([e], c) == if e.account.currency == c then e.Delta() else 0
  {
    assert [e][..0] == [];
  }

  // ---- The books of a run ----

  /** What a run of committed requests moved in one currency. */
  datatype Books = Books(deposits: int, converted: int, sold: int, withdrawn: int, debited: int,
                         external: int, transferFees: int, platformFees: int) {
    function Net(): int {
      deposits + converted - sold - withdrawn - debited - external - transferFees
    }
  }

  const BLANK: Books := Books(0, 0, 0, 0, 0, 0, 0, 0)

  function Book(b: Books, r: Request, c: string): Books {
    match r
    case Credit(_, _, currency, _, amount, _, _, _) =>
      if currency == c then b.(deposits := b.deposits + amount) else b
    case Debit(_, _, currency, _, amount, fee, _, _) =>
      if currency == c then b.(debited := b.debited + amount + fee) else b
    case WithdrawExternal(_, _, currency, _, amount, fee, _, _) =>
      if OrNgn(currency) == c then b.(withdrawn := b.withdrawn + amount, platformFees := b.platformFees + fee) else b
    case Transfer(_, _, toKind, currency, amount, fee, _, _) =>
      if OrNgn(currency) == c then
        b.(external := b.external + (if toKind == "" then amount else 0),
           transferFees := b.transferFees + (if fee > 0 then fee else 0))
      else b
    case Convert(_, _, fromCurrency, toCurrency, _, _) =>
      if QuoteOf(r).Failure? then b
      else
        var q := QuoteOf(r).value;
        b.(sold := b.sold + (if fromCurrency == c then q.input else 0),
           converted := b.converted + (if toCurrency == c then q.output else 0))
  }

  function BooksOf(db: Db, rs: seq<Request>, b: Books, c: string): Books
    decreases |rs|
  {
    if rs == [] then b
    else
      var (d, o) := Apply(db, rs[0]);
      BooksOf(d, rs[1..], if o.Committed? then Book(b, rs[0], c) else b, c)
  }

  /** amount + fee stays inside int64, as far as the request adds them. */
  predicate NoOverflow(r: Request) {
    match r
    case Debit(_, _, _, _, amount, fee, _, _) => Fits(amount + fee)
    case WithdrawExternal(_, _, _, _, amount, fee, _, _) => Fits(amount + fee)
    case _ => true
  }

  /** One committed request moves the currency total by exactly what the books say. */
  lemma ApplyFlow(db: Db, r: Request, b: Books, c: string)
    requires NoOverflow(r) && Apply(db, r).1.Committed?
    ensures Flow(Apply(db, r).0.entries, c) == Flow(db.entries, c) + Book(b, r, c).Net() - b.Net()
  {
    ApplyRows(db, r);
    var d := Prepare(db, r);
    FlowAppend(db.entries, PlanOf(d, r).posting.entries, c);
    PlanFlow(d, r, b, c);
  }

  lemma PlanFlow(db: Db, r: Request, b: Books, c: string)
    requires NoOverflow(r) && Precheck(r).None? && PlanOf(db, r).Planned?
    ensures Flow(PlanOf(db, r).posting.entries, c) == Book(b, r, c).Net() - b.Net()
  {
    match r {
      case Credit(_, _, _, _, _, _, _, _) => MoveFlow(db, r, c);
      case Debit(_, _, _, _, _, _, _, _) => MoveFlow(db, r, c);
      case Convert(_, _, _, _, _, _) => ConvertFlow(db, r, c);
      case WithdrawExternal(_, _, _, _, _, _, _, _) => WithdrawFlow(db, r, c);
      case Transfer(_, _, _, _, _, _, _, _) => TransferFlow(db, r, c);
    }
  }

  lemma MoveFlow(db: Db, r: Request, c: string)
    requires (r.Credit? || r.Debit?) && PlanMove(db, r).Planned?
    ensures Flow(PlanMove(db, r).posting.entries, c) ==
            if r.currency != c then 0 else if r.Credit? then r.amount else -Wrap(r.amount + r.fee)
  {
    Flow1(PlanMove(db, r).posting.entries[0], c);
  }

  lemma ConvertFlow(db: Db, r: Request, c: string)
    requires r.Convert? && PlanConvert(db, r).Planned?
    ensures Flow(PlanConvert(db, r).posting.entries, c) ==
            (if r.toCurrency == c then QuoteOf(r).value.output else 0) -
            (if r.fromCurrency == c then QuoteOf(r).value.input else 0)
  {
    var es := PlanConvert(db, r).posting.entries;
    assert es == [es[0]] + [es[1]];
    FlowAppend([es[0]], [es[1]], c);
    Flow1(es[0], c);
    Flow1(es[1], c);
  }

  lemma WithdrawFlow(db: Db, r: Request, c: string)
    requires r.WithdrawExternal? && PlanWithdraw(db, r).Planned? && r.fee >= 0
    ensures Flow(PlanWithdraw(db, r).posting.entries, c) ==
            if OrNgn(r.currency) != c then 0 else r.fee - Wrap(r.amount + r.fee)
  {
    var es := PlanWithdraw(db, r).posting.entries;
    Flow1(es[0], c);
    if r.fee > 0 {
      assert es == [es[0]] + [es[1]];
      FlowAppend([es[0]], [es[1]], c);
      Flow1(es[1], c);
    }
  }

  lemma TransferFlow(db: Db, r: Request, c: string)
    requires r.Transfer? && PlanTransfer(db, r).Planned?
    ensures Flow(PlanTransfer(db, r).posting.entries, c) ==
            if OrNgn(r.currency) != c then 0
            else -(if r.toKind == "" then r.amount else 0) - (if r.fee > 0 then r.fee else 0)
  {
    var es := PlanTransfer(db, r).posting.entries;
    Flow1(es[0], c);
    if |es| == 2 {
      assert es == [es[0]] + [es[1]];
      FlowAppend([es[0]], [es[1]], c);
      Flow1(es[1], c);
    } else if |es| == 3 {
      assert es == [es[0]] + [es[1]] + [es[2]];
      FlowAppend([es[0]], [es[1]], c);
      FlowAppend([es[0]] + [es[1]], [es[2]], c);
      Flow1(es[1], c);
      Flow1(es[2], c);
    }
  }

  /**
   Conservation: after any serial run, the sum of all balances of a currency
   is what it was, plus deposits and conversion outputs, minus conversion
   inputs, withdrawn principals, plain debits, external transfers and
   transfer fees.
   */
  lemma {:induction false} RunConserves(db: Db, rs: seq<Request>, b: Books, c: string)
    requires Valid(db) && forall i :: 0 <= i < |rs| ==> NoOverflow(rs[i])
    ensures Valid(Run(db, rs))
    ensures Totals(Run(db, rs), c) == Totals(db, c) + BooksOf(db, rs, b, c).Net() - b.Net()
    decreases |rs|
  {
    if rs != [] {
      var (d, o) := Apply(db, rs[0]);
      ApplyValid(db, rs[0]);
      TotalIsFlow(db.accounts, db.entries, c);
      TotalIsFlow(d.accounts, d.entries, c);
      if o.Committed? {
        ApplyFlow(db, rs[0], b, c);
        RunConserves(d, rs[1..], Book(b, rs[0], c), c);
      } else {
        ApplyRows(db, rs[0]);
        RunConserves(d, rs[1..], b, c);
      }
    }
  }

  // ---- The platform fee account ----

  /** No request names the platform's own account. */
  predicate ByUser(r: Request) {
    r.user != PLATFORM_USER
  }

  lemma ApplyFee(db: Db, r: Request, b: Books, c: string)
    requires ByUser(r) && Apply(db, r).1.Committed?
    ensures Sum(Apply(db, r).0.entries, FeeAccount(c)) ==
            Sum(db.entries, FeeAccount(c)) + Book(b, r, c).platformFees - b.platformFees
  {
    ApplyRows(db, r);
    SumAppend(db.entries, PlanOf(Prepare(db, r), r).posting.entries, FeeAccount(c));
    PlanFee(Prepare(db, r), r, b, c);
  }

  lemma PlanFee(db: Db, r: Request, b: Books, c: string)
    requires ByUser(r) && Precheck(r).None? && PlanOf(db, r).Planned?
    ensures Sum(PlanOf(db, r).posting.entries, FeeAccount(c)) == Book(b, r, c).platformFees - b.platformFees
  {
    var es := PlanOf(db, r).posting.entries;
    if r.WithdrawExternal? {
      WithdrawFee(db, r, c);
    } else {
      UsersOnly(db, r);
      OthersUntouched(es, FeeAccount(c));
      SumUntouched(es, FeeAccount(c));
    }
  }

  lemma WithdrawFee(db: Db, r: Request, c: string)
    requires ByUser(r) && r.WithdrawExternal? && r.fee >= 0 && PlanWithdraw(db, r).Planned?
    ensures Sum(PlanWithdraw(db, r).posting.entries, FeeAccount(c)) == if OrNgn(r.currency) == c then r.fee else 0
  {
    var es := PlanWithdraw(db, r).posting.entries;
    var f := FeeAccount(c);
    Sum1(es[0], f);
    if r.fee > 0 {
      assert es == [es[0], es[1]];
      Sum2(es[0], es[1], f);
    }
  }

  lemma UsersOnly(db: Db, r: Request)
    requires !r.WithdrawExternal? && PlanOf(db, r).Planned?
    ensures forall i :: 0 <= i < |PlanOf(db, r).posting.entries| ==>
              PlanOf(db, r).posting.entries[i].account.user == r.user
  {
  }

  lemma {:induction false} OthersUntouched(es: seq<Entry>, a: Account)
    requires forall i :: 0 <= i < |es| ==> es[i].account.user != a.user
    ensures a !in Touched(es)
  {
    if es != [] {
      OthersUntouched(es[..|es| - 1], a);
    }
  }

  /** The platform fee account holds exactly the fees of the committed external withdrawals. */
  lemma {:induction false} RunFees(db: Db, rs: seq<Request>, b: Books, c: string)
    requires forall i :: 0 <= i < |rs| ==> ByUser(rs[i])
    ensures Sum(Run(db, rs).entries, FeeAccount(c)) ==
            Sum(db.entries, FeeAccount(c)) + BooksOf(db, rs, b, c).platformFees - b.platformFees
    decreases |rs|
  {
    if rs != [] {
      var (d, o) := Apply(db, rs[0]);
      if o.Committed? {
        ApplyFee(db, rs[0], b, c);
        RunFees(d, rs[1..], Book(b, rs[0], c), c);
      } else {
        ApplyRows(db, rs[0]);
        RunFees(d, rs[1..], b, c);
      }
    }
  }

  // ---- Non-negative accounts ----

  /** The transfers that can never overdraw: the sufficiency check sees what will be debited. */
  predicate SafeTransfer(r: Request)
    requires r.Transfer?
  {
    || r.amount <= 0
    || (r.fee >= 0 && Fits(r.amount + r.fee))
    || (r.fee <= 0 && r.toKind == r.fromKind && r.toKind != "")
  }

  predicate Safe(r: Request) {
    NoOverflow(r) && (r.Transfer? ==> SafeTransfer(r)) && WellTyped(r)
  }

  lemma ApplyNonNegative(db: Db, r: Request)
    requires Safe(r) && NonNegative(db)
    ensures NonNegative(Apply(db, r).0)
  {
    ApplyRows(db, r);
    if Apply(db, r).1.Committed? {
      var d := Prepare(db, r);
      forall a: Account ensures Sum(db.entries + PlanOf(d, r).posting.entries, a) >= 0 {
        assert Sum(db.entries, a) >= 0;
        SumAppend(db.entries, PlanOf(d, r).posting.entries, a);
        PlanCovered(d, r, a);
      }
    }
  }

  /** What a plan takes from an account, the account has. */
  lemma PlanCovered(db: Db, r: Request, a: Account)
    requires Safe(r) && Precheck(r).None? && PlanOf(db, r).Planned? && Sum(db.entries, a) >= 0
    ensures Sum(db.entries, a) + Sum(PlanOf(db, r).posting.entries, a) >= 0
  {
    var es := PlanOf(db, r).posting.entries;
    match r {
      case Credit(_, _, _, _, _, _, _, _) => Sum1(es[0], a);
      case Debit(_, _, _, _, _, _, _, _) => Sum1(es[0], a);
      case Convert(_, _, _, _, _, _) => ConvertCovered(db, r, a);
      case WithdrawExternal(_, _, _, _, _, _, _, _) => WithdrawCovered(db, r, a);
      case Transfer(_, _, _, _, _, _, _, _) => TransferSum(db, r, a);
    }
  }

  lemma ConvertCovered(db: Db, r: Request, a: Account)
    requires r.Convert? && WellTyped(r) && PlanConvert(db, r).Planned? && Sum(db.entries, a) >= 0
    ensures Sum(db.entries, a) + Sum(PlanConvert(db, r).posting.entries, a) >= 0
  {
    var es := PlanConvert(db, r).posting.entries;
    assert es == [es[0], es[1]];
    Sum2(es[0], es[1], a);
    QuoteExact(r.amount, r.rate.value, r.fromCurrency, r.toCurrency);
  }

  lemma WithdrawCovered(db: Db, r: Request, a: Account)
    requires r.WithdrawExternal? && NoOverflow(r) && PlanWithdraw(db, r).Planned? && Sum(db.entries, a) >= 0
    ensures Sum(db.entries, a) + Sum(PlanWithdraw(db, r).posting.entries, a) >= 0
  {
    var es := PlanWithdraw(db, r).posting.entries;
    Sum1(es[0], a);
    if r.fee > 0 {
      assert es == [es[0], es[1]];
      Sum2(es[0], es[1], a);
    }
  }

  lemma TransferSum(db: Db, r: Request, a: Account)
    requires r.Transfer? && PlanTransfer(db, r).Planned?
    ensures var c := OrNgn(r.currency);
            Sum(PlanTransfer(db, r).posting.entries, a) ==
            (if a == Account(r.user, r.fromKind, c) then -r.amount - (if r.fee > 0 then r.fee else 0) else 0) +
            (if r.toKind != "" && a == Account(r.user, r.toKind, c) then r.amount else 0)
  {
    var c, n := OrNgn(r.currency), |db.txns|;
    var from := Account(r.user, r.fromKind, c);
    var debit, fee := Entry(n, from, false, r.amount), Entry(n, from, false, r.fee);
    var paid := [debit] + if r.fee > 0 then [fee] else [];
    var tail := if r.toKind == "" then [] else [Entry(n, Account(r.user, r.toKind, c), true, r.amount)];
    assert PlanTransfer(db, r).posting.entries == paid + tail;
    SumAppend(paid, tail, a);
    SumAtMostOne(tail, a);
    SumAppend([debit], if r.fee > 0 then [fee] else [], a);
    SumAtMostOne(if r.fee > 0 then [fee] else [], a);
    Sum1(debit, a);
  }

  lemma SumAtMostOne(es: seq<Entry>, a: Account)
    requires |es| <= 1
    ensures Sum(es, a) == if es == [] then 0 else At(es[0], a)
  {
    if es != [] {
      assert es == [es[0]];
      Sum1(es[0], a);
    }
  }

  lemma {:induction false} RunNonNegative(db: Db, rs: seq<Request>)
    requires NonNegative(db) && forall i :: 0 <= i < |rs| ==> Safe(rs[i])
    ensures NonNegative(Run(db, rs))
    decreases |rs|
  {
    if rs != [] {
      ApplyNonNegative(db, rs[0]);
      RunNonNegative(Apply(db, rs[0]).0, rs[1..]);
    }
  }

  /** What an account starts with before a request: one deposit of `minor`, and possibly a second account. */
  function Seeded(a: Account, b: Account, minor: int): Db {
    Db(if a == b then [a] else [a, b],
       [Txn(a.user, "deposit", a.currency, minor, 0, "", "")],
       [Entry(0, a, true, minor)],
       map[a := minor])
  }

  lemma SeededSum(a: Account, b: Account, minor: int)
    requires minor >= 0
    ensures Valid(Seeded(a, b, minor)) && NonNegative(Seeded(a, b, minor))
    ensures forall x :: Sum(Seeded(a, b, minor).entries, x) == if x == a then minor else 0
  {
    forall x ensures Sum(Seeded(a, b, minor).entries, x) == if x == a then minor else 0 {
      Sum1(Entry(0, a, true, minor), x);
    }
  }

  /** One kobo to NGN at a rate of one. */
  function SelfConversion(user: string): Request {
    Convert(user, 1, "NGN", "NGN", Some(Rate(100, 0, 0, MAX)), "")
  }

  lemma SelfQuote(user: string)
    ensures QuoteOf(SelfConversion(user)) == Success(QuoteRow(1, 0, 1))
  {
    assert Percent(1, 0) == Ok(0) && Sub(1, 0) == Ok(1);
    assert Quo(100, 100) == 1 && Rounded(100, 100) == 1;
    assert MulRatio(1, 100, MINOR_UNIT) == Ok(1);
  }

  /** With a rate row from NGN to NGN a conversion commits and leaves a wrong balance. */
  lemma SelfConversionDisagrees(user: string)
    ensures var a := Account(user, AVAILABLE, "NGN");
            var (db, r) := (Seeded(a, a, 1), SelfConversion(user));
            Valid(db) && Agrees(db) && Apply(db, r).1.Committed? && !Agrees(Apply(db, r).0)
  {
    var a := Account(user, AVAILABLE, "NGN");
    var db, r := Seeded(a, a, 1), SelfConversion(user);
    SeededSum(a, a, 1);
    SelfQuote(user);
    assert Agrees(db);
    assert PlanConvert(db, r).Planned? && Apply(db, r).1.Committed?;
    ConvertAgreesIff(db, r);
  }

  ghost predicate NeverOverdraws(r: Request) {
    forall db: Db :: Valid(db) && NonNegative(db) ==> NonNegative(Apply(db, r).0)
  }

  /** The balance on which an unsafe transfer overdraws. */
  function OverdrawnFrom(r: Request): int
    requires r.Transfer?
  {
    if r.fee < 0 then (if r.amount + r.fee < 0 then 0 else r.amount + r.fee)
    else if r.toKind == r.fromKind && r.toKind != "" then r.fee - 1
    else 0
  }

  lemma UnsafeTransferOverdraws(r: Request)
    requires r.Transfer? && WellTyped(r) && !SafeTransfer(r)
    ensures !NeverOverdraws(r)
  {
    var c := OrNgn(r.currency);
    var a := Account(r.user, r.fromKind, c);
    var b := if r.toKind == "" then a else Account(r.user, r.toKind, c);
    var minor := OverdrawnFrom(r);
    var db := Seeded(a, b, minor);
    SeededSum(a, b, minor);
    FindKeyIff(db.txns, r.key);
    var n := |db.txns|;
    var paid := [Entry(n, a, false, r.amount)] + if r.fee > 0 then [Entry(n, a, false, r.fee)] else [];
    PaidSum(db.entries, paid, r.amount, r.fee, a, b);
    assert r.fee >= 0 ==> Wrap(r.amount + r.fee) == r.amount + r.fee - TWO64;
    assert PlanTransfer(db, r).Planned?;
    ApplyRows(db, r);
    SumAppend(db.entries, PlanTransfer(db, r).posting.entries, a);
    TransferSum(db, r, a);
    assert Sum(Apply(db, r).0.entries, a) < 0;
  }

  lemma PaidSum(es: seq<Entry>, paid: seq<Entry>, amount: int, fee: int, a: Account, b: Account)
    requires |paid| == 1 || |paid| == 2
    requires paid[0].account == a && paid[0].Delta() == -amount
    requires |paid| == 2 ==> paid[1].account == a && paid[1].Delta() == -fee
    requires (|paid| == 2) == (fee > 0)
    ensures Sum(es + paid, b) == Sum(es, b) - if a == b then amount + (if fee > 0 then fee else 0) else 0
  {
    SumAppend(es, paid, b);
    if |paid| == 1 {
      assert paid == [paid[0]];
      Sum1(paid[0], b);
    } else {
      assert paid == [paid[0], paid[1]];
      Sum2(paid[0], paid[1], b);
    }
  }

  /** A transfer keeps every account of every ledger non-negative exactly when it is safe. */
  lemma TransferNeverOverdrawsIff(r: Request)
    requires r.Transfer? && WellTyped(r)
    ensures NeverOverdraws(r) <==> SafeTransfer(r)
  {
    if SafeTransfer(r) {
      forall db: Db | Valid(db) && NonNegative(db) ensures NonNegative(Apply(db, r).0) {
        ApplyNonNegative(db, r);
      }
    } else {
      UnsafeTransferOverdraws(r);
    }
  }

  /** A committed external withdrawal takes exactly its principal out of the ledger iff amount + fee fits. */
  lemma WithdrawExactIff(db: Db, r: Request)
    requires r.WithdrawExternal? && WellTyped(r) && Apply(db, r).1.Committed?
    ensures var c := OrNgn(r.currency);
            Flow(Apply(db, r).0.entries, c) == Flow(db.entries, c) - r.amount <==> Fits(r.amount + r.fee)
  {
    var c := OrNgn(r.currency);
    ApplyRows(db, r);
    FlowAppend(db.entries, PlanWithdraw(db, r).posting.entries, c);
    WithdrawFlow(db, r, c);
  }

  // ---- Stored balances are exact ----

  lemma {:induction false} PartOfTotal(accounts: seq<Account>, es: seq<Entry>, a: Account)
    requires a in accounts && forall b: Account :: Sum(es, b) >= 0
    ensures 0 <= Sum(es, a) <= Total(accounts, es, a.currency)
  {
    var n := |accounts| - 1;
    assert accounts == accounts[..n] + [accounts[n]];
    if a in accounts[..n] {
      PartOfTotal(accounts[..n], es, a);
    } else {
      TotalNonNegative(accounts[..n], es, a.currency);
    }
  }

  lemma {:induction false} TotalNonNegative(accounts: seq<Account>, es: seq<Entry>, c: string)
    requires forall b: Account :: Sum(es, b) >= 0
    ensures Total(accounts, es, c) >= 0
  {
    if accounts != [] {
      TotalNonNegative(accounts[..|accounts| - 1], es, c);
    }
  }

  lemma {:induction false} AbsentSum(db: Db, es: seq<Entry>, a: Account)
    requires a !in db.accounts && forall i :: 0 <= i < |es| ==> es[i].account in db.accounts
    ensures Sum(es, a) == 0
  {
    if es != [] {
      AbsentSum(db, es[..|es| - 1], a);
    }
  }

  /** While a currency's money supply fits int64, no stored balance in it ever wraps. */
  lemma StoredBalanceExact(db: Db, a: Account)
    requires Valid(db) && Agrees(db) && NonNegative(db) && a in db.accounts
    requires Totals(db, a.currency) <= MAX
    ensures db.Balance(a) == Sum(db.entries, a)
  {
    PartOfTotal(db.accounts, db.entries, a);
  }
}
