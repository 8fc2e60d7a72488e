/**
 The services that change the ledger, statement by statement, over the
 Postgres tables they update in place. Each method is proved to leave exactly
 the tables that `Ledger.Apply` describes.
 */
module Storage {
  import opened Int64
  import opened Ledger

  class Store {
    var accounts: seq<Account>
    var txns: seq<Txn>
    var entries: seq<Entry>
    var balances: map<Account, int>

    constructor ()
      ensures Tables() == Db([], [], [], map[])
    {
      accounts, txns, entries, balances := [], [], [], map[];
    }

    ghost function Tables(): Db
      reads this
    {
      Db(accounts, txns, entries, balances)
    }

    // ---- Repositories ----

    method EnsureAccount(a: Account)
      modifies this`accounts
      ensures Tables() == Ensure(old(Tables()), a)
    {
      if a !in accounts {
        accounts := accounts + [a];
      }
    }

    /** The unique index on non-empty keys turns a duplicate into a conflict. */
    method CreateTransaction(t: Txn) returns (ok: bool)
      modifies this`txns
      ensures ok == !old(KeyUsed(Tables(), t.key))
      ensures txns == if ok then old(txns) + [t] else old(txns)
    {
      ok := t.key == "" || FindKey(txns, t.key).None?;
      if ok {
        txns := txns + [t];
      }
    }

    method InsertEntry(e: Entry)
      modifies this`entries
      ensures entries == old(entries) + [e]
    {
      entries := entries + [e];
    }

    method SetBalance(a: Account, minor: int)
      modifies this`balances
      ensures balances == old(balances)[a := minor]
    {
      balances := balances[a := minor];
    }

    method SumBalanceByAccount(a: Account) returns (s: Option<int>)
      ensures s == SumBalance(Tables(), a)
    {
      var t := Sum(entries, a);
      s := if Fits(t) then Some(t) else None;
    }

    /** The replay lookup every entry point starts with. */
    method Lookup(key: string) returns (o: Option<Txn>)
      ensures o.Some? == KeyUsed(Tables(), key)
      ensures o.Some? ==> o == FindKey(txns, key)
    {
      o := if key == "" then None else FindKey(txns, key);
    }

    // ---- ledger.go ----

    method Credit(r: Request) returns (o: Outcome)
      requires r.Credit?
      modifies this
      ensures (Tables(), o) == Apply(old(Tables()), r)
    {
      if r.amount <= 0 {
        return Rejected(InvalidAmount);
      }
      o := Move(r);
    }

    method Debit(r: Request) returns (o: Outcome)
      requires r.Debit?
      modifies this
      ensures (Tables(), o) == Apply(old(Tables()), r)
    {
      if Wrap(r.amount + r.fee) <= 0 {
        return Rejected(InvalidAmount);
      }
      o := Move(r);
    }

    method Move(r: Request) returns (o: Outcome)
      requires (r.Credit? || r.Debit?) && Precheck(r).None?
      modifies this
      ensures (Tables(), o) == Apply(old(Tables()), r)
    {
      var existing := Lookup(r.key);
      if existing.Some? {
        return Replayed(existing.value);
      }
      var plan := MoveTx(r);
      o := if plan.Planned? then Committed(plan.posting.txn) else Rejected(plan.error);
    }

    /** The transaction row, its first entry and that account's new balance. */
    method Record(txn: Txn, e: Entry, balance: int)
      requires !KeyUsed(Tables(), txn.key) && balance == Wrap(Sum(entries, e.account) + e.Delta())
      modifies this
      ensures Tables() == Post(old(Tables()), Posting(txn, [e]))
    {
      var created := CreateTransaction(txn);
      assert created;
      InsertEntry(e);
      SetBalance(e.account, balance);
      PostOne(old(Tables()), txn, e, balances);
    }

    /** A further entry of the transaction being written, and the balance read back with it. */
    method RecordMore(ghost db: Db, txn: Txn, ghost es: seq<Entry>, e: Entry, balance: int)
      requires Tables() == Post(db, Posting(txn, es)) && balance == Wrap(Sum(entries, e.account) + e.Delta())
      modifies this
      ensures Tables() == Post(db, Posting(txn, es + [e]))
    {
      InsertEntry(e);
      SetBalance(e.account, balance);
      PostMore(db, txn, es, e, balances);
    }

    /** The body of the transaction; a refusal leaves nothing behind. */
    method MoveTx(r: Request) returns (plan: Plan)
      requires (r.Credit? || r.Debit?) && !KeyUsed(Tables(), r.key)
      modifies this
      ensures plan == PlanMove(old(Tables()), r)
      ensures Tables() == if plan.Planned? then Post(old(Tables()), plan.posting) else old(Tables())
    {
      var account := Account(r.user, r.kind, r.currency);
      if account !in accounts {
        return Refused(NotFound);
      }
      var sum := SumBalanceByAccount(account);
      if sum.None? {
        return Refused(SumOutOfRange);
      }
      var current := sum.value;
      var total := r.amount;
      if r.Debit? {
        total := Wrap(r.amount + r.fee);
        if current < total {
          return Refused(InsufficientBalance);
        }
      }
      if total > 0 && Wrap(current + total) < 0 {
        return Refused(InsufficientBalance);
      }
      var newBalance := if r.Credit? then Wrap(current + total) else Wrap(current - total);
      var e := Entry(|txns|, account, r.Credit?, total);
      var txn := Txn(r.user, r.typ, r.currency, r.amount, r.fee, r.ref, r.key);
      Record(txn, e, newBalance);
      plan := Planned(Posting(txn, [e]));
    }

    // ---- money.go ----

    method WithdrawExternal(r: Request) returns (o: Outcome)
      requires r.WithdrawExternal?
      modifies this
      ensures (Tables(), o) == Apply(old(Tables()), r)
    {
      if r.amount <= 0 || r.fee < 0 {
        return Rejected(InvalidAmount);
      }
      var existing := Lookup(r.key);
      if existing.Some? {
        return Replayed(existing.value);
      }
      var begin := (accounts, txns, entries, balances);
      var plan := WithdrawTx(r);
      if plan.Refused? {
        accounts, txns, entries, balances := begin.0, begin.1, begin.2, begin.3;
        return Rejected(plan.error);
      }
      o := Committed(plan.posting.txn);
    }

    /** The body of the transaction; the caller rolls back on a refusal. */
    method WithdrawTx(r: Request) returns (plan: Plan)
      requires r.WithdrawExternal? && !KeyUsed(Tables(), r.key)
      modifies this
      ensures plan == PlanWithdraw(old(Tables()), r)
      ensures plan.Planned? ==> Tables() == Post(PrepareInTx(old(Tables()), r), plan.posting)
    {
      var currency := OrNgn(r.currency);
      var total := Wrap(r.amount + r.fee);
      var from := Account(r.user, r.kind, currency);
      if from !in accounts {
        return Refused(NotFound);
      }
      var sum := SumBalanceByAccount(from);
      if sum.None? {
        return Refused(SumOutOfRange);
      }
      if sum.value < total {
        return Refused(InsufficientBalance);
      }
      var row := |txns|;
      var txn := Txn(r.user, r.typ, currency, r.amount, r.fee, r.ref, r.key);
      var paid := Entry(row, from, false, total);
      Record(txn, paid, Wrap(sum.value - total));
      if r.fee <= 0 {
        return Planned(Posting(txn, [paid]));
      }
      var ok := SettleFee(old(Tables()), txn, paid, FeeAccount(currency), r.fee);
      if !ok {
        return Refused(SumOutOfRange);
      }
      assert PrepareInTx(old(Tables()), r) == Ensure(old(Tables()), FeeAccount(currency));
      plan := Planned(Posting(txn, [paid] + [Entry(row, FeeAccount(currency), true, r.fee)]));
    }

    method SettleFee(ghost db: Db, txn: Txn, ghost paid: Entry, feeAcct: Account, fee: int) returns (ok: bool)
      requires Tables() == Post(db, Posting(txn, [paid]))
      modifies this
      ensures ok == Fits(Sum(db.entries + [paid], feeAcct))
      ensures var settled := Entry(|db.txns|, feeAcct, true, fee);
              ok ==> Tables() == Post(Ensure(db, feeAcct), Posting(txn, [paid] + [settled]))
    {
      EnsureAccount(feeAcct);
      var feeSum := SumBalanceByAccount(feeAcct);
      if feeSum.None? {
        return false;
      }
      var settled := Entry(|txns| - 1, feeAcct, true, fee);
      RecordMore(Ensure(db, feeAcct), txn, [paid], settled, Wrap(feeSum.value + fee));
      ok := true;
    }

    method Transfer(r: Request) returns (o: Outcome)
      requires r.Transfer?
      modifies this
      ensures (Tables(), o) == Apply(old(Tables()), r)
    {
      if r.amount <= 0 {
        return Rejected(InvalidAmount);
      }
      var existing := Lookup(r.key);
      if existing.Some? {
        return Replayed(existing.value);
      }
      var begin := (accounts, txns, entries, balances);
      var plan := TransferTx(r);
      if plan.Refused? {
        accounts, txns, entries, balances := begin.0, begin.1, begin.2, begin.3;
        return Rejected(plan.error);
      }
      o := Committed(plan.posting.txn);
    }

    method TransferTx(r: Request) returns (plan: Plan)
      requires r.Transfer? && !KeyUsed(Tables(), r.key)
      modifies this
      ensures plan == PlanTransfer(old(Tables()), r)
      ensures plan.Planned? ==> Tables() == Post(old(Tables()), plan.posting)
    {
      var total := Wrap(r.amount + r.fee);
      var currency := OrNgn(r.currency);
      var from := Account(r.user, r.fromKind, currency);
      if from !in accounts {
        return Refused(NotFound);
      }
      var sum := SumBalanceByAccount(from);
      if sum.None? {
        return Refused(SumOutOfRange);
      }
      if sum.value < total {
        return Refused(InsufficientBalance);
      }
      var txn := Txn(r.user, "transfer", currency, r.amount, r.fee, r.ref, r.key);
      var paid := DebitSource(txn, from, sum.value);
      if r.toKind == "" {
        return Planned(Posting(txn, paid));
      }
      plan := CreditDestination(old(Tables()), txn, paid, Account(r.user, r.toKind, currency));
    }

    /** The destination's balance is read back after the debit entries are in. */
    method CreditDestination(ghost db: Db, txn: Txn, paid: seq<Entry>, to: Account) returns (plan: Plan)
      requires Tables() == Post(db, Posting(txn, paid))
      modifies this
      ensures plan == if to !in db.accounts then Refused(NotFound)
                      else if !Fits(Sum(db.entries + paid, to)) then Refused(SumOutOfRange)
                      else Planned(Posting(txn, paid + [Entry(|db.txns|, to, true, txn.amount)]))
      ensures plan.Planned? ==> Tables() == Post(db, plan.posting)
    {
      if to !in accounts {
        return Refused(NotFound);
      }
      var toSum := SumBalanceByAccount(to);
      if toSum.None? {
        return Refused(SumOutOfRange);
      }
      var credit := Entry(|txns| - 1, to, true, txn.amount);
      RecordMore(db, txn, paid, credit, Wrap(toSum.value + txn.amount));
      plan := Planned(Posting(txn, paid + [credit]));
    }

    /** The transaction row, the debit and, when charged, the fee entry on the same account. */
    method DebitSource(txn: Txn, from: Account, fromBalance: int) returns (paid: seq<Entry>)
      requires !KeyUsed(Tables(), txn.key) && fromBalance == Sum(entries, from)
      modifies this
      ensures paid == [Entry(|old(txns)|, from, false, txn.amount)] +
                      if txn.fee > 0 then [Entry(|old(txns)|, from, false, txn.fee)] else []
      ensures Tables() == Post(old(Tables()), Posting(txn, paid))
    {
      var row := |txns|;
      ghost var db := Tables();
      var debit := Entry(row, from, false, txn.amount);
      Record(txn, debit, Wrap(fromBalance - txn.amount));
      paid := [debit];
      if txn.fee > 0 {
        var fee := Entry(row, from, false, txn.fee);
        SumAppend(db.entries, paid, from);
        Sum1(debit, from);
        WrapLate(fromBalance - txn.amount, -txn.fee);
        RecordMore(db, txn, paid, fee, Wrap(Wrap(fromBalance - txn.amount) - txn.fee));
        paid := paid + [fee];
      }
    }

    method Convert(r: Request) returns (o: Outcome)
      requires r.Convert?
      modifies this
      ensures (Tables(), o) == Apply(old(Tables()), r)
    {
      if QuoteOf(r).Failure? {
        return Rejected(BadQuote);
      }
      EnsureAccount(Account(r.user, AVAILABLE, r.fromCurrency));
      EnsureAccount(Account(r.user, AVAILABLE, r.toCurrency));
      var existing := Lookup(r.key);
      if existing.Some? {
        return Replayed(existing.value);
      }
      var plan := ConvertTx(r);
      o := if plan.Planned? then Committed(plan.posting.txn) else Rejected(plan.error);
    }

    /** Both sums are read before either entry is written. */
    method ConvertTx(r: Request) returns (plan: Plan)
      requires r.Convert? && QuoteOf(r).Success? && !KeyUsed(Tables(), r.key)
      modifies this
      ensures plan == PlanConvert(old(Tables()), r)
      ensures Tables() == if plan.Planned? then PostConvert(old(Tables()), r, plan.posting) else old(Tables())
    {
      var q := QuoteOf(r).value;
      var from := Account(r.user, AVAILABLE, r.fromCurrency);
      var to := Account(r.user, AVAILABLE, r.toCurrency);
      if from !in accounts || to !in accounts {
        return Refused(NotFound);
      }
      var fromSum := SumBalanceByAccount(from);
      if fromSum.None? {
        return Refused(SumOutOfRange);
      }
      if fromSum.value < q.input {
        return Refused(InsufficientBalance);
      }
      var toSum := SumBalanceByAccount(to);
      if toSum.None? {
        return Refused(SumOutOfRange);
      }
      var row := |txns|;
      var txn := Txn(r.user, "conversion", r.fromCurrency, q.input, q.fee, "", r.key);
      var debit := Entry(row, from, false, q.input);
      var credit := Entry(row, to, true, q.output);
      RecordConversion(txn, debit, credit, Wrap(fromSum.value - q.input), Wrap(toSum.value + q.output));
      plan := Planned(Posting(txn, [debit, credit]));
    }

    method RecordConversion(txn: Txn, debit: Entry, credit: Entry, fromBalance: int, toBalance: int)
      requires !KeyUsed(Tables(), txn.key)
      requires fromBalance == Wrap(Sum(entries, debit.account) + debit.Delta())
      requires toBalance == Wrap(Sum(entries, credit.account) + credit.Delta())
      modifies this
      ensures var posted := Post(old(Tables()), Posting(txn, [debit, credit]));
              Tables() == if debit.account != credit.account then posted
                          else posted.(balances := posted.balances[credit.account := toBalance])
    {
      ghost var db := Tables();
      Record(txn, debit, fromBalance);
      InsertEntry(credit);
      SetBalance(credit.account, toBalance);
      PostSecond(db, txn, debit, credit, balances);
    }
  }

  /** One entry and one balance write post a one-entry transaction. */
  lemma PostOne(db: Db, txn: Txn, e: Entry, balances: map<Account, int>)
    requires balances == db.balances[e.account := Wrap(Sum(db.entries, e.account) + e.Delta())]
    ensures Post(db, Posting(txn, [e])).balances == balances
  {
    ProjectMore(db.balances, db.entries, e, {});
    assert Project(db.balances, SumOf(db.entries), {}) == db.balances;
    TouchedAppend([], e);
    assert [] + [e] == [e];
  }

  /**
   A further entry on top of `es`, whose balance is written from a sum read
   after `es` was inserted, posts `es + [e]`.
   */
  lemma PostMore(db: Db, txn: Txn, es: seq<Entry>, e: Entry, balances: map<Account, int>)
    requires balances == Post(db, Posting(txn, es)).balances
                         [e.account := Wrap(Sum(db.entries + es, e.account) + e.Delta())]
    ensures Post(db, Posting(txn, es + [e])).balances == balances
    ensures Post(db, Posting(txn, es + [e])).entries == db.entries + es + [e]
  {
    var posted := Post(db, Posting(txn, es + [e]));
    assert db.entries + (es + [e]) == db.entries + es + [e];
    TouchedAppend(es, e);
    assert posted.balances == Project(db.balances, SumOf(db.entries + es + [e]), Touched(es) + {e.account});
    ProjectMore(db.balances, db.entries + es, e, Touched(es));
  }

  /** Recomputing one more account writes that account's balance and no other. */
  lemma ProjectMore(b: map<Account, int>, es: seq<Entry>, e: Entry, touched: set<Account>)
    ensures Project(b, SumOf(es + [e]), touched + {e.account}) ==
            Project(b, SumOf(es), touched)[e.account := Wrap(Sum(es, e.account) + e.Delta())]
  {
    SumOfMore(es, e);
    Recompute(b, SumOf(es), SumOf(es + [e]), touched, e.account);
  }

  lemma SumOfMore(es: seq<Entry>, e: Entry)
    ensures forall a :: SumOf(es + [e])(a) == SumOf(es)(a) + At(e, a)
  {
    forall a ensures SumOf(es + [e])(a) == SumOf(es)(a) + At(e, a) {
      SumAppend(es, [e], a);
      Sum1(e, a);
    }
  }

  lemma Recompute(b: map<Account, int>, sum: Account -> int, sum': Account -> int, touched: set<Account>, x: Account)
    requires forall a :: a != x ==> sum'(a) == sum(a)
    ensures Project(b, sum', touched + {x}) == Project(b, sum, touched)[x := Wrap(sum'(x))]
  {
  }

  lemma TouchedAppend(es: seq<Entry>, e: Entry)
    ensures Touched(es + [e]) == Touched(es) + {e.account}
  {
    assert (es + [e])[..|es|] == es;
  }

  /** The second balance write of a conversion starts from the sum before both entries. */
  lemma PostSecond(db: Db, txn: Txn, e: Entry, f: Entry, balances: map<Account, int>)
    requires balances == Post(db, Posting(txn, [e])).balances[f.account := Wrap(Sum(db.entries, f.account) + f.Delta())]
    ensures var p := Post(db, Posting(txn, [e, f]));
            && p.entries == db.entries + [e] + [f]
            && balances == if e.account != f.account then p.balances
                           else p.balances[f.account := Wrap(Sum(db.entries, f.account) + f.Delta())]
  {
    assert [e] + [f] == [e, f];
    var stale := Post(db, Posting(txn, [e])).balances;
    var x, read := f.account, Sum(db.entries + [e], f.account);
    PostMore(db, txn, [e], f, stale[x := Wrap(read + f.Delta())]);
    if e.account != x {
      SumAppend(db.entries, [e], x);
      Sum1(e, x);
      assert read == Sum(db.entries, x);
    } else {
      UpdateTwice(stale, x, Wrap(read + f.Delta()), Wrap(Sum(db.entries, x) + f.Delta()));
    }
  }

  lemma UpdateTwice(m: map<Account, int>, a: Account, u: int, v: int)
    ensures m[a := u][a := v] == m[a := v]
  {
  }
}
