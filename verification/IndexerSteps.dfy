/** When one step of the indexer credits, flags or gives up a transfer, and at what price. */
module IndexerSteps {
  import opened Int64
  import opened Ledger
  import opened Indexer
  import opened IndexerInvariant
  import Acceptance
  import Conservation
  import Solvency

  /** What `base` micro-USDC is worth at `rate`, in kobo. */
  function Worth(base: nat, rate: int): int {
    Wrap(base * rate / 1_000_000)
  }

  function AccountFor(user: string): Account {
    Account(user, AVAILABLE, "NGN")
  }

  /** The ledger has the credit already, or can take it. */
  predicate Creditworthy(db: Db, user: string, amount: int, key: string) {
    || KeyUsed(db, key)
    || (Acceptance.Readable(db, AccountFor(user)) && 0 <= Sum(db.entries, AccountFor(user)) + amount <= MAX)
  }

  /**
   A credit succeeds exactly when the database answers, there is a rate, the
   deposit is worth something at it, and the ledger has the credit or can
   take it.
   */
  lemma CreditSucceedsIff(db: Db, rate: int, user: string, base: int, key: string, ok: bool)
    requires key != ""
    ensures CreditDeposit(db, rate, user, base, key, ok).1 <==>
            && ok && rate > 0 && base > 0 && Worth(base, rate) > 0
            && Creditworthy(db, user, Worth(base, rate), key)
  {
    if rate > 0 && base > 0 {
      Solvency.DepositExact(base, rate);
      var r := Solvency.DepositRequest(user, Worth(base, rate), key);
      if Worth(base, rate) > 0 {
        Acceptance.CommitsIff(db, r);
        Acceptance.CreditCommitsIff(db, r);
        assert Precheck(r).None?;
      }
    }
  }

  /**
   A credit that succeeds under a new key adds one transaction and, to the
   user's account and no other, what the deposit is worth at the rate in
   force, rounded down to the kobo; any other changes nothing.
   */
  lemma CreditAdds(db: Db, rate: int, user: string, base: int, key: string, ok: bool)
    requires key != ""
    ensures var (d, credited) := CreditDeposit(db, rate, user, base, key, ok);
            if credited && !KeyUsed(db, key) then
              var n := Worth(base, rate);
              && d.txns == db.txns + [Txn(user, "deposit", "NGN", n, 0, "", key)]
              && n * 1_000_000 <= base * rate && (base * rate / 1_000_000 <= MAX ==> base * rate < (n + 1) * 1_000_000)
              && forall x :: Sum(d.entries, x) == Sum(db.entries, x) + if x == AccountFor(user) then n else 0
            else d == db
  {
    if rate > 0 && base > 0 {
      Solvency.DepositExact(base, rate);
      var r := Solvency.DepositRequest(user, Worth(base, rate), key);
      if Worth(base, rate) > 0 && ok {
        Acceptance.CommitsIff(db, r);
        Acceptance.CreditCommitsIff(db, r);
        Conservation.ApplyTxns(db, r);
        NoSideEffects(db, r);
        assert forall x :: Acceptance.After(db, r, x) == Sum(Apply(db, r).0.entries, x);
      }
    }
  }

  /** A credit that does not commit leaves the tables alone. */
  lemma NoSideEffects(db: Db, r: Request)
    requires r.Credit?
    ensures !Apply(db, r).1.Committed? ==> Apply(db, r).0 == db
  {
  }

  // ---- Workers ----

  /** A transfer that is worth looking at. */
  predicate Counts(t: TokenTransfer) {
    t.value > 0 && t.from != ZERO
  }

  /** The transfer goes by its sender: into the vault, and not into a clone this process knows. */
  predicate BySender(env: Env, s: State, t: TokenTransfer) {
    Counts(t) && t.to == env.vault && t.to !in s.proc.cloneUser
  }

  /** The sender could not be looked up. */
  predicate Unresolved(s: State, t: TokenTransfer, ok: bool) {
    t.from !in s.proc.addressUser && !ok
  }

  /** A fresh transfer goes on to a credit exactly for a clone's user, or for the user its sender resolves to. */
  lemma RouteGoesOnIff(env: Env, s: State, t: TokenTransfer, ok: bool, insertOk: bool, user: string, key: string)
    ensures Route(env, s, t, ok, insertOk).1 == Logged(user, key) <==>
            || (Counts(t) && t.to in s.proc.cloneUser && user == s.proc.cloneUser[t.to] && key == CloneKey(t.tx))
            || (&& BySender(env, s, t) && !Unresolved(s, t, ok) && user == SenderUser(env, s, t.from) != ""
                && key == VaultKey(t.tx))
    ensures Route(env, s, t, ok, insertOk).1.Logged? && insertOk ==>
              (t.tx, t.log) in Route(env, s, t, ok, insertOk).0.events
  {
  }

  /** Nobody is behind the sender, and the operator has to decide. */
  predicate Orphaned(env: Env, s: State, t: TokenTransfer, ok: bool) {
    BySender(env, s, t) && !Unresolved(s, t, ok) && SenderUser(env, s, t.from) == ""
  }

  /** An orphan is flagged exactly when its row can be written and is not there as a deposit already. */
  lemma OrphanFlaggedIff(env: Env, s: State, t: TokenTransfer, ok: bool, insertOk: bool)
    requires Orphaned(env, s, t, ok) && !Flagged(s.books, (t.tx, t.log))
    ensures Flagged(Route(env, s, t, ok, insertOk).0, (t.tx, t.log)) <==> insertOk && (t.tx, t.log) !in s.books.events
  {
  }

  /** The handler has to report an error. */
  predicate Fails(env: Env, s: State, job: Job, ok: bool, insertOk: bool) {
    var t := job.transfer;
    match job.stage
    case Fresh => (BySender(env, s, t) && Unresolved(s, t, ok)) || (Orphaned(env, s, t, ok) && !insertOk)
    case Logged(user, key) =>
      !(ok && s.rate > 0 && t.value > 0 && Worth(t.value, s.rate) > 0 &&
        Creditworthy(s.books.db, user, Worth(t.value, s.rate), key))
    case Done => false
  }

  /**
   A transfer is given up in a step exactly when its sender cannot be looked
   up, its flag cannot be written, there is no rate or no worth at it, or the
   database or the ledger refuses the credit.
   */
  lemma IgnoredIff(env: Env, s: State, job: Job, ok: bool, insertOk: bool)
    requires job.transfer !in s.books.ignored && (job.stage.Logged? ==> job.stage.key != "")
    ensures job.transfer in WorkOn(env, s, job, ok, insertOk).0.ignored <==> Fails(env, s, job, ok, insertOk)
  {
    if job.stage.Logged? {
      CreditSucceedsIff(s.books.db, s.rate, job.stage.user, job.transfer.value, job.stage.key, ok);
    }
  }

  /** A worker's credit is booked at the rate in force, once. */
  lemma WorkPays(env: Env, s: State, job: Job, ok: bool, insertOk: bool)
    requires job.stage.Logged? && job.stage.key != "" && !Fails(env, s, job, ok, insertOk)
    ensures var (db, d) := (s.books.db, WorkOn(env, s, job, ok, insertOk).0.db);
            var (n, a) := (Worth(job.transfer.value, s.rate), AccountFor(job.stage.user));
            if KeyUsed(db, job.stage.key) then d == db
            else
              && d.txns == db.txns + [Txn(job.stage.user, "deposit", "NGN", n, 0, "", job.stage.key)]
              && forall x :: Sum(d.entries, x) == Sum(db.entries, x) + if x == a then n else 0
  {
    CreditSucceedsIff(s.books.db, s.rate, job.stage.user, job.transfer.value, job.stage.key, ok);
    CreditAdds(s.books.db, s.rate, job.stage.user, job.transfer.value, job.stage.key, ok);
  }

  // ---- Attribution ----

  /** The operator's choice is valid for the flagged row and the sender is nobody else's. */
  predicate Assignable(s: State, act: Action)
    requires act.Attribute?
  {
    var id := (act.tx, act.log);
    && act.user != "" && Flagged(s.books, id) && s.books.events[id].base > 0 && act.linkOk
    && (var from := s.books.events[id].from;
        from in s.links && s.links[from] != "" ==> s.links[from] == act.user)
  }

  /** ... and its credit goes through. */
  predicate Payable(s: State, act: Action)
    requires act.Attribute?
  {
    && Assignable(s, act) && act.creditOk && s.rate > 0
    && (var base := s.books.events[(act.tx, act.log)].base;
        && Worth(base, s.rate) > 0
        && Creditworthy(s.books.db, act.user, Worth(base, s.rate), VaultKey(act.tx)))
  }

  /**
   An attribution takes the flag away exactly when the row is the operator's
   to assign, the credit goes through and the row can be updated; a valid one
   links the sender to the user, and one that is paid books the deposit at the
   rate in force.
   */
  lemma AttributeIff(env: Env, s: State, act: Action)
    requires act.Attribute? && Flagged(s.books, (act.tx, act.log))
    ensures var (t, id) := (DoAttribute(env, s, act), (act.tx, act.log));
            && (!Flagged(t.books, id) <==> Payable(s, act) && act.markOk)
            && (Assignable(s, act) ==> Linked(t.links, s.books.events[id].from, act.user))
    ensures Payable(s, act) && !KeyUsed(s.books.db, VaultKey(act.tx)) ==>
              var (db, d) := (s.books.db, DoAttribute(env, s, act).books.db);
              var n := Worth(s.books.events[(act.tx, act.log)].base, s.rate);
              && d.txns == db.txns + [Txn(act.user, "deposit", "NGN", n, 0, "", VaultKey(act.tx))]
              && forall x :: Sum(d.entries, x) == Sum(db.entries, x) + if x == AccountFor(act.user) then n else 0
  {
    var id := (act.tx, act.log);
    var base := s.books.events[id].base;
    KeysDistinct(act.tx, act.tx);
    CreditSucceedsIff(s.books.db, s.rate, act.user, base, VaultKey(act.tx), act.creditOk);
    CreditAdds(s.books.db, s.rate, act.user, base, VaultKey(act.tx), act.creditOk);
  }

  predicate Linked(links: map<string, string>, wallet: string, user: string) {
    wallet in links && links[wallet] == user
  }
}
