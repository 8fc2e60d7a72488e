/** What every action of the deposit indexer keeps. */
module IndexerInvariant {
  import opened Int64
  import opened Ledger
  import opened Indexer
  import Conservation
  import LogScan
  import Solvency

  // ---- What the tables hold ----

  ghost predicate HasKey(db: Db, key: string) {
    exists i :: 0 <= i < |db.txns| && db.txns[i].key == key
  }

  /** `amount` kobo is what `base` micro-USDC is worth at a rate that was in force, rounded down. */
  ghost predicate Priced(rates: set<int>, amount: int, base: int) {
    base > 0 && exists rate <- rates :: rate > 0 && amount == Wrap(base * rate / 1_000_000)
  }

  /** The user was linked to the wallet at some time, or is the fallback account. */
  predicate Knows(env: Env, linked: set<Link>, wallet: string, user: string) {
    (wallet, user) in linked || user == env.fallback
  }

  ghost predicate PastInv(env: Env, s: State) {
    && (forall a <- s.links :: (a, s.links[a]) in s.past.linked)
    && (forall a <- s.proc.addressUser :: Knows(env, s.past.linked, a, s.proc.addressUser[a]))
    && (s.rate > 0 ==> s.rate in s.past.rates)
  }

  /** This transaction row is the credit of transfer `t`. */
  ghost predicate Pays(env: Env, clones: map<string, Clone>, past: Past, t: TokenTransfer, txn: Txn) {
    && txn.typ == "deposit" && txn.currency == "NGN"
    && (|| (&& txn.key == CloneKey(t.tx) && t.to in clones && txn.user == clones[t.to].user
            && Priced(past.rates, txn.amount, t.value))
        || (&& txn.key == VaultKey(t.tx) && t.to == env.vault && Knows(env, past.linked, t.from, txn.user)
            && (Priced(past.rates, txn.amount, t.value) || Priced(past.rates, txn.amount, Wrap(t.value)))))
  }

  ghost predicate Sourced(env: Env, chain: Chain, clones: map<string, Clone>, past: Past, txn: Txn) {
    exists t :: Confirmed(env, chain, t) && Pays(env, clones, past, t, txn)
  }

  /** The event row `e` was written for transfer `t`. */
  ghost predicate Records(env: Env, id: EventId, e: Event, t: TokenTransfer) {
    && id == (t.tx, t.log) && e.base == Wrap(t.value) && e.from == t.from && e.to == t.to
    && (e.kind == Unattributed ==> t.to == env.vault)
  }

  ghost predicate Recorded(env: Env, chain: Chain, id: EventId, e: Event) {
    exists t :: Confirmed(env, chain, t) && Records(env, id, e, t)
  }

  ghost predicate TxnsInv(env: Env, chain: Chain, clones: map<string, Clone>, past: Past, db: Db) {
    && Valid(db)
    && (forall i :: 0 <= i < |db.txns| && Ours(db.txns[i].key) ==> Sourced(env, chain, clones, past, db.txns[i]))
    && (forall i :: 0 <= i < |db.txns| && Ours(db.txns[i].key) ==> Conservation.Booked(db, i))
  }

  ghost predicate EventsInv(env: Env, chain: Chain, events: map<EventId, Event>) {
    forall id <- events :: Recorded(env, chain, id, events[id])
  }

  // ---- What the indexer owes ----

  /** A transfer the indexer must act on: into a clone that existed before it was mined, or into the vault. */
  predicate Due(env: Env, clones: map<string, Clone>, t: TokenTransfer) {
    && t.value > 0 && t.from != ZERO
    && (t.to == env.vault || (t.to in clones && t.block > clones[t.to].since))
  }

  /** Waiting for an operator. */
  predicate Flagged(b: Books, id: EventId) {
    id in b.events && b.events[id].kind == Unattributed
  }

  /** Credited, flagged for an operator, or given up. */
  ghost predicate Settled(env: Env, b: Books, t: TokenTransfer) {
    || t in b.ignored
    || t in b.lost
    || (t.to != env.vault && HasKey(b.db, CloneKey(t.tx)))
    || (t.to == env.vault && (HasKey(b.db, VaultKey(t.tx)) || Flagged(b, (t.tx, t.log))))
  }

  ghost predicate Covered(env: Env, s: State, c: nat) {
    forall t :: OnChain(s.chain, t) && s.base <= t.block < c && Due(env, s.clones, t) ==> Settled(env, s.books, t)
  }

  /** No block below `c` that is counted can still be reorganised. */
  predicate Deep(env: Env, s: State, c: nat) {
    c <= s.base || c + env.minConf <= |s.chain|
  }

  predicate CursorInv(env: Env, s: State) {
    && Deep(env, s, s.proc.cursor) && Deep(env, s, s.stored)
    && (if env.startBlock == 0 then s.base <= Head(s) else s.base == env.startBlock && s.proc.cursor > 0)
    && (s.proc.resumed ==> s.stored <= s.proc.cursor)
    && (s.proc.phase.Saving? ==> s.proc.phase.next == s.proc.cursor)
  }

  predicate Scanning(p: Phase) {
    p.Polled? || p.Routed? || p.Processing?
  }

  /** The routing table is current as far as the window being scanned goes. */
  predicate RoutesInv(env: Env, clones: map<string, Clone>, proc: Process) {
    && env.vault !in clones
    && (forall a <- proc.cloneUser :: a in clones && clones[a].user == proc.cloneUser[a])
    && (proc.phase.Routed? || proc.phase.Processing? ==>
          forall a <- clones :: a in proc.cloneUser || clones[a].since >= proc.phase.last)
  }

  /** A job is somewhere on its way, and finished only once its transfer is settled. */
  ghost predicate JobInv(env: Env, s: State, j: Job) {
    && Confirmed(env, s.chain, j.transfer)
    && (j.stage.Logged? ==> Creditable(env, s.clones, s.past, j.transfer, j.stage.user, j.stage.key))
    && (j.stage.Done? && Due(env, s.clones, j.transfer) ==> Settled(env, s.books, j.transfer))
  }

  predicate Creditable(env: Env, clones: map<string, Clone>, past: Past, t: TokenTransfer, user: string,
                       key: string) {
    && t.value > 0
    && (|| (key == CloneKey(t.tx) && t.to in clones && user == clones[t.to].user)
        || (key == VaultKey(t.tx) && t.to == env.vault && Knows(env, past.linked, t.from, user)))
  }

  ghost predicate Listed(jobs: seq<Job>, t: TokenTransfer) {
    exists k :: 0 <= k < |jobs| && jobs[k].transfer == t
  }

  ghost predicate JobsInv(env: Env, s: State, from: nat, last: nat, jobs: seq<Job>) {
    && (forall k :: 0 <= k < |jobs| ==> jobs[k].transfer.block <= last && JobInv(env, s, jobs[k]))
    && (forall t :: OnChain(s.chain, t) && from <= t.block <= last ==> Listed(jobs, t))
  }

  ghost predicate PhaseInv(env: Env, s: State) {
    var p := s.proc.phase;
    && (Scanning(p) ==> p.from == s.proc.cursor && p.from <= p.last && p.last + env.minConf < |s.chain|)
    && (p.Processing? ==> p.from <= p.next <= p.last + 1 && JobsInv(env, s, p.from, p.last, p.jobs))
  }

  ghost predicate TablesInv(env: Env, s: State) {
    TxnsInv(env, s.chain, s.clones, s.past, s.books.db) && EventsInv(env, s.chain, s.books.events)
  }

  ghost predicate ScanInv(env: Env, s: State) {
    && CursorInv(env, s) && RoutesInv(env, s.clones, s.proc) && PhaseInv(env, s)
    && Covered(env, s, s.proc.cursor) && Covered(env, s, s.stored)
  }

  ghost predicate Inv(env: Env, s: State) {
    WellFormed(s.chain) && PastInv(env, s) && TablesInv(env, s) && ScanInv(env, s)
  }

  // ---- Tables only grow ----

  /** Everything that settles a transfer in b settles it in b'. */
  ghost predicate Grows(b: Books, b': Books) {
    && b.ignored <= b'.ignored && b.lost <= b'.lost && b.db.txns <= b'.db.txns
    && forall id <- b.events :: Flagged(b, id) ==> Flagged(b', id) || HasKey(b'.db, VaultKey(id.0))
  }

  lemma SettledGrows(env: Env, b: Books, b': Books, t: TokenTransfer)
    requires Grows(b, b') && Settled(env, b, t)
    ensures Settled(env, b', t)
  {
    assert forall i :: 0 <= i < |b.db.txns| ==> b'.db.txns[i] == b.db.txns[i];
  }

  /** Coverage survives any step that keeps the chain and the clones, and only grows the tables. */
  lemma CoveredGrows(env: Env, s: State, s': State, c: nat)
    requires Grows(s.books, s'.books) && s'.chain == s.chain && s'.clones == s.clones && s'.base >= s.base
    requires Covered(env, s, c)
    ensures Covered(env, s', c)
  {
    forall t | OnChain(s'.chain, t) && s'.base <= t.block < c && Due(env, s'.clones, t)
      ensures Settled(env, s'.books, t)
    {
      SettledGrows(env, s.books, s'.books, t);
    }
  }

  lemma JobGrows(env: Env, s: State, s': State, j: Job)
    requires Grows(s.books, s'.books) && s'.chain == s.chain && s'.clones == s.clones && s.past.Within(s'.past)
    requires JobInv(env, s, j)
    ensures JobInv(env, s', j)
  {
    if Settled(env, s.books, j.transfer) {
      SettledGrows(env, s.books, s'.books, j.transfer);
    }
  }

  // ---- The ledger side of a step ----

  /** Rows posted before a request stay booked. */
  lemma StillBooked(db: Db, r: Request)
    requires forall i :: 0 <= i < |db.txns| && Ours(db.txns[i].key) ==> Conservation.Booked(db, i)
    ensures var d := Apply(db, r).0;
            && |d.txns| >= |db.txns|
            && forall i :: 0 <= i < |db.txns| && Ours(d.txns[i].key) ==> Conservation.Booked(d, i)
  {
    var d := Apply(db, r).0;
    Conservation.ApplyTxns(db, r);
    forall i | 0 <= i < |db.txns| && Ours(d.txns[i].key) ensures Conservation.Booked(d, i) {
      Conservation.BookedKept(db, r, i);
    }
  }

  lemma ForeignTxns(env: Env, s: State, r: Request)
    requires TxnsInv(env, s.chain, s.clones, s.past, s.books.db) && !Ours(r.key)
    ensures var d := Apply(s.books.db, r).0; TxnsInv(env, s.chain, s.clones, s.past, d) && s.books.db.txns <= d.txns
  {
    Conservation.ApplyValid(s.books.db, r);
    Conservation.ApplyTxns(s.books.db, r);
    StillBooked(s.books.db, r);
  }

  lemma DepositTxn(db: Db, user: string, ngn: int, key: string)
    requires ngn > 0 && key != ""
    ensures var (d, o) := Apply(db, Solvency.DepositRequest(user, ngn, key));
            && (o.Committed? ==> o.txn == Txn(user, "deposit", "NGN", ngn, 0, "", key))
            && (!o.Rejected? ==> HasKey(d, key))
  {
    var r := Solvency.DepositRequest(user, ngn, key);
    Conservation.ApplyTxns(db, r);
    FindKeyIff(db.txns, key);
    var (d, o) := Apply(db, r);
    assert o.Committed? ==> d.txns[|db.txns|].key == key;
  }

  /** Crediting a confirmed transfer under its own key keeps every row sourced. */
  lemma CreditKeeps(env: Env, chain: Chain, clones: map<string, Clone>, past: Past, db: Db, rate: int,
                    t: TokenTransfer, user: string, base: int, key: string, ok: bool)
    requires TxnsInv(env, chain, clones, past, db)
    requires Confirmed(env, chain, t) && Creditable(env, clones, past, t, user, key)
    requires base == t.value || (base == Wrap(t.value) && key == VaultKey(t.tx))
    requires rate > 0 ==> rate in past.rates
    ensures var (d, credited) := CreditDeposit(db, rate, user, base, key, ok);
            && TxnsInv(env, chain, clones, past, d) && db.txns <= d.txns
            && (credited ==> HasKey(d, key))
  {
    KeysDistinct(t.tx, t.tx);
    var (d', credited) := CreditDeposit(db, rate, user, base, key, ok);
    if d' != db || credited {
      var ngn := Solvency.DepositNgn(base, rate);
      var r := Solvency.DepositRequest(user, ngn, key);
      var (d, o) := Apply(db, r);
      Conservation.ApplyValid(db, r);
      Conservation.ApplyTxns(db, r);
      DepositTxn(db, user, ngn, key);
      StillBooked(db, r);
      if o.Committed? {
        Conservation.CreditBooked(db, r);
        Solvency.DepositExact(base, rate);
        assert Priced(past.rates, ngn, base);
        assert Pays(env, clones, past, t, o.txn);
        assert Sourced(env, chain, clones, past, o.txn);
      }
    }
  }

  // ---- Workers keep the invariant ----

  lemma InsertKeeps(env: Env, chain: Chain, b: Books, t: TokenTransfer, kind: Kind)
    requires EventsInv(env, chain, b.events) && Confirmed(env, chain, t) && (kind == Unattributed ==> t.to == env.vault)
    ensures var b' := Insert(b, t, kind);
            EventsInv(env, chain, b'.events) && Grows(b, b') && b'.db == b.db
  {
    assert Records(env, (t.tx, t.log), Event(kind, t.from, t.to, Wrap(t.value)), t);
  }

  lemma RouteBooks(env: Env, s: State, t: TokenTransfer, ok: bool, insertOk: bool)
    ensures var b := Route(env, s, t, ok, insertOk).0;
            || b == s.books
            || b == Insert(s.books, t, Deposited)
            || (b == Flag(s.books, t) && t.to == env.vault)
            || b == Ignore(s.books, t)
  {
  }

  lemma RouteKeeps(env: Env, s: State, t: TokenTransfer, b: Books, ok: bool, insertOk: bool)
    requires EventsInv(env, s.chain, s.books.events) && Confirmed(env, s.chain, t)
    requires b == Route(env, s, t, ok, insertOk).0
    ensures EventsInv(env, s.chain, b.events) && Grows(s.books, b) && b.db == s.books.db
  {
    RouteBooks(env, s, t, ok, insertOk);
    InsertKeeps(env, s.chain, s.books, t, Deposited);
    if t.to == env.vault {
      InsertKeeps(env, s.chain, s.books, t, Unattributed);
    }
  }

  /** Up to the event row a handler either hands over to the credit or settles a due transfer. */
  lemma RouteSettles(env: Env, s: State, t: TokenTransfer, ok: bool, insertOk: bool)
    requires PastInv(env, s) && RoutesInv(env, s.clones, s.proc) && s.proc.phase.Processing?
    requires t.block <= s.proc.phase.last
    ensures var (b, stage) := Route(env, s, t, ok, insertOk);
            && (stage.Logged? ==> Creditable(env, s.clones, s.past, t, stage.user, stage.key))
            && (stage.Done? && Due(env, s.clones, t) ==> Settled(env, b, t))
  {
  }

  lemma WorkOnKeeps(env: Env, s: State, j: Job, ok: bool, insertOk: bool)
    requires PastInv(env, s) && TablesInv(env, s) && RoutesInv(env, s.clones, s.proc) && JobInv(env, s, j)
    requires s.proc.phase.Processing? && j.transfer.block <= s.proc.phase.last
    ensures var (b, stage) := WorkOn(env, s, j, ok, insertOk);
            && TxnsInv(env, s.chain, s.clones, s.past, b.db) && EventsInv(env, s.chain, b.events) && Grows(s.books, b)
            && JobInv(env, s.(books := b), j.(stage := stage))
  {
    match j.stage {
      case Fresh =>
        RouteKeeps(env, s, j.transfer, Route(env, s, j.transfer, ok, insertOk).0, ok, insertOk);
        RouteSettles(env, s, j.transfer, ok, insertOk);
      case Logged(user, key) =>
        var t := j.transfer;
        CreditKeeps(env, s.chain, s.clones, s.past, s.books.db, s.rate, t, user, t.value, key, ok);
      case Done =>
    }
  }

  /** Only users known for a wallet are cached for it. */
  lemma WorkLinks(env: Env, s: State, i: nat, ok: bool, insertOk: bool)
    requires PastInv(env, s) && s.proc.phase.Processing? && i < |s.proc.phase.jobs|
    ensures PastInv(env, DoWork(env, s, i, ok, insertOk))
  {
    var j := s.proc.phase.jobs[i];
    assert Knows(env, s.past.linked, j.transfer.from, SenderUser(env, s, j.transfer.from));
  }

  lemma WorkInv(env: Env, s: State, i: nat, ok: bool, insertOk: bool)
    requires Inv(env, s) && s.proc.phase.Processing? && i < |s.proc.phase.jobs|
    ensures Inv(env, DoWork(env, s, i, ok, insertOk))
  {
    var p := s.proc.phase;
    WorkOnKeeps(env, s, p.jobs[i], ok, insertOk);
    WorkLinks(env, s, i, ok, insertOk);
    var s' := DoWork(env, s, i, ok, insertOk);
    CoveredGrows(env, s, s', s.proc.cursor);
    CoveredGrows(env, s, s', s.stored);
    assert JobInv(env, s', s'.proc.phase.jobs[i]);
    JobsReplaced(env, s, s', p.from, p.last, p.jobs, i, s'.proc.phase.jobs[i]);
  }

  lemma JobsReplaced(env: Env, s: State, s': State, from: nat, last: nat, jobs: seq<Job>, i: nat, job: Job)
    requires JobsInv(env, s, from, last, jobs) && i < |jobs|
    requires Grows(s.books, s'.books) && s'.chain == s.chain && s'.clones == s.clones && s.past.Within(s'.past)
    requires job.transfer == jobs[i].transfer && JobInv(env, s', job)
    ensures JobsInv(env, s', from, last, jobs[i := job])
  {
    var jobs' := jobs[i := job];
    forall k | 0 <= k < |jobs'| ensures jobs'[k].transfer == jobs[k].transfer && JobInv(env, s', jobs'[k]) {
      if k != i {
        JobGrows(env, s, s', jobs[k]);
      }
    }
    forall t | OnChain(s'.chain, t) && from <= t.block <= last ensures Listed(jobs', t) {
      assert Listed(jobs, t);
      var k :| 0 <= k < |jobs| && jobs[k].transfer == t;
      assert jobs'[k].transfer == t;
    }
  }

  // ---- Steps of others keep the invariant ----

  /** A step that touches only tables, links and the rate. */
  lemma OthersKeepScan(env: Env, s: State, s': State)
    requires ScanInv(env, s) && Grows(s.books, s'.books)
    requires s' == s.(books := s'.books, links := s'.links, past := s'.past, rate := s'.rate)
    requires s.past.Within(s'.past)
    ensures ScanInv(env, s')
  {
    CoveredGrows(env, s, s', s.proc.cursor);
    CoveredGrows(env, s, s', s.stored);
    var p := s.proc.phase;
    if p.Processing? {
      forall k | 0 <= k < |p.jobs| ensures JobInv(env, s', p.jobs[k]) {
        JobGrows(env, s, s', p.jobs[k]);
      }
    }
  }

  /** More links known keep every row sourced. */
  lemma PastGrows(env: Env, s: State, past: Past, db: Db)
    requires TxnsInv(env, s.chain, s.clones, s.past, db) && s.past.Within(past)
    ensures TxnsInv(env, s.chain, s.clones, past, db)
  {
    forall i | 0 <= i < |db.txns| && Ours(db.txns[i].key) ensures Sourced(env, s.chain, s.clones, past, db.txns[i]) {
      var t :| Confirmed(env, s.chain, t) && Pays(env, s.clones, s.past, t, db.txns[i]);
      assert Pays(env, s.clones, past, t, db.txns[i]);
    }
  }

  /** What an effective attribution does; the user ends up linked to the sender. */
  lemma AttributeIs(env: Env, s: State, act: Action, s': State)
    requires PastInv(env, s) && act.Attribute? && s' == DoAttribute(env, s, act) && s' != s
    ensures var id := (act.tx, act.log);
            && Flagged(s.books, id) && act.user != "" && s.books.events[id].base > 0
            && s.past.Within(s'.past) && (s.books.events[id].from, act.user) in s'.past.linked && PastInv(env, s')
            && (var e := s.books.events[id];
                var key := VaultKey(act.tx);
                var (d, credited) := CreditDeposit(s.books.db, s.rate, act.user, e.base, key, act.creditOk);
                && s'.books.db == d && s'.books.ignored == s.books.ignored && s'.books.lost == s.books.lost
                && (|| s'.books.events == s.books.events
                    || (credited && s'.books.events == s.books.events[id := e.(kind := Deposited)])))
  {
  }

  lemma AttributeKeeps(env: Env, s: State, act: Action, s': State)
    requires PastInv(env, s) && TablesInv(env, s) && act.Attribute? && s' == DoAttribute(env, s, act)
    ensures TxnsInv(env, s.chain, s.clones, s'.past, s'.books.db) && EventsInv(env, s.chain, s'.books.events)
    ensures Grows(s.books, s'.books)
    ensures PastInv(env, s') && s.past.Within(s'.past)
  {
    if s' != s {
      AttributeIs(env, s, act, s');
      var id := (act.tx, act.log);
      PastGrows(env, s, s'.past, s.books.db);
      AttributeCredits(env, s, s'.past, act, id);
      MarkKeeps(env, s.chain, s.books, s'.books, id);
    }
  }

  lemma AttributeCredits(env: Env, s: State, past: Past, act: Action, id: EventId)
    requires TxnsInv(env, s.chain, s.clones, past, s.books.db) && EventsInv(env, s.chain, s.books.events)
    requires act.Attribute? && id == (act.tx, act.log) && Flagged(s.books, id) && s.books.events[id].base > 0
    requires (s.books.events[id].from, act.user) in past.linked && (s.rate > 0 ==> s.rate in past.rates)
    ensures var base := s.books.events[id].base;
            var (d, credited) := CreditDeposit(s.books.db, s.rate, act.user, base, VaultKey(act.tx), act.creditOk);
            && TxnsInv(env, s.chain, s.clones, past, d) && s.books.db.txns <= d.txns
            && (credited ==> HasKey(d, VaultKey(act.tx)))
  {
    var e := s.books.events[id];
    assert Recorded(env, s.chain, id, e);
    var t :| Confirmed(env, s.chain, t) && Records(env, id, e, t);
    CreditKeeps(env, s.chain, s.clones, past, s.books.db, s.rate, t, act.user, e.base, VaultKey(act.tx),
                act.creditOk);
  }

  /** Marking a flagged row as deposited once its key is in the ledger. */
  lemma MarkKeeps(env: Env, chain: Chain, b: Books, b': Books, id: EventId)
    requires EventsInv(env, chain, b.events) && id in b.events && b.db.txns <= b'.db.txns
    requires b'.ignored == b.ignored && b'.lost == b.lost
    requires || b'.events == b.events
             || (HasKey(b'.db, VaultKey(id.0)) && b'.events == b.events[id := b.events[id].(kind := Deposited)])
    ensures EventsInv(env, chain, b'.events) && Grows(b, b')
  {
    var e := b.events[id];
    assert Recorded(env, chain, id, e);
    var t :| Confirmed(env, chain, t) && Records(env, id, e, t);
    assert Records(env, id, e.(kind := Deposited), t);
  }

  /** Confirmed blocks do not move when the chain does. */
  lemma ConfirmedStays(env: Env, chain: Chain, chain': Chain, t: TokenTransfer)
    requires Extends(env, chain, chain')
    ensures Confirmed(env, chain, t) ==> Confirmed(env, chain', t)
    ensures t.block + env.minConf < |chain| ==> (OnChain(chain', t) <==> OnChain(chain, t))
  {
  }

  lemma MineTables(env: Env, s: State, chain: Chain)
    requires TablesInv(env, s) && Extends(env, s.chain, chain)
    ensures TablesInv(env, s.(chain := chain))
  {
    var txns := s.books.db.txns;
    forall i | 0 <= i < |txns| && Ours(txns[i].key) ensures Sourced(env, chain, s.clones, s.past, txns[i]) {
      var t :| Confirmed(env, s.chain, t) && Pays(env, s.clones, s.past, t, txns[i]);
      ConfirmedStays(env, s.chain, chain, t);
    }
    forall id | id in s.books.events ensures Recorded(env, chain, id, s.books.events[id]) {
      assert Recorded(env, s.chain, id, s.books.events[id]);
      var t :| Confirmed(env, s.chain, t) && Records(env, id, s.books.events[id], t);
      ConfirmedStays(env, s.chain, chain, t);
    }
  }

  lemma MineCovered(env: Env, s: State, chain: Chain, c: nat)
    requires Covered(env, s, c) && Deep(env, s, c) && Extends(env, s.chain, chain)
    ensures Covered(env, s.(chain := chain), c)
  {
    forall t | OnChain(chain, t) && s.base <= t.block < c && Due(env, s.clones, t) ensures Settled(env, s.books, t) {
      ConfirmedStays(env, s.chain, chain, t);
    }
  }

  lemma MinePhase(env: Env, s: State, chain: Chain)
    requires PhaseInv(env, s) && Extends(env, s.chain, chain)
    ensures PhaseInv(env, s.(chain := chain))
  {
    var s', p := s.(chain := chain), s.proc.phase;
    if p.Processing? {
      forall k | 0 <= k < |p.jobs| ensures JobInv(env, s', p.jobs[k]) {
        assert JobInv(env, s, p.jobs[k]);
        ConfirmedStays(env, s.chain, chain, p.jobs[k].transfer);
      }
      forall t | OnChain(chain, t) && p.from <= t.block <= p.last ensures Listed(p.jobs, t) {
        ConfirmedStays(env, s.chain, chain, t);
      }
    }
  }

  lemma MineScan(env: Env, s: State, chain: Chain)
    requires ScanInv(env, s) && Extends(env, s.chain, chain)
    ensures ScanInv(env, s.(chain := chain))
  {
    MineCovered(env, s, chain, s.proc.cursor);
    MineCovered(env, s, chain, s.stored);
    MinePhase(env, s, chain);
  }

  /** A new clone owes nothing on the chain as it stands. */
  lemma NothingDueYet(env: Env, s: State, address: string, user: string)
    requires address !in s.clones && |s.chain| > 0
    ensures forall t :: OnChain(s.chain, t) && Due(env, WithClone(s, address, user).clones, t) ==> Due(env, s.clones, t)
  {
  }

  lemma CloneTables(env: Env, s: State, address: string, user: string)
    requires TablesInv(env, s) && address !in s.clones && |s.chain| > 0
    ensures TablesInv(env, WithClone(s, address, user))
  {
    var clones, txns := WithClone(s, address, user).clones, s.books.db.txns;
    forall i | 0 <= i < |txns| && Ours(txns[i].key) ensures Sourced(env, s.chain, clones, s.past, txns[i]) {
      var t :| Confirmed(env, s.chain, t) && Pays(env, s.clones, s.past, t, txns[i]);
      assert Pays(env, clones, s.past, t, txns[i]);
    }
  }

  lemma CloneScan(env: Env, s: State, address: string, user: string)
    requires ScanInv(env, s) && address !in s.clones && address != env.vault && |s.chain| > 0
    ensures ScanInv(env, WithClone(s, address, user))
  {
    var s', p := WithClone(s, address, user), s.proc.phase;
    NothingDueYet(env, s, address, user);
    assert Covered(env, s', s.proc.cursor) && Covered(env, s', s.stored);
    if p.Processing? {
      forall k | 0 <= k < |p.jobs| ensures JobInv(env, s', p.jobs[k]) {
        assert JobInv(env, s, p.jobs[k]);
      }
    }
  }

  // ---- The scan keeps the invariant ----

  lemma FetchedTransfers(chain: Chain, from: nat, last: nat, t: TokenTransfer)
    requires WellFormed(chain)
    ensures t in LogScan.Range(TransfersAt(chain), from, last) <==> OnChain(chain, t) && from <= t.block <= last
  {
    LogScan.RangeIff(TransfersAt(chain), from, last, t);
    assert OnChain(chain, t) ==> t in TransfersAt(chain)(t.block);
  }

  lemma BlocksWithin(chain: Chain, from: nat, last: nat)
    requires WellFormed(chain)
    ensures forall b <- BlocksOf(LogScan.Range(TransfersAt(chain), from, last)) :: b <= last
  {
    var ts := LogScan.Range(TransfersAt(chain), from, last);
    forall k | 0 <= k < |ts| ensures ts[k].block <= last {
      FetchedTransfers(chain, from, last, ts[k]);
    }
  }

  lemma MarksWithin(chain: Chain, from: nat, last: nat)
    ensures forall b <- LogScan.Range(VaultLogsAt(chain), from, last) :: b <= last
  {
    forall b: nat | b in LogScan.Range(VaultLogsAt(chain), from, last) ensures b <= last {
      LogScan.RangeIff(VaultLogsAt(chain), from, last, b);
      var n: nat :| from <= n <= last && b in VaultLogsAt(chain)(n);
      assert forall x <- VaultLogsAt(chain)(n) :: x == n;
    }
  }

  lemma FetchedNext(chain: Chain, from: nat, last: nat)
    requires WellFormed(chain) && from <= last
    ensures from <= Fetched(chain, from, last).next <= last + 1
  {
    BlocksWithin(chain, from, last);
    MarksWithin(chain, from, last);
  }

  lemma JobsListed(ts: seq<TokenTransfer>, t: TokenTransfer)
    requires t in ts
    ensures Listed(JobsOf(ts), t)
  {
    var k :| 0 <= k < |ts| && ts[k] == t;
    assert JobsOf(ts)[k].transfer == t;
  }

  lemma FetchScan(env: Env, s: State)
    requires WellFormed(s.chain) && ScanInv(env, s) && s.proc.phase.Routed?
    ensures ScanInv(env, InPhase(s, Fetched(s.chain, s.proc.phase.from, s.proc.phase.last)))
  {
    var p := s.proc.phase;
    var s' := InPhase(s, Fetched(s.chain, p.from, p.last));
    var ts := LogScan.Range(TransfersAt(s.chain), p.from, p.last);
    FetchedNext(s.chain, p.from, p.last);
    forall t ensures t in ts <==> OnChain(s.chain, t) && p.from <= t.block <= p.last {
      FetchedTransfers(s.chain, p.from, p.last, t);
    }
    forall t | t in ts ensures Listed(JobsOf(ts), t) {
      JobsListed(ts, t);
    }
    forall k | 0 <= k < |ts| ensures JobsOf(ts)[k].transfer.block <= p.last && JobInv(env, s', JobsOf(ts)[k]) {
      assert ts[k] in ts;
    }
    assert JobsInv(env, s', p.from, p.last, JobsOf(ts));
    ProcessScan(env, s, s', s.proc.cursor);
  }

  /** The cursor moves only over blocks whose due transfers are all settled. */
  lemma FinishCovers(env: Env, s: State)
    requires PhaseInv(env, s) && Covered(env, s, s.proc.cursor) && s.proc.phase.Processing?
    requires AllDone(s.proc.phase.jobs)
    ensures Covered(env, s, s.proc.phase.next)
  {
    var p := s.proc.phase;
    forall t | OnChain(s.chain, t) && s.base <= t.block < p.next && Due(env, s.clones, t)
      ensures Settled(env, s.books, t)
    {
      if t.block >= s.proc.cursor {
        assert Listed(p.jobs, t);
        var k :| 0 <= k < |p.jobs| && p.jobs[k].transfer == t;
        assert JobInv(env, s, p.jobs[k]) && p.jobs[k] in p.jobs;
      }
    }
  }

  lemma FinishCursor(env: Env, s: State)
    requires CursorInv(env, s) && RoutesInv(env, s.clones, s.proc) && PhaseInv(env, s) && s.proc.phase.Processing?
    ensures var s' := DoFinish(s); CursorInv(env, s') && RoutesInv(env, s'.clones, s'.proc) && PhaseInv(env, s')
  {
  }

  lemma FinishScan(env: Env, s: State)
    requires ScanInv(env, s) && s.proc.phase.Processing? && AllDone(s.proc.phase.jobs)
    ensures ScanInv(env, DoFinish(s))
  {
    FinishCovers(env, s);
    FinishCursor(env, s);
    ProcessScan(env, s, DoFinish(s), s.proc.phase.next);
  }

  /** Only the process and its cursors moved, and the cursors to covered places. */
  lemma ProcessScan(env: Env, s: State, s': State, c: nat)
    requires Covered(env, s, s.proc.cursor) && Covered(env, s, s.stored) && Covered(env, s, c)
    requires s' == s.(stored := s'.stored, base := s'.base, proc := s'.proc) && s'.base >= s.base
    requires s'.proc.cursor <= s'.base || s'.proc.cursor in {s.proc.cursor, s.stored, c}
    requires s'.stored == s.stored || s'.stored == s.proc.cursor
    requires CursorInv(env, s') && RoutesInv(env, s'.clones, s'.proc) && PhaseInv(env, s')
    ensures ScanInv(env, s')
  {
    CoveredGrows(env, s, s', s.proc.cursor);
    CoveredGrows(env, s, s', s.stored);
    CoveredGrows(env, s, s', c);
  }

  lemma RestartScan(env: Env, s: State, ok: bool)
    requires ScanInv(env, s)
    ensures ScanInv(env, DoRestart(env, s, ok))
  {
    ProcessScan(env, s, DoRestart(env, s, ok), s.stored);
  }

  lemma PollCursor(env: Env, s: State)
    requires CursorInv(env, s) && RoutesInv(env, s.clones, s.proc) && PhaseInv(env, s) && s.proc.phase.Waiting?
    ensures var s' := DoPoll(env, s);
            CursorInv(env, s') && RoutesInv(env, s'.clones, s'.proc) && PhaseInv(env, s') && s'.base >= s.base
  {
  }

  lemma PollScan(env: Env, s: State)
    requires ScanInv(env, s) && s.proc.phase.Waiting?
    ensures ScanInv(env, DoPoll(env, s))
  {
    PollCursor(env, s);
    ProcessScan(env, s, DoPoll(env, s), s.stored);
  }

  lemma RefreshScan(env: Env, s: State, ok: bool)
    requires ScanInv(env, s) && s.proc.phase.Polled?
    ensures ScanInv(env, DoRefresh(s, ok))
  {
    ProcessScan(env, s, DoRefresh(s, ok), s.stored);
  }

  lemma SaveScan(env: Env, s: State, ok: bool)
    requires ScanInv(env, s) && s.proc.phase.Saving?
    ensures ScanInv(env, DoSave(s, ok))
  {
    ProcessScan(env, s, DoSave(s, ok), s.stored);
  }

  // ---- Whole runs ----

  /** Steps outside the process: the chain, clones, links, the rate, the ledger and operators. */
  predicate External(act: Action) {
    act.Mine? || act.SetRate? || act.AddClone? || act.SetLinked? || act.Foreign? || act.Attribute?
  }

  lemma ChainInv(env: Env, s: State, act: Action, s': State)
    requires Inv(env, s) && (act.Mine? || act.AddClone?) && s' == Act(env, s, act)
    ensures Inv(env, s')
  {
    if act.Mine? && Extends(env, s.chain, act.chain) {
      MineTables(env, s, act.chain);
      MineScan(env, s, act.chain);
    } else if act.AddClone? && s' != s {
      CloneTables(env, s, act.address, act.user);
      CloneScan(env, s, act.address, act.user);
    }
  }

  /** Only tables, links and the rate moved, and what was true of them still is. */
  ghost predicate OthersMove(env: Env, s: State, s': State) {
    && s' == s.(books := s'.books, links := s'.links, past := s'.past, rate := s'.rate) && s.past.Within(s'.past)
    && PastInv(env, s') && TablesInv(env, s') && Grows(s.books, s'.books)
  }

  lemma LinkMoves(env: Env, s: State, user: string, address: string)
    requires PastInv(env, s) && TablesInv(env, s)
    ensures OthersMove(env, s, WithLink(s, user, address))
  {
    PastGrows(env, s, WithLink(s, user, address).past, s.books.db);
  }

  lemma RateMoves(env: Env, s: State, rate: int)
    requires PastInv(env, s) && TablesInv(env, s)
    ensures OthersMove(env, s, WithRate(s, rate))
  {
    PastGrows(env, s, WithRate(s, rate).past, s.books.db);
  }

  lemma OthersTables(env: Env, s: State, act: Action, s': State)
    requires PastInv(env, s) && TablesInv(env, s)
    requires (act.SetRate? || act.SetLinked? || act.Foreign? || act.Attribute?) && s' == Act(env, s, act)
    ensures OthersMove(env, s, s')
  {
    if act.Attribute? {
      AttributeMoves(env, s, act, s');
    } else if act.SetLinked? && act.user != "" {
      LinkMoves(env, s, act.user, act.address);
    } else if act.SetRate? && act.rate > 0 {
      RateMoves(env, s, act.rate);
    } else if act.Foreign? && !Ours(act.request.key) {
      ForeignMoves(env, s, act.request);
    }
  }

  lemma AttributeMoves(env: Env, s: State, act: Action, s': State)
    requires PastInv(env, s) && TablesInv(env, s) && act.Attribute? && s' == DoAttribute(env, s, act)
    ensures OthersMove(env, s, s')
  {
    AttributeKeeps(env, s, act, s');
  }

  lemma ForeignMoves(env: Env, s: State, r: Request)
    requires PastInv(env, s) && TablesInv(env, s) && !Ours(r.key)
    ensures OthersMove(env, s, s.(books := s.books.(db := Apply(s.books.db, r).0)))
  {
    ForeignTxns(env, s, r);
  }

  lemma ExternalInv(env: Env, s: State, act: Action, s': State)
    requires Inv(env, s) && External(act) && s' == Act(env, s, act)
    ensures Inv(env, s')
  {
    if act.Mine? || act.AddClone? {
      ChainInv(env, s, act, s');
    } else {
      OthersTables(env, s, act, s');
      OthersKeepScan(env, s, s');
    }
  }

  /** A step of the process that leaves the tables alone. */
  lemma SameTables(env: Env, s: State, s': State)
    requires WellFormed(s.chain) && PastInv(env, s) && TablesInv(env, s) && SameWorld(s, s') && ScanInv(env, s')
    ensures Inv(env, s')
  {
  }

  lemma WindowStepInv(env: Env, s: State, act: Action, s': State)
    requires ScanInv(env, s) && s' == Act(env, s, act) && (act.Poll? || act.Refresh?)
    ensures ScanInv(env, s') && SameWorld(s, s')
  {
    if act == Poll(true) && s.proc.phase.Waiting? {
      PollScan(env, s);
    } else if act.Refresh? && s.proc.phase.Polled? {
      RefreshScan(env, s, act.ok);
    }
  }

  lemma FetchStepInv(env: Env, s: State, act: Action, s': State)
    requires WellFormed(s.chain) && ScanInv(env, s) && s' == Act(env, s, act) && act.Fetch?
    ensures ScanInv(env, s') && SameWorld(s, s')
  {
    if s.proc.phase.Routed? {
      FetchScan(env, s);
      ProcessScan(env, s, InPhase(s, Waiting), s.stored);
    }
  }

  lemma FinishStepInv(env: Env, s: State, act: Action, s': State)
    requires ScanInv(env, s) && s' == Act(env, s, act) && act.Finish?
    ensures ScanInv(env, s') && SameWorld(s, s')
  {
    if s.proc.phase.Processing? && AllDone(s.proc.phase.jobs) {
      FinishScan(env, s);
    }
  }

  lemma CursorStepInv(env: Env, s: State, act: Action, s': State)
    requires ScanInv(env, s) && s' == Act(env, s, act) && (act.Restart? || act.Save?)
    ensures ScanInv(env, s') && SameWorld(s, s')
  {
    if act.Restart? {
      RestartScan(env, s, act.ok);
    } else if s.proc.phase.Saving? {
      SaveScan(env, s, act.ok);
    }
  }

  lemma WorkStepInv(env: Env, s: State, act: Action, s': State)
    requires Inv(env, s) && s' == Act(env, s, act) && act.Work?
    ensures Inv(env, s')
  {
    if s' != s {
      WorkInv(env, s, act.job, act.ok, act.insertOk);
    }
  }

  lemma ProcessInv(env: Env, s: State, act: Action, s': State)
    requires Inv(env, s) && !External(act) && s' == Act(env, s, act)
    ensures Inv(env, s')
  {
    if act.Work? {
      WorkStepInv(env, s, act, s');
    } else {
      if act.Restart? || act.Save? {
        CursorStepInv(env, s, act, s');
      } else if act.Fetch? {
        FetchStepInv(env, s, act, s');
      } else if act.Finish? {
        FinishStepInv(env, s, act, s');
      } else {
        WindowStepInv(env, s, act, s');
      }
      SameTables(env, s, s');
    }
  }

  /** An empty installation. */
  ghost predicate Init(env: Env, s: State) {
    && WellFormed(s.chain) && Valid(s.books.db)
    && (forall i :: 0 <= i < |s.books.db.txns| ==> !Ours(s.books.db.txns[i].key))
    && s.books.events == map[] && s.books.ignored == {} && s.books.lost == {} && s.clones == map[]
    && (forall a <- s.links :: (a, s.links[a]) in s.past.linked) && (s.rate > 0 ==> s.rate in s.past.rates)
    && (forall p <- s.past.linked :: p.0 in s.links && s.links[p.0] == p.1) && s.past.rates <= {s.rate}
    && s.stored == 0 && s.base == env.startBlock && s.proc == Process(env.startBlock, true, map[], map[], Waiting)
  }

  lemma {:induction false} RunInv(env: Env, s: State, acts: seq<Action>)
    requires Inv(env, s)
    ensures Inv(env, Execute(env, s, acts))
    decreases |acts|
  {
    if acts != [] {
      var s' := Act(env, s, acts[0]);
      if External(acts[0]) {
        ExternalInv(env, s, acts[0], s');
      } else {
        ProcessInv(env, s, acts[0], s');
      }
      RunInv(env, s', acts[1..]);
    }
  }

  lemma InitInv(env: Env, s: State)
    requires Init(env, s)
    ensures Inv(env, s)
  {
  }
}
