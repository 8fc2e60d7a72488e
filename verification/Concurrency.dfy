/**
 Requests that interleave. A database transaction reads under read-committed
 isolation and takes no row lock, so what it writes may rest on a sum another
 transaction has since changed; only the unique key index and the indexer's
 per-user locks order requests.
 */
module Concurrency {
  import opened Int64
  import opened Ledger
  import opened Conservation

  /** Rows a transaction has written but not yet committed. */
  datatype Staged = Staged(posting: Posting, writes: map<Account, int>)

  datatype Pc =
    | Begin
    | Entered                      // past the per-user lock, if one is taken
    | Missed                       // the key lookup found nothing
    | InTx(staged: Staged)
    | Finished(outcome: Outcome)

  datatype State = State(db: Db, pcs: seq<Pc>)

  function Rebase(es: seq<Entry>, row: nat): seq<Entry> {
    seq(|es|, i requires 0 <= i < |es| => es[i].(txn := row))
  }

  /** The balances a transaction writes, computed from the tables it read. */
  function Writes(db: Db, r: Request, p: Posting): map<Account, int>
    requires r.Convert? ==> QuoteOf(r).Success?
  {
    var balances := Commit(db, r, p).balances;
    map a | a in Touched(p.entries) && a in balances :: balances[a]
  }

  /** Committing publishes the rows and the balances as they were staged. */
  function Publish(db: Db, r: Request, s: Staged): Db {
    var d := PrepareInTx(db, r);
    Db(d.accounts, d.txns + [s.posting.txn], d.entries + Rebase(s.posting.entries, |d.txns|), d.balances + s.writes)
  }

  /** A duplicate key is answered with the committed transaction, except by WithdrawExternal. */
  function OnConflict(db: Db, r: Request): Outcome
    requires KeyUsed(db, r.key)
  {
    if r.WithdrawExternal? then Rejected(Conflict) else Replayed(FindKey(db.txns, r.key).value)
  }

  /** One step of request `r` at `pc`; a finished request only stutters. */
  function StepOf(db: Db, r: Request, pc: Pc): (Db, Pc) {
    match pc
    case Begin => (db, Entered)
    case Entered =>
      if Precheck(r).Some? then (db, Finished(Rejected(Precheck(r).value)))
      else
        var d := Prepare(db, r);
        if KeyUsed(d, r.key) then (d, Finished(Replayed(FindKey(d.txns, r.key).value))) else (d, Missed)
    case Missed =>
      (match PlanOf(db, r)
       case Refused(e) => (db, Finished(Rejected(e)))
       case Planned(p) => (db, InTx(Staged(p, Writes(db, r, p)))))
    case InTx(staged) =>
      if KeyUsed(db, r.key) then (db, Finished(OnConflict(db, r)))
      else (Publish(db, r, staged), Finished(Committed(staged.posting.txn)))
    case Finished(_) => (db, pc)
  }

  function Step(rs: seq<Request>, s: State, i: nat): State
    requires |s.pcs| == |rs|
  {
    if i >= |rs| then s
    else
      var (db, pc) := StepOf(s.db, rs[i], s.pcs[i]);
      State(db, s.pcs[i := pc])
  }

  /** A run: `schedule` names the request that moves next. */
  function Exec(rs: seq<Request>, s: State, schedule: seq<nat>): (s': State)
    requires |s.pcs| == |rs|
    ensures |s'.pcs| == |rs|
    decreases |schedule|
  {
    if schedule == [] then s else Exec(rs, Step(rs, s, schedule[0]), schedule[1..])
  }

  function Start(db: Db, rs: seq<Request>): State {
    State(db, seq(|rs|, _ => Begin))
  }

  // ---- One transaction per key ----

  ghost predicate UniqueKeys(txns: seq<Txn>) {
    forall i, j :: 0 <= i < j < |txns| && txns[i].key != "" ==> txns[i].key != txns[j].key
  }

  /** The transaction a finished request reports, if any. */
  function Reported(pc: Pc): Option<Txn> {
    if pc.Finished? && !pc.outcome.Rejected? then Some(pc.outcome.txn) else None
  }

  ghost predicate KeyInv(rs: seq<Request>, s: State) {
    && |s.pcs| == |rs|
    && UniqueKeys(s.db.txns)
    && (forall i :: 0 <= i < |rs| && s.pcs[i].InTx? ==> s.pcs[i].staged.posting.txn.key == rs[i].key)
    && (forall i :: 0 <= i < |rs| && rs[i].key != "" && Reported(s.pcs[i]).Some? ==>
          FindKey(s.db.txns, rs[i].key) == Reported(s.pcs[i]))
    && (forall i, j :: 0 <= i < j < |rs| && rs[i].key != "" && rs[i].key == rs[j].key ==>
          !(IsCommitted(s.pcs[i]) && IsCommitted(s.pcs[j])))
  }

  predicate IsCommitted(pc: Pc) {
    pc.Finished? && pc.outcome.Committed?
  }

  lemma PublishKeys(db: Db, r: Request, staged: Staged, key: string)
    requires UniqueKeys(db.txns) && staged.posting.txn.key == r.key && !KeyUsed(db, r.key)
    ensures UniqueKeys(Publish(db, r, staged).txns)
    ensures FindKey(db.txns, key).Some? ==> FindKey(Publish(db, r, staged).txns, key) == FindKey(db.txns, key)
    ensures r.key != "" ==> FindKey(Publish(db, r, staged).txns, r.key) == Some(staged.posting.txn)
  {
    FindKeyIff(db.txns, r.key);
    FindKeyAppend(db.txns, staged.posting.txn, key);
    FindKeyAppend(db.txns, staged.posting.txn, r.key);
  }

  /** A commit under a new key. */
  lemma LandKeys(rs: seq<Request>, s: State, i: nat, staged: Staged)
    requires KeyInv(rs, s) && i < |rs| && s.pcs[i] == InTx(staged) && !KeyUsed(s.db, rs[i].key)
    ensures KeyInv(rs, State(Publish(s.db, rs[i], staged), s.pcs[i := Finished(Committed(staged.posting.txn))]))
  {
    var s' := State(Publish(s.db, rs[i], staged), s.pcs[i := Finished(Committed(staged.posting.txn))]);
    forall j | 0 <= j < |rs| && rs[j].key != "" && Reported(s'.pcs[j]).Some?
      ensures FindKey(s'.db.txns, rs[j].key) == Reported(s'.pcs[j])
    {
      PublishKeys(s.db, rs[i], staged, rs[j].key);
    }
    PublishKeys(s.db, rs[i], staged, "");
  }

  /** The step of a request still under way that commits nothing. */
  predicate Quiet(db: Db, r: Request, pc: Pc) {
    !pc.Finished? && (pc.InTx? ==> KeyUsed(db, r.key))
  }

  lemma QuietStepIs(db: Db, r: Request, pc: Pc)
    requires Quiet(db, r, pc)
    ensures var (d, pc') := StepOf(db, r, pc);
            && d.txns == db.txns && !IsCommitted(pc') && (pc'.InTx? ==> pc'.staged.posting.txn.key == r.key)
            && (r.key != "" && Reported(pc').Some? ==> FindKey(db.txns, r.key) == Reported(pc'))
  {
    if pc.Missed? && PlanOf(db, r).Planned? {
      PlanRows(db, r);
    }
  }

  lemma QuietKeys(rs: seq<Request>, s: State, i: nat, db: Db, pc: Pc)
    requires KeyInv(rs, s) && i < |rs| && !IsCommitted(pc) && db.txns == s.db.txns
    requires pc.InTx? ==> pc.staged.posting.txn.key == rs[i].key
    requires rs[i].key != "" && Reported(pc).Some? ==> FindKey(db.txns, rs[i].key) == Reported(pc)
    ensures KeyInv(rs, State(db, s.pcs[i := pc]))
  {
  }

  lemma StepKeys(rs: seq<Request>, s: State, i: nat)
    requires KeyInv(rs, s)
    ensures KeyInv(rs, Step(rs, s, i))
  {
    if i < |rs| {
      var pc := s.pcs[i];
      if Quiet(s.db, rs[i], pc) {
        var (d, pc') := StepOf(s.db, rs[i], pc);
        QuietStepIs(s.db, rs[i], pc);
        QuietKeys(rs, s, i, d, pc');
      } else if pc.InTx? {
        LandKeys(rs, s, i, pc.staged);
      } else {
        assert s.pcs[i := pc] == s.pcs;
      }
    }
  }

  lemma {:induction false} ExecKeys(rs: seq<Request>, s: State, schedule: seq<nat>)
    requires KeyInv(rs, s)
    ensures KeyInv(rs, Exec(rs, s, schedule))
    decreases |schedule|
  {
    if schedule != [] {
      StepKeys(rs, s, schedule[0]);
      ExecKeys(rs, Step(rs, s, schedule[0]), schedule[1..]);
    }
  }

  /**
   In every interleaving of any requests over any ledger, at most one of the
   requests sharing a non-empty key commits, and all of them that report a
   transaction report the same one.
   */
  lemma OneTransactionPerKey(db: Db, rs: seq<Request>, schedule: seq<nat>, i: nat, j: nat)
    requires Valid(db) && i < j < |rs| && rs[i].key == rs[j].key != ""
    ensures var s := Exec(rs, Start(db, rs), schedule);
            && UniqueKeys(s.db.txns)
            && !(IsCommitted(s.pcs[i]) && IsCommitted(s.pcs[j]))
            && (Reported(s.pcs[i]).Some? && Reported(s.pcs[j]).Some? ==> Reported(s.pcs[i]) == Reported(s.pcs[j]))
  {
    ExecKeys(rs, Start(db, rs), schedule);
  }

  // ---- Credits, one step at a time ----

  function AccountOf(r: Request): Account
    requires r.Credit?
  {
    Account(r.user, r.kind, r.currency)
  }

  predicate Credits(rs: seq<Request>) {
    forall i :: 0 <= i < |rs| ==> rs[i].Credit?
  }

  lemma CreditPlan(db: Db, r: Request)
    requires r.Credit? && r.amount > 0 && AccountOf(r) in db.accounts
    requires -1 <= Sum(db.entries, AccountOf(r)) && Sum(db.entries, AccountOf(r)) + r.amount <= MAX
    ensures PlanOf(db, r).Planned?
    ensures var p := PlanOf(db, r).posting;
            && p.entries == [Entry(|db.txns|, AccountOf(r), true, r.amount)]
            && p.txn.key == r.key
            && Writes(db, r, p) == map[AccountOf(r) := Wrap(Sum(db.entries, AccountOf(r)) + r.amount)]
  {
    assert PlanMove(db, r).Planned?;
    CreditWrites(db, r, PlanMove(db, r).posting);
  }

  lemma OneTouched(e: Entry)
    ensures Touched([e]) == {e.account}
  {
    assert [e][..0] == [];
  }

  lemma CreditWrites(db: Db, r: Request, p: Posting)
    requires r.Credit? && p.entries == [Entry(|db.txns|, AccountOf(r), true, r.amount)]
    ensures Writes(db, r, p) == map[AccountOf(r) := Wrap(Sum(db.entries, AccountOf(r)) + r.amount)]
  {
    var a := AccountOf(r);
    SumAppend(db.entries, p.entries, a);
    Sum1(p.entries[0], a);
    OneTouched(p.entries[0]);
    assert Commit(db, r, p).balances == Project(db.balances, SumOf(db.entries + p.entries), {a});
  }

  /** Committing a staged credit adds its amount to its account's entries and to no other. */
  lemma PublishSum(db: Db, r: Request, staged: Staged, a: Account)
    requires r.Credit? && |staged.posting.entries| == 1
    requires staged.posting.entries[0].account == AccountOf(r) && staged.posting.entries[0].Delta() == r.amount
    ensures Sum(Publish(db, r, staged).entries, a) == Sum(db.entries, a) + if a == AccountOf(r) then r.amount else 0
  {
    var es := Rebase(staged.posting.entries, |db.txns|);
    assert es == [es[0]];
    SumAppend(db.entries, es, a);
    Sum1(es[0], a);
  }

  lemma CreditEnters(db: Db, r: Request)
    requires r.Credit? && r.amount > 0 && !KeyUsed(db, r.key)
    ensures StepOf(db, r, Begin) == (db, Entered) && StepOf(db, r, Entered) == (db, Missed)
  {
  }

  lemma CreditReads(db: Db, r: Request)
    requires r.Credit? && PlanOf(db, r).Planned?
    ensures var p := PlanOf(db, r).posting; StepOf(db, r, Missed) == (db, InTx(Staged(p, Writes(db, r, p))))
  {
  }

  lemma CreditLands(db: Db, r: Request, staged: Staged)
    requires r.Credit? && !KeyUsed(db, r.key)
    ensures StepOf(db, r, InTx(staged)) == (Publish(db, r, staged), Finished(Committed(staged.posting.txn)))
  {
  }
}
