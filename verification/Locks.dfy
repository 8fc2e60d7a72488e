/**
 The indexer's worker pool: credits whose transactions interleave, with one
 lock per user around each. A rescanned batch may hold credits that are already
 committed, of missing accounts or of no value; they are answered and change
 nothing, in whatever order they come.
 */
module Locks {
  import opened Int64
  import opened Ledger
  import opened Concurrency

  predicate Active(pc: Pc) {
    !pc.Begin? && !pc.Finished?
  }

  /** Another request of the same user holds the lock. */
  predicate Blocked(rs: seq<Request>, s: State, i: nat)
    requires |s.pcs| == |rs| && i < |rs|
  {
    s.pcs[i].Begin? && exists j :: 0 <= j < |rs| && j != i && Active(s.pcs[j]) && rs[j].user == rs[i].user
  }

  /** A blocked worker waits; everyone else steps as before. */
  function LockedStep(rs: seq<Request>, s: State, i: nat): State
    requires |s.pcs| == |rs|
  {
    if i < |rs| && Blocked(rs, s, i) then s else Step(rs, s, i)
  }

  function LockedExec(rs: seq<Request>, s: State, schedule: seq<nat>): (s': State)
    requires |s.pcs| == |rs|
    ensures |s'.pcs| == |rs|
    decreases |schedule|
  {
    if schedule == [] then s else LockedExec(rs, LockedStep(rs, s, schedule[0]), schedule[1..])
  }

  // ---- What a batch adds ----

  predicate DistinctKeys(rs: seq<Request>) {
    forall i, j :: 0 <= i < j < |rs| && rs[i].key != "" ==> rs[i].key != rs[j].key
  }

  /** The credit has a value, an account and a key that is not committed yet. */
  predicate Effective(db: Db, r: Request)
    requires r.Credit?
  {
    r.amount > 0 && AccountOf(r) in db.accounts && !KeyUsed(db, r.key)
  }

  /** What credit `r` adds to `a`. */
  function Share(db: Db, r: Request, a: Account): int
    requires r.Credit?
  {
    if AccountOf(r) == a && Effective(db, r) then r.amount else 0
  }

  /** What the finished credits added to `a`; `all` counts the unfinished ones too. */
  function Added(db: Db, rs: seq<Request>, pcs: seq<Pc>, a: Account, all: bool): int
    requires Credits(rs) && |pcs| == |rs|
  {
    if rs == [] then 0
    else
      var n := |rs| - 1;
      Added(db, rs[..n], pcs[..n], a, all) + if all || pcs[n].Finished? then Share(db, rs[n], a) else 0
  }

  /** What the whole batch adds to `a`. */
  function Total(db: Db, rs: seq<Request>, a: Account): int
    requires Credits(rs)
  {
    Added(db, rs, Start(db, rs).pcs, a, true)
  }

  lemma {:induction false} AddedStep(db: Db, rs: seq<Request>, pcs: seq<Pc>, a: Account, i: nat, pc: Pc)
    requires Credits(rs) && |pcs| == |rs| && i < |rs| && !pcs[i].Finished?
    ensures Added(db, rs, pcs[i := pc], a, false) ==
            Added(db, rs, pcs, a, false) + if pc.Finished? then Share(db, rs[i], a) else 0
  {
    var n := |rs| - 1;
    if i < n {
      assert pcs[i := pc][..n] == pcs[..n][i := pc];
      AddedStep(db, rs[..n], pcs[..n], a, i, pc);
    } else {
      assert pcs[i := pc][..n] == pcs[..n];
    }
  }

  lemma {:induction false} AddedBounds(db: Db, rs: seq<Request>, pcs: seq<Pc>, a: Account)
    requires Credits(rs) && |pcs| == |rs|
    ensures 0 <= Added(db, rs, pcs, a, false) <= Added(db, rs, pcs, a, true)
    ensures forall i :: 0 <= i < |rs| && !pcs[i].Finished? ==>
              Added(db, rs, pcs, a, false) + Share(db, rs[i], a) <= Added(db, rs, pcs, a, true)
    ensures (forall i :: 0 <= i < |rs| ==> pcs[i].Finished?) ==>
              Added(db, rs, pcs, a, false) == Added(db, rs, pcs, a, true)
  {
    if rs != [] {
      var n := |rs| - 1;
      AddedBounds(db, rs[..n], pcs[..n], a);
      forall i | 0 <= i < |rs| && !pcs[i].Finished?
        ensures Added(db, rs, pcs, a, false) + Share(db, rs[i], a) <= Added(db, rs, pcs, a, true)
      {
        if i < n {
          assert rs[..n][i] == rs[i] && pcs[..n][i] == pcs[i];
        }
      }
    }
  }

  /** Counting all credits, neither how far they are nor what else the ledger holds matters. */
  lemma {:induction false} AddedSame(db: Db, db': Db, rs: seq<Request>, pcs: seq<Pc>, pcs': seq<Pc>, a: Account)
    requires Credits(rs) && |pcs| == |pcs'| == |rs|
    requires forall i :: 0 <= i < |rs| ==> Effective(db, rs[i]) == Effective(db', rs[i])
    ensures Added(db, rs, pcs, a, true) == Added(db', rs, pcs', a, true)
  {
    if rs != [] {
      var n := |rs| - 1;
      assert forall i :: 0 <= i < n ==> rs[..n][i] == rs[i];
      AddedSame(db, db', rs[..n], pcs[..n], pcs'[..n], a);
    }
  }

  lemma {:induction false} AddedNone(db: Db, rs: seq<Request>, pcs: seq<Pc>, a: Account)
    requires Credits(rs) && |pcs| == |rs| && forall i :: 0 <= i < |pcs| ==> !pcs[i].Finished?
    ensures Added(db, rs, pcs, a, false) == 0
  {
    if rs != [] {
      AddedNone(db, rs[..|rs| - 1], pcs[..|rs| - 1], a);
    }
  }

  // ---- The lock discipline ----

  /** Credits under different keys, each of whose accounts can hold what the batch adds to it. */
  ghost predicate Batch(db: Db, rs: seq<Request>) {
    && Credits(rs) && DistinctKeys(rs) && Agrees(db)
    && forall i :: 0 <= i < |rs| && Effective(db, rs[i]) ==> HasRoom(db, rs, AccountOf(rs[i]))
  }

  predicate HasRoom(db: Db, rs: seq<Request>, a: Account)
    requires Credits(rs)
  {
    -1 <= Sum(db.entries, a) && Sum(db.entries, a) + Total(db, rs, a) <= MAX
  }

  /** What a staged credit holds is still what the tables say about its account. */
  ghost predicate Current(db: Db, r: Request, pc: Pc)
    requires r.Credit?
  {
    pc.InTx? ==>
      && |pc.staged.posting.entries| == 1
      && pc.staged.posting.entries[0].account == AccountOf(r)
      && pc.staged.posting.entries[0].Delta() == r.amount
      && pc.staged.posting.txn.key == r.key
      && pc.staged.writes == map[AccountOf(r) := Wrap(Sum(db.entries, AccountOf(r)) + r.amount)]
  }

  /** An effective credit keeps its key free until it commits; any other never gets to write. */
  predicate Fate(db0: Db, db: Db, r: Request, pc: Pc)
    requires r.Credit?
  {
    if Effective(db0, r) then if pc.Finished? then pc.outcome.Committed? else !KeyUsed(db, r.key)
    else !pc.InTx? && !IsCommitted(pc) && (pc.Missed? ==> AccountOf(r) !in db0.accounts)
  }

  ghost predicate LockInv(db0: Db, rs: seq<Request>, s: State)
    requires Credits(rs)
  {
    && |s.pcs| == |rs|
    && s.db.accounts == db0.accounts
    && Agrees(s.db)
    && (forall a: Account :: Sum(s.db.entries, a) == Sum(db0.entries, a) + Added(db0, rs, s.pcs, a, false))
    && (forall i, j :: 0 <= i < j < |rs| && Active(s.pcs[i]) && Active(s.pcs[j]) ==> rs[i].user != rs[j].user)
    && (forall i :: 0 <= i < |rs| ==> Current(s.db, rs[i], s.pcs[i]))
    && (forall i :: 0 <= i < |rs| ==> Fate(db0, s.db, rs[i], s.pcs[i]))
    && (forall key :: KeyUsed(db0, key) ==> KeyUsed(s.db, key))
  }

  /** A step that leaves the tables alone and keeps the lock discipline. */
  lemma QuietStep(db0: Db, rs: seq<Request>, s: State, i: nat, pc: Pc)
    requires Credits(rs) && LockInv(db0, rs, s) && i < |rs|
    requires !s.pcs[i].Finished? && Current(s.db, rs[i], pc) && Fate(db0, s.db, rs[i], pc)
    requires pc.Finished? ==> !Effective(db0, rs[i])
    requires Active(s.pcs[i]) || !Blocked(rs, s, i)
    ensures LockInv(db0, rs, State(s.db, s.pcs[i := pc]))
  {
    forall a: Account ensures Added(db0, rs, s.pcs[i := pc], a, false) == Added(db0, rs, s.pcs, a, false) {
      AddedStep(db0, rs, s.pcs, a, i, pc);
    }
  }

  lemma PublishAgrees(db: Db, r: Request, staged: Staged)
    requires r.Credit? && Agrees(db) && Current(db, r, InTx(staged))
    ensures Agrees(Publish(db, r, staged))
  {
    forall a: Account ensures Publish(db, r, staged).Balance(a) == Wrap(Sum(Publish(db, r, staged).entries, a)) {
      PublishSum(db, r, staged, a);
      assert db.Balance(a) == Wrap(Sum(db.entries, a));
    }
  }

  /** The state a committing credit leaves. */
  function Landed(rs: seq<Request>, s: State, i: nat): State
    requires |s.pcs| == |rs| && i < |rs| && s.pcs[i].InTx?
  {
    var staged := s.pcs[i].staged;
    State(Publish(s.db, rs[i], staged), s.pcs[i := Finished(Committed(staged.posting.txn))])
  }

  lemma LandedSums(db0: Db, rs: seq<Request>, s: State, i: nat, a: Account)
    requires Credits(rs) && LockInv(db0, rs, s) && i < |rs| && s.pcs[i].InTx?
    ensures Sum(Landed(rs, s, i).db.entries, a) == Sum(db0.entries, a) + Added(db0, rs, Landed(rs, s, i).pcs, a, false)
  {
    assert Current(s.db, rs[i], s.pcs[i]) && Fate(db0, s.db, rs[i], s.pcs[i]);
    PublishSum(s.db, rs[i], s.pcs[i].staged, a);
    AddedStep(db0, rs, s.pcs, a, i, Landed(rs, s, i).pcs[i]);
  }

  /** A commit uses up its own key and no other. */
  lemma LandedKeys(rs: seq<Request>, s: State, i: nat, key: string)
    requires Credits(rs) && |s.pcs| == |rs| && i < |rs| && s.pcs[i].InTx? && Current(s.db, rs[i], s.pcs[i])
    ensures KeyUsed(Landed(rs, s, i).db, key) <==> KeyUsed(s.db, key) || (key != "" && key == rs[i].key)
  {
    FindKeyAppend(s.db.txns, s.pcs[i].staged.posting.txn, key);
  }

  /** Another worker's staged credit concerns another user, so it stays current. */
  lemma LandedCurrent(db0: Db, rs: seq<Request>, s: State, i: nat, j: nat)
    requires Credits(rs) && LockInv(db0, rs, s) && i < |rs| && s.pcs[i].InTx? && j < |rs| && j != i
    ensures Current(Landed(rs, s, i).db, rs[j], s.pcs[j])
  {
    assert Current(s.db, rs[i], s.pcs[i]) && Current(s.db, rs[j], s.pcs[j]);
    if s.pcs[j].InTx? {
      assert if j < i then rs[j].user != rs[i].user else rs[i].user != rs[j].user;
      PublishSum(s.db, rs[i], s.pcs[i].staged, AccountOf(rs[j]));
    }
  }

  lemma LandedFate(db0: Db, rs: seq<Request>, s: State, i: nat, j: nat)
    requires Credits(rs) && DistinctKeys(rs) && LockInv(db0, rs, s) && i < |rs| && s.pcs[i].InTx? && j < |rs|
    ensures Fate(db0, Landed(rs, s, i).db, rs[j], Landed(rs, s, i).pcs[j])
  {
    assert Current(s.db, rs[i], s.pcs[i]) && Fate(db0, s.db, rs[i], s.pcs[i]) && Fate(db0, s.db, rs[j], s.pcs[j]);
    LandedKeys(rs, s, i, rs[j].key);
    assert j < i && rs[j].key != "" ==> rs[j].key != rs[i].key;
    assert i < j && rs[i].key != "" ==> rs[i].key != rs[j].key;
  }

  lemma CommitStep(db0: Db, rs: seq<Request>, s: State, i: nat)
    requires Credits(rs) && DistinctKeys(rs) && LockInv(db0, rs, s) && i < |rs| && s.pcs[i].InTx?
    ensures LockInv(db0, rs, Landed(rs, s, i))
  {
    var s' := Landed(rs, s, i);
    assert Current(s.db, rs[i], s.pcs[i]);
    PublishAgrees(s.db, rs[i], s.pcs[i].staged);
    forall a: Account ensures Sum(s'.db.entries, a) == Sum(db0.entries, a) + Added(db0, rs, s'.pcs, a, false) {
      LandedSums(db0, rs, s, i, a);
    }
    forall key | KeyUsed(db0, key) ensures KeyUsed(s'.db, key) {
      LandedKeys(rs, s, i, key);
    }
    forall j | 0 <= j < |rs| ensures Current(s'.db, rs[j], s'.pcs[j]) && Fate(db0, s'.db, rs[j], s'.pcs[j]) {
      LandedFate(db0, rs, s, i, j);
      if j != i {
        LandedCurrent(db0, rs, s, i, j);
      }
    }
  }

  /** An effective credit still ahead of its commit finds room in its account. */
  lemma RoomLeft(db0: Db, rs: seq<Request>, s: State, i: nat)
    requires Batch(db0, rs) && LockInv(db0, rs, s) && i < |rs| && !s.pcs[i].Finished? && Effective(db0, rs[i])
    ensures var a := AccountOf(rs[i]);
            a in s.db.accounts && -1 <= Sum(s.db.entries, a) && Sum(s.db.entries, a) + rs[i].amount <= MAX
  {
    var a := AccountOf(rs[i]);
    assert HasRoom(db0, rs, a);
    AddedBounds(db0, rs, s.pcs, a);
    AddedSame(db0, db0, rs, s.pcs, Start(db0, rs).pcs, a);
  }

  lemma ReadsCurrent(db: Db, r: Request)
    requires r.Credit? && r.amount > 0 && AccountOf(r) in db.accounts
    requires -1 <= Sum(db.entries, AccountOf(r)) && Sum(db.entries, AccountOf(r)) + r.amount <= MAX
    ensures var (d, pc) := StepOf(db, r, Missed); d == db && pc.InTx? && Current(db, r, pc)
  {
    CreditPlan(db, r);
    CreditReads(db, r);
  }

  lemma ReadStep(db0: Db, rs: seq<Request>, s: State, i: nat, pc: Pc)
    requires Batch(db0, rs) && LockInv(db0, rs, s) && i < |rs| && s.pcs[i].Missed?
    requires pc == StepOf(s.db, rs[i], Missed).1
    ensures StepOf(s.db, rs[i], Missed).0 == s.db
    ensures LockInv(db0, rs, State(s.db, s.pcs[i := pc]))
  {
    assert Fate(db0, s.db, rs[i], s.pcs[i]);
    if Effective(db0, rs[i]) {
      RoomLeft(db0, rs, s, i);
      ReadsCurrent(s.db, rs[i]);
    } else {
      CreditMissing(s.db, rs[i]);
    }
    QuietStep(db0, rs, s, i, pc);
  }

  lemma CreditMissing(db: Db, r: Request)
    requires r.Credit? && AccountOf(r) !in db.accounts
    ensures StepOf(db, r, Missed) == (db, Finished(Rejected(NotFound)))
  {
    assert PlanOf(db, r) == PlanMove(db, r);
  }

  /** Looking the key up leaves the tables alone and leads to the read or to an answer. */
  lemma CreditLooksUp(db: Db, r: Request)
    requires r.Credit?
    ensures var (d, pc) := StepOf(db, r, Entered);
            && d == db
            && (if r.amount > 0 && !KeyUsed(db, r.key) then pc == Missed else pc.Finished? && !pc.outcome.Committed?)
  {
  }

  lemma LookUpStep(db0: Db, rs: seq<Request>, s: State, i: nat)
    requires Batch(db0, rs) && LockInv(db0, rs, s) && i < |rs| && s.pcs[i].Entered?
    ensures LockInv(db0, rs, Step(rs, s, i))
  {
    CreditLooksUp(s.db, rs[i]);
    assert Fate(db0, s.db, rs[i], s.pcs[i]);
    QuietStep(db0, rs, s, i, StepOf(s.db, rs[i], Entered).1);
  }

  lemma LandStep(db0: Db, rs: seq<Request>, s: State, i: nat)
    requires Batch(db0, rs) && LockInv(db0, rs, s) && i < |rs| && s.pcs[i].InTx?
    ensures LockInv(db0, rs, Step(rs, s, i))
  {
    assert Fate(db0, s.db, rs[i], s.pcs[i]);
    CreditLands(s.db, rs[i], s.pcs[i].staged);
    CommitStep(db0, rs, s, i);
  }

  lemma LockedStepInv(db0: Db, rs: seq<Request>, s: State, i: nat)
    requires Batch(db0, rs) && LockInv(db0, rs, s)
    ensures LockInv(db0, rs, LockedStep(rs, s, i))
  {
    if i < |rs| && !Blocked(rs, s, i) {
      match s.pcs[i] {
        case Begin =>
          assert Fate(db0, s.db, rs[i], s.pcs[i]);
          QuietStep(db0, rs, s, i, Entered);
        case Entered => LookUpStep(db0, rs, s, i);
        case Missed => ReadStep(db0, rs, s, i, StepOf(s.db, rs[i], Missed).1);
        case InTx(_) => LandStep(db0, rs, s, i);
        case Finished(_) => assert s.pcs[i := s.pcs[i]] == s.pcs;
      }
    }
  }

  lemma StartLocked(db: Db, rs: seq<Request>)
    requires Batch(db, rs)
    ensures LockInv(db, rs, Start(db, rs))
  {
    forall a: Account ensures Added(db, rs, Start(db, rs).pcs, a, false) == 0 {
      AddedNone(db, rs, Start(db, rs).pcs, a);
    }
  }

  lemma {:induction false} LockedExecInv(db0: Db, rs: seq<Request>, s: State, schedule: seq<nat>)
    requires Batch(db0, rs) && LockInv(db0, rs, s)
    ensures LockInv(db0, rs, LockedExec(rs, s, schedule))
    decreases |schedule|
  {
    if schedule != [] {
      LockedStepInv(db0, rs, s, schedule[0]);
      LockedExecInv(db0, rs, LockedStep(rs, s, schedule[0]), schedule[1..]);
    }
  }

  // ---- The sequential batch ----

  /** Split a batch into its first credit and the rest. */
  lemma {:induction false} AddedHead(db: Db, rs: seq<Request>, pcs: seq<Pc>, a: Account)
    requires Credits(rs) && |pcs| == |rs| && rs != []
    ensures Added(db, rs, pcs, a, true) == Added(db, rs[1..], pcs[1..], a, true) + Share(db, rs[0], a)
  {
    var n := |rs| - 1;
    if n > 0 {
      AddedHead(db, rs[..n], pcs[..n], a);
      assert rs[..n][1..] == rs[1..][..n - 1];
      assert pcs[..n][1..] == pcs[1..][..n - 1];
    }
  }

  /** A credit run alone: its share is added, and only its own key is used up. */
  lemma CreditAlone(db: Db, r: Request)
    requires r.Credit? && Agrees(db)
    requires Effective(db, r) ==>
               -1 <= Sum(db.entries, AccountOf(r)) && Sum(db.entries, AccountOf(r)) + r.amount <= MAX
    ensures var d := Apply(db, r).0;
            && Agrees(d) && d.accounts == db.accounts
            && if Effective(db, r) then
                 && |d.txns| == |db.txns| + 1 && d.txns == db.txns + [d.txns[|db.txns|]]
                 && d.txns[|db.txns|].key == r.key
                 && d.entries == db.entries + [Entry(|db.txns|, AccountOf(r), true, r.amount)]
               else d == db
  {
    ApplyAgrees(db, r);
    if Effective(db, r) {
      CreditPlan(db, r);
    }
  }

  lemma AloneSums(db: Db, r: Request, a: Account)
    requires r.Credit? && Agrees(db)
    requires Effective(db, r) ==>
               -1 <= Sum(db.entries, AccountOf(r)) && Sum(db.entries, AccountOf(r)) + r.amount <= MAX
    ensures Sum(Apply(db, r).0.entries, a) == Sum(db.entries, a) + Share(db, r, a)
  {
    CreditAlone(db, r);
    var e := Entry(|db.txns|, AccountOf(r), true, r.amount);
    SumAppend(db.entries, [e], a);
    Sum1(e, a);
  }

  /** Whether a credit under another key is effective does not depend on this one. */
  lemma AloneEffective(db: Db, r: Request, r': Request)
    requires r.Credit? && r'.Credit? && Agrees(db) && (r.key != "" ==> r.key != r'.key)
    requires Effective(db, r) ==>
               -1 <= Sum(db.entries, AccountOf(r)) && Sum(db.entries, AccountOf(r)) + r.amount <= MAX
    ensures Effective(Apply(db, r).0, r') == Effective(db, r')
  {
    CreditAlone(db, r);
    if Effective(db, r) {
      FindKeyAppend(db.txns, Apply(db, r).0.txns[|db.txns|], r'.key);
    }
  }

  lemma FirstFits(db: Db, rs: seq<Request>)
    requires Batch(db, rs) && rs != [] && Effective(db, rs[0])
    ensures -1 <= Sum(db.entries, AccountOf(rs[0])) && Sum(db.entries, AccountOf(rs[0])) + rs[0].amount <= MAX
  {
    var a := AccountOf(rs[0]);
    assert HasRoom(db, rs, a);
    AddedHead(db, rs, Start(db, rs).pcs, a);
    AddedBounds(db, rs[1..], Start(db, rs).pcs[1..], a);
  }

  lemma RestEffective(db: Db, rs: seq<Request>)
    requires Batch(db, rs) && rs != []
    ensures forall i :: 0 <= i < |rs| - 1 ==> Effective(Apply(db, rs[0]).0, rs[1..][i]) == Effective(db, rs[1..][i])
  {
    if Effective(db, rs[0]) {
      FirstFits(db, rs);
    }
    forall i | 0 <= i < |rs| - 1 ensures Effective(Apply(db, rs[0]).0, rs[1..][i]) == Effective(db, rs[1..][i]) {
      assert rs[1..][i] == rs[i + 1];
      AloneEffective(db, rs[0], rs[1..][i]);
    }
  }

  /** Crediting the first leaves the rest to add what is missing. */
  lemma FirstTotals(db: Db, rs: seq<Request>, a: Account)
    requires Batch(db, rs) && rs != []
    ensures var d := Apply(db, rs[0]).0;
            && Sum(d.entries, a) == Sum(db.entries, a) + Share(db, rs[0], a)
            && Sum(d.entries, a) + Total(d, rs[1..], a) == Sum(db.entries, a) + Total(db, rs, a)
  {
    var r, rest, d := rs[0], rs[1..], Apply(db, rs[0]).0;
    if Effective(db, r) {
      FirstFits(db, rs);
    }
    RestEffective(db, rs);
    AloneSums(db, r, a);
    AddedHead(db, rs, Start(db, rs).pcs, a);
    AddedSame(db, d, rest, Start(db, rs).pcs[1..], Start(d, rest).pcs, a);
  }

  lemma RestFits(db: Db, rs: seq<Request>, i: nat)
    requires Batch(db, rs) && i < |rs| - 1 && Effective(Apply(db, rs[0]).0, rs[1..][i])
    ensures HasRoom(Apply(db, rs[0]).0, rs[1..], AccountOf(rs[1..][i]))
  {
    RestEffective(db, rs);
    assert rs[1..][i] == rs[i + 1];
    assert HasRoom(db, rs, AccountOf(rs[i + 1]));
    FirstTotals(db, rs, AccountOf(rs[i + 1]));
  }

  lemma FirstCredit(db: Db, rs: seq<Request>)
    requires Batch(db, rs) && rs != []
    ensures Batch(Apply(db, rs[0]).0, rs[1..])
  {
    var d, rest := Apply(db, rs[0]).0, rs[1..];
    ApplyAgrees(db, rs[0]);
    forall i | 0 <= i < |rest| && Effective(d, rest[i]) ensures HasRoom(d, rest, AccountOf(rest[i])) {
      RestFits(db, rs, i);
    }
  }

  /** Crediting a batch one by one adds each effective amount once. */
  lemma {:induction false} Sequential(db: Db, rs: seq<Request>)
    requires Batch(db, rs)
    ensures forall a: Account :: Sum(Run(db, rs).entries, a) == Sum(db.entries, a) + Total(db, rs, a)
    ensures Agrees(Run(db, rs))
    decreases |rs|
  {
    if rs != [] {
      FirstCredit(db, rs);
      Sequential(Apply(db, rs[0]).0, rs[1..]);
      forall a: Account ensures Sum(Run(db, rs).entries, a) == Sum(db.entries, a) + Total(db, rs, a) {
        FirstTotals(db, rs, a);
      }
    }
  }

  /**
   However the workers are scheduled, stepping inside each other's
   transactions, a batch of credits with distinct keys ends with the balances
   that crediting it one by one gives, and a worker commits exactly when its
   credit had a value, an account and a key that was new.
   */
  lemma LockedBatchIsSequential(db: Db, rs: seq<Request>, schedule: seq<nat>)
    requires Batch(db, rs)
    requires forall i :: 0 <= i < |rs| ==> LockedExec(rs, Start(db, rs), schedule).pcs[i].Finished?
    ensures var s := LockedExec(rs, Start(db, rs), schedule);
            && (forall a :: s.db.Balance(a) == Run(db, rs).Balance(a))
            && (forall a :: Sum(s.db.entries, a) == Sum(Run(db, rs).entries, a))
            && (forall i :: 0 <= i < |rs| ==> (s.pcs[i].outcome.Committed? <==> Effective(db, rs[i])))
  {
    var s := LockedExec(rs, Start(db, rs), schedule);
    StartLocked(db, rs);
    LockedExecInv(db, rs, Start(db, rs), schedule);
    Sequential(db, rs);
    forall a ensures s.db.Balance(a) == Run(db, rs).Balance(a) && Sum(s.db.entries, a) == Sum(Run(db, rs).entries, a) {
      AddedBounds(db, rs, s.pcs, a);
      AddedSame(db, db, rs, s.pcs, Start(db, rs).pcs, a);
    }
    forall i | 0 <= i < |rs| ensures s.pcs[i].outcome.Committed? <==> Effective(db, rs[i]) {
      assert Fate(db, s.db, rs[i], s.pcs[i]);
    }
  }

  // ---- Overdrawn accounts ----

  /** An unkeyed credit of `amount` to `a`. */
  function CreditOf(a: Account, amount: int): Request {
    Credit(a.user, a.kind, a.currency, "deposit", amount, 0, "", "")
  }

  /** The order of any two credits that fit makes no difference to `a`. */
  ghost predicate OrderFree(db: Db, a: Account) {
    forall x, y :: x > 0 && y > 0 && Sum(db.entries, a) + x + y <= MAX ==> SameEitherWay(db, a, x, y)
  }

  predicate SameEitherWay(db: Db, a: Account, x: int, y: int) {
    Sum(Run(db, [CreditOf(a, x), CreditOf(a, y)]).entries, a) ==
    Sum(Run(db, [CreditOf(a, y), CreditOf(a, x)]).entries, a)
  }

  lemma PairTotal(db: Db, a: Account, x: int, y: int)
    requires Agrees(db) && a in db.accounts && x > 0 && y > 0
    requires -1 <= Sum(db.entries, a) && Sum(db.entries, a) + x + y <= MAX
    ensures Sum(Run(db, [CreditOf(a, x), CreditOf(a, y)]).entries, a) == Sum(db.entries, a) + x + y
  {
    var rs := [CreditOf(a, x), CreditOf(a, y)];
    var pcs := Start(db, rs).pcs;
    AddedHead(db, rs, pcs, a);
    AddedHead(db, rs[1..], pcs[1..], a);
    assert rs[1..][1..] == [] && rs[1..][0] == CreditOf(a, y);
    assert Total(db, rs, a) == x + y;
    Sequential(db, rs);
  }

  /** An account further down refuses a credit that leaves it overdrawn. */
  lemma Refuses(db: Db, a: Account, x: int)
    requires a in db.accounts && x > 0 && Fits(Sum(db.entries, a)) && Sum(db.entries, a) + x < 0
    ensures Apply(db, CreditOf(a, x)).0 == db
  {
    assert PlanOf(db, CreditOf(a, x)) == PlanMove(db, CreditOf(a, x));
  }

  lemma Accepts(db: Db, a: Account, x: int)
    requires a in db.accounts && x > 0 && Fits(Sum(db.entries, a)) && 0 <= Sum(db.entries, a) + x <= MAX
    ensures var d := Apply(db, CreditOf(a, x)).0;
            d.accounts == db.accounts && Sum(d.entries, a) == Sum(db.entries, a) + x
  {
    var r := CreditOf(a, x);
    var e := Entry(|db.txns|, a, true, x);
    assert PlanOf(db, r) == PlanMove(db, r) && PlanMove(db, r).Planned?;
    assert Apply(db, r).0.entries == db.entries + [e];
    SumAppend(db.entries, [e], a);
    Sum1(e, a);
  }

  lemma RunTwo(db: Db, r: Request, r': Request)
    ensures Run(db, [r, r']) == Apply(Apply(db, r).0, r').0
  {
    assert [r, r'][1..] == [r'] && [r'][1..] == [];
    assert Run(Apply(db, r).0, [r']) == Run(Apply(Apply(db, r).0, r').0, []);
  }

  lemma KoboFirst(db: Db, a: Account, lift: int)
    requires a in db.accounts && Fits(Sum(db.entries, a)) && lift == -Sum(db.entries, a) && 2 <= lift <= MAX
    ensures Sum(Run(db, [CreditOf(a, 1), CreditOf(a, lift)]).entries, a) == 0
  {
    RunTwo(db, CreditOf(a, 1), CreditOf(a, lift));
    Refuses(db, a, 1);
    Accepts(db, a, lift);
  }

  lemma KoboLast(db: Db, a: Account, lift: int)
    requires a in db.accounts && Fits(Sum(db.entries, a)) && lift == -Sum(db.entries, a) && 2 <= lift <= MAX
    ensures Sum(Run(db, [CreditOf(a, lift), CreditOf(a, 1)]).entries, a) == 1
  {
    RunTwo(db, CreditOf(a, lift), CreditOf(a, 1));
    Accepts(db, a, lift);
    Accepts(Apply(db, CreditOf(a, lift)).0, a, 1);
  }

  /** The order of credits is free if and only if the account is at most one kobo down. */
  lemma OrderFreeIff(db: Db, a: Account)
    requires Agrees(db) && a in db.accounts && -MAX <= Sum(db.entries, a) <= MAX
    ensures OrderFree(db, a) <==> -1 <= Sum(db.entries, a)
  {
    if -1 <= Sum(db.entries, a) {
      forall x, y | x > 0 && y > 0 && Sum(db.entries, a) + x + y <= MAX ensures SameEitherWay(db, a, x, y) {
        PairTotal(db, a, x, y);
        PairTotal(db, a, y, x);
      }
    } else {
      var lift := -Sum(db.entries, a);
      KoboFirst(db, a, lift);
      KoboLast(db, a, lift);
      assert !SameEitherWay(db, a, 1, lift);
    }
  }
}
