/** Idempotency keys in serial runs: what a replayed request leaves, and when it can be deleted from a trace. */
module Replay {
  import opened Ledger
  import opened Conservation
  import opened Concurrency

  /** A replayed request moves no money; at most it creates accounts. */
  lemma ReplayKeepsMoney(db: Db, r: Request)
    requires KeyUsed(db, r.key)
    ensures var d := Apply(db, r).0;
            && d.txns == db.txns && d.entries == db.entries && d.balances == db.balances
            && d == if Precheck(r).None? then Prepare(db, r) else db
  {
  }

  ghost predicate SameMoney(d: Db, d': Db) {
    d.entries == d'.entries && d.balances == d'.balances && d.txns == d'.txns
  }

  /** Deleting the replay `r` here changes no entry and no balance, whatever is requested next. */
  ghost predicate Deletable(db: Db, r: Request) {
    forall rs: seq<Request> :: SameMoney(Run(Apply(db, r).0, rs), Run(db, rs))
  }

  predicate CreatesAccount(db: Db, r: Request) {
    Precheck(r).None? && Prepare(db, r).accounts != db.accounts
  }

  /** A deposit of one minor unit, which only an existing account accepts. */
  function Probe(a: Account): Request {
    Credit(a.user, a.kind, a.currency, "deposit", 1, 0, "", "")
  }

  lemma ProbeTells(db: Db, d: Db, a: Account)
    requires Valid(db) && a !in db.accounts && a in d.accounts && d.entries == db.entries
    ensures Run(db, [Probe(a)]).entries == db.entries
    ensures Run(d, [Probe(a)]).entries != db.entries
  {
    AbsentSum(db, db.entries, a);
    assert [Probe(a)][1..] == [];
    assert Run(db, [Probe(a)]) == Apply(db, Probe(a)).0;
    assert Run(d, [Probe(a)]) == Apply(d, Probe(a)).0;
    ApplyRows(d, Probe(a));
    assert PlanMove(d, Probe(a)).Planned?;
    assert |Apply(d, Probe(a)).0.entries| == |db.entries| + 1;
  }

  /**
   A replay can be deleted from every trace exactly when it creates no
   account: `Convert` ensures its accounts before it looks the key up, and an
   account that exists can change what a later request does.
   */
  lemma DeletableIff(db: Db, r: Request)
    requires Valid(db) && KeyUsed(db, r.key)
    ensures Deletable(db, r) <==> !CreatesAccount(db, r)
  {
    ReplayKeepsMoney(db, r);
    var d := Apply(db, r).0;
    if CreatesAccount(db, r) {
      var from := Account(r.user, AVAILABLE, r.fromCurrency);
      var to := Account(r.user, AVAILABLE, r.toCurrency);
      EnsureValid(db, from);
      EnsureValid(Ensure(db, from), to);
      var a := if from in db.accounts then to else from;
      assert a !in db.accounts && a in d.accounts;
      ProbeTells(db, d, a);
      assert !SameMoney(Run(d, [Probe(a)]), Run(db, [Probe(a)]));
    } else {
      assert d == db;
    }
  }

  /** `rs` without the requests whose key is already committed when their turn comes. */
  function Prune(db: Db, rs: seq<Request>): seq<Request>
    decreases |rs|
  {
    if rs == [] then []
    else if KeyUsed(db, rs[0].key) then Prune(db, rs[1..])
    else [rs[0]] + Prune(Apply(db, rs[0]).0, rs[1..])
  }

  /** No request whose key is committed when its turn comes creates an account. */
  predicate ReplaysCreateNothing(db: Db, rs: seq<Request>)
    decreases |rs|
  {
    rs == [] ||
    ((KeyUsed(db, rs[0].key) ==> !CreatesAccount(db, rs[0])) && ReplaysCreateNothing(Apply(db, rs[0]).0, rs[1..]))
  }

  /**
   Requests that arrive after their key was committed can all be deleted from
   a run of any length without changing the final tables.
   */
  lemma {:induction false} PruneKeepsRun(db: Db, rs: seq<Request>)
    requires ReplaysCreateNothing(db, rs)
    ensures Run(db, Prune(db, rs)) == Run(db, rs)
    decreases |rs|
  {
    if rs != [] {
      var r, rest := rs[0], rs[1..];
      var d := Apply(db, r).0;
      if KeyUsed(db, r.key) {
        ReplayKeepsMoney(db, r);
        assert d == db;
        PruneKeepsRun(db, rest);
      } else {
        PruneKeepsRun(d, rest);
        var kept := Prune(d, rest);
        assert ([r] + kept)[0] == r && ([r] + kept)[1..] == kept;
      }
    }
  }

  // ---- Replays in interleaved runs ----

  /** The schedule without the steps of the requests in `js`. */
  function Without(schedule: seq<nat>, js: set<nat>): seq<nat> {
    if schedule == [] then []
    else if schedule[0] in js then Without(schedule[1..], js)
    else [schedule[0]] + Without(schedule[1..], js)
  }

  /** The request has not looked its key up yet. */
  predicate Ahead(pc: Pc) {
    pc.Begin? || pc.Entered?
  }

  /** The requests in `js` come too late: their key is committed, and on their way they create no account. */
  ghost predicate Late(rs: seq<Request>, s: State, js: set<nat>) {
    && |s.pcs| == |rs|
    && forall j <- js :: j < |rs| && KeyUsed(s.db, rs[j].key) && (Ahead(s.pcs[j]) ==> !CreatesAccount(s.db, rs[j]))
  }

  /** The same tables, and the same progress of everyone outside `js`. */
  ghost predicate SameOthers(s: State, t: State, js: set<nat>) {
    s.db == t.db && |s.pcs| == |t.pcs| && forall i :: 0 <= i < |s.pcs| && i !in js ==> s.pcs[i] == t.pcs[i]
  }

  lemma StepGrows(db: Db, r: Request, pc: Pc, key: string)
    ensures KeyUsed(db, key) ==> KeyUsed(StepOf(db, r, pc).0, key)
    ensures forall a :: a in db.accounts ==> a in StepOf(db, r, pc).0.accounts
  {
    if pc.InTx? && !KeyUsed(db, r.key) {
      FindKeyAppend(db.txns, pc.staged.posting.txn, key);
    }
  }

  /** A conversion whose accounts exist creates none; no other request creates any. */
  lemma CreatesIff(db: Db, r: Request)
    ensures CreatesAccount(db, r) <==>
            && r.Convert? && Precheck(r).None?
            && (|| Account(r.user, AVAILABLE, r.fromCurrency) !in db.accounts
                || Account(r.user, AVAILABLE, r.toCurrency) !in db.accounts)
  {
  }

  /** Whoever steps, those that come too late still do. */
  lemma StepLate(rs: seq<Request>, s: State, i: nat, js: set<nat>)
    requires Late(rs, s, js)
    ensures Late(rs, Step(rs, s, i), js)
  {
    if i < |rs| {
      var t := Step(rs, s, i);
      forall j | j in js ensures KeyUsed(t.db, rs[j].key) && (Ahead(t.pcs[j]) ==> !CreatesAccount(t.db, rs[j])) {
        StepGrows(s.db, rs[i], s.pcs[i], rs[j].key);
        CreatesIff(s.db, rs[j]);
        CreatesIff(t.db, rs[j]);
      }
    }
  }

  /** A request that comes too late changes no table, even past its lookup. */
  lemma LateStep(rs: seq<Request>, s: State, j: nat, js: set<nat>)
    requires Late(rs, s, js) && j in js
    ensures Step(rs, s, j).db == s.db
  {
  }

  lemma {:induction false} LateSkipped(rs: seq<Request>, s: State, t: State, schedule: seq<nat>, js: set<nat>)
    requires Late(rs, s, js) && SameOthers(s, t, js)
    ensures Exec(rs, s, schedule).db == Exec(rs, t, Without(schedule, js)).db
    decreases |schedule|
  {
    if schedule != [] {
      var i, rest := schedule[0], schedule[1..];
      StepLate(rs, s, i, js);
      if i in js {
        LateStep(rs, s, i, js);
        LateSkipped(rs, Step(rs, s, i), t, rest, js);
      } else {
        var kept := Without(rest, js);
        LateSkipped(rs, Step(rs, s, i), Step(rs, t, i), rest, js);
        assert ([i] + kept)[0] == i && ([i] + kept)[1..] == kept;
      }
    }
  }

  /** Taking the requests in `js` out of any schedule leaves the tables as they are. */
  ghost predicate Skippable(rs: seq<Request>, s: State, js: set<nat>)
    requires |s.pcs| == |rs|
  {
    forall schedule :: Exec(rs, s, schedule).db == Exec(rs, s, Without(schedule, js)).db
  }

  /**
   At any point of any interleaving, the requests whose key is committed by
   then, whether they have not looked it up yet or lost the race for it, can
   be taken out of every schedule exactly when none of those still ahead of
   their lookup creates an account.
   */
  lemma SkippableIff(rs: seq<Request>, s: State, js: set<nat>)
    requires |s.pcs| == |rs| && forall j <- js :: j < |rs| && KeyUsed(s.db, rs[j].key)
    ensures Skippable(rs, s, js) <==> forall j <- js :: Ahead(s.pcs[j]) ==> !CreatesAccount(s.db, rs[j])
  {
    if forall j <- js :: Ahead(s.pcs[j]) ==> !CreatesAccount(s.db, rs[j]) {
      forall schedule ensures Exec(rs, s, schedule).db == Exec(rs, s, Without(schedule, js)).db {
        LateSkipped(rs, s, s, schedule, js);
      }
    } else {
      var j :| j in js && Ahead(s.pcs[j]) && CreatesAccount(s.db, rs[j]);
      CreatorShows(rs, s, j, js);
      var schedule := if s.pcs[j].Begin? then [j, j] else [j];
      assert Exec(rs, s, schedule).db != Exec(rs, s, Without(schedule, js)).db;
    }
  }

  lemma LookUpCreates(db: Db, r: Request)
    requires CreatesAccount(db, r)
    ensures StepOf(db, r, Entered).0 != db
  {
  }

  lemma {:induction false} WithoutAll(schedule: seq<nat>, js: set<nat>)
    requires forall i <- schedule :: i in js
    ensures Without(schedule, js) == []
  {
    if schedule != [] {
      WithoutAll(schedule[1..], js);
    }
  }

  /** A request that creates an account shows in the tables once it has looked its key up. */
  lemma CreatorShows(rs: seq<Request>, s: State, j: nat, js: set<nat>)
    requires |s.pcs| == |rs| && j in js && j < |rs| && Ahead(s.pcs[j]) && CreatesAccount(s.db, rs[j])
    ensures var schedule := if s.pcs[j].Begin? then [j, j] else [j];
            Exec(rs, s, schedule).db != s.db && Without(schedule, js) == []
  {
    if s.pcs[j].Begin? {
      BeginShows(rs, s, j);
      WithoutAll([j, j], js);
    } else {
      EnteredShows(rs, s, j);
      WithoutAll([j], js);
    }
  }

  lemma BeginShows(rs: seq<Request>, s: State, j: nat)
    requires |s.pcs| == |rs| && j < |rs| && s.pcs[j].Begin? && CreatesAccount(s.db, rs[j])
    ensures Exec(rs, s, [j, j]).db != s.db
  {
    var t := State(s.db, s.pcs[j := Entered]);
    BeginEnters(rs, s, j, t);
    EnteredShows(rs, t, j);
    assert [j, j][1..] == [j];
  }

  lemma BeginEnters(rs: seq<Request>, s: State, j: nat, t: State)
    requires |s.pcs| == |rs| && j < |rs| && s.pcs[j].Begin? && t == State(s.db, s.pcs[j := Entered])
    ensures Step(rs, s, j) == t
  {
  }

  lemma EnteredShows(rs: seq<Request>, s: State, j: nat)
    requires |s.pcs| == |rs| && j < |rs| && s.pcs[j].Entered? && CreatesAccount(s.db, rs[j])
    ensures Exec(rs, s, [j]).db != s.db
  {
    LookUpCreates(s.db, rs[j]);
    ExecOne(rs, s, j);
  }

  lemma ExecOne(rs: seq<Request>, s: State, j: nat)
    requires |s.pcs| == |rs|
    ensures Exec(rs, s, [j]) == Step(rs, s, j)
  {
    assert [j][1..] == [];
  }
}
