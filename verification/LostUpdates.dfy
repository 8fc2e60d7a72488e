/**
 Credits without the per-user lock. Every transaction writes a balance computed
 from the sum it read, so what the last committer did not see is missing from
 the stored balance, and nothing else is.
 */
module LostUpdates {
  import opened Int64
  import opened Ledger
  import opened Concurrency

  /** The state after the first n steps. */
  function At(rs: seq<Request>, s: State, schedule: seq<nat>, n: nat): (t: State)
    requires |s.pcs| == |rs| && n <= |schedule|
    ensures |t.pcs| == |rs|
  {
    Exec(rs, s, schedule[..n])
  }

  lemma {:induction false} ExecAppend(rs: seq<Request>, s: State, xs: seq<nat>, ys: seq<nat>)
    requires |s.pcs| == |rs|
    ensures Exec(rs, s, xs + ys) == Exec(rs, Exec(rs, s, xs), ys)
    decreases |xs|
  {
    if xs == [] {
      assert xs + ys == ys;
    } else {
      assert (xs + ys)[1..] == xs[1..] + ys;
      ExecAppend(rs, Step(rs, s, xs[0]), xs[1..], ys);
    }
  }

  lemma AtNext(rs: seq<Request>, s: State, schedule: seq<nat>, n: nat)
    requires |s.pcs| == |rs| && n < |schedule|
    ensures At(rs, s, schedule, n + 1) == Step(rs, At(rs, s, schedule, n), schedule[n])
  {
    var i := schedule[n];
    assert schedule[..n + 1] == schedule[..n] + [i];
    ExecAppend(rs, s, schedule[..n], [i]);
    assert [i][1..] == [];
  }

  // ---- What is staged ----

  /** A transaction past its read holds one entry and one balance, both for its own account. */
  predicate StagedOk(r: Request, pc: Pc)
    requires r.Credit?
  {
    && (pc.Missed? || pc.InTx? ==> r.amount > 0)
    && (pc.InTx? ==>
          && |pc.staged.posting.entries| == 1
          && pc.staged.posting.entries[0].account == AccountOf(r)
          && pc.staged.posting.entries[0].Delta() == r.amount
          && pc.staged.writes.Keys == {AccountOf(r)})
  }

  predicate StagedInv(rs: seq<Request>, s: State)
    requires Credits(rs)
  {
    |s.pcs| == |rs| && forall i :: 0 <= i < |rs| ==> StagedOk(rs[i], s.pcs[i])
  }

  /** What a read stages: the sum it saw plus its own amount. */
  lemma ReadStages(db: Db, r: Request)
    requires r.Credit? && StepOf(db, r, Missed).1.InTx?
    ensures var staged := StepOf(db, r, Missed).1.staged;
            && |staged.posting.entries| == 1
            && staged.posting.entries[0].account == AccountOf(r) && staged.posting.entries[0].Delta() == r.amount
            && staged.writes == map[AccountOf(r) := Wrap(Sum(db.entries, AccountOf(r)) + r.amount)]
            && Fits(Sum(db.entries, AccountOf(r)))
  {
    CreditWrites(db, r, PlanMove(db, r).posting);
  }

  lemma StepStaged(rs: seq<Request>, s: State, i: nat)
    requires Credits(rs) && StagedInv(rs, s)
    ensures StagedInv(rs, Step(rs, s, i))
  {
    if i < |rs| {
      assert StagedOk(rs[i], s.pcs[i]);
      if s.pcs[i].Missed? && StepOf(s.db, rs[i], Missed).1.InTx? {
        ReadStages(s.db, rs[i]);
      }
    }
  }

  lemma {:induction false} AtStaged(db: Db, rs: seq<Request>, schedule: seq<nat>, n: nat)
    requires Credits(rs) && n <= |schedule|
    ensures StagedInv(rs, At(rs, Start(db, rs), schedule, n))
  {
    if n > 0 {
      AtStaged(db, rs, schedule, n - 1);
      AtNext(rs, Start(db, rs), schedule, n - 1);
      StepStaged(rs, At(rs, Start(db, rs), schedule, n - 1), schedule[n - 1]);
    }
  }

  // ---- Steps that commit ----

  /** Scheduling request i in s commits a credit of `a`. */
  predicate Commits(rs: seq<Request>, s: State, i: nat, a: Account)
    requires Credits(rs) && |s.pcs| == |rs|
  {
    i < |rs| && s.pcs[i].InTx? && !KeyUsed(s.db, rs[i].key) && AccountOf(rs[i]) == a
  }

  /** Any other step leaves the account's entries and stored balance alone. */
  lemma OthersLeaveAlone(rs: seq<Request>, s: State, i: nat, a: Account)
    requires Credits(rs) && StagedInv(rs, s) && !Commits(rs, s, i, a)
    ensures var t := Step(rs, s, i); Sum(t.db.entries, a) == Sum(s.db.entries, a) && t.db.Balance(a) == s.db.Balance(a)
  {
    if i < |rs| && s.pcs[i].InTx? && !KeyUsed(s.db, rs[i].key) {
      assert StagedOk(rs[i], s.pcs[i]);
      PublishSum(s.db, rs[i], s.pcs[i].staged, a);
    }
  }

  /** A commit adds its amount and stores what it staged. */
  lemma CommitStores(rs: seq<Request>, s: State, i: nat, a: Account)
    requires Credits(rs) && StagedInv(rs, s) && Commits(rs, s, i, a)
    ensures var t := Step(rs, s, i);
            && Sum(t.db.entries, a) == Sum(s.db.entries, a) + rs[i].amount && rs[i].amount > 0
            && t.db.Balance(a) == s.pcs[i].staged.writes[a]
  {
    assert StagedOk(rs[i], s.pcs[i]);
    PublishSum(s.db, rs[i], s.pcs[i].staged, a);
  }

  /** Between two points an account's sum only grows, and it grows exactly when a credit of it commits. */
  lemma {:induction false} SumsGrow(db: Db, rs: seq<Request>, schedule: seq<nat>, j: nat, k: nat, a: Account)
    requires Credits(rs) && j <= k <= |schedule|
    ensures var s := Start(db, rs);
            && Sum(At(rs, s, schedule, j).db.entries, a) <= Sum(At(rs, s, schedule, k).db.entries, a)
            && (Sum(At(rs, s, schedule, j).db.entries, a) == Sum(At(rs, s, schedule, k).db.entries, a) <==>
                forall m :: j <= m < k ==> !Commits(rs, At(rs, s, schedule, m), schedule[m], a))
    decreases k
  {
    if j < k {
      var s, m := Start(db, rs), k - 1;
      SumsGrow(db, rs, schedule, j, m, a);
      AtNext(rs, s, schedule, m);
      AtStaged(db, rs, schedule, m);
      if Commits(rs, At(rs, s, schedule, m), schedule[m], a) {
        CommitStores(rs, At(rs, s, schedule, m), schedule[m], a);
      } else {
        OthersLeaveAlone(rs, At(rs, s, schedule, m), schedule[m], a);
      }
    }
  }

  /** With no further commit of `a` its stored balance stays. */
  lemma {:induction false} BalanceStays(db: Db, rs: seq<Request>, schedule: seq<nat>, k: nat, n: nat, a: Account)
    requires Credits(rs) && k <= n <= |schedule|
    requires forall m :: k <= m < n ==> !Commits(rs, At(rs, Start(db, rs), schedule, m), schedule[m], a)
    ensures At(rs, Start(db, rs), schedule, n).db.Balance(a) == At(rs, Start(db, rs), schedule, k).db.Balance(a)
    decreases n
  {
    if k < n {
      var s := Start(db, rs);
      BalanceStays(db, rs, schedule, k, n - 1, a);
      AtNext(rs, s, schedule, n - 1);
      AtStaged(db, rs, schedule, n - 1);
      OthersLeaveAlone(rs, At(rs, s, schedule, n - 1), schedule[n - 1], a);
    }
  }

  /** What a request staged it holds until it is scheduled again. */
  lemma {:induction false} StagedStays(db: Db, rs: seq<Request>, schedule: seq<nat>, j: nat, n: nat, i: nat)
    requires j <= n <= |schedule| && i < |rs| && At(rs, Start(db, rs), schedule, j).pcs[i].InTx?
    ensures var (early, late) := (At(rs, Start(db, rs), schedule, j).pcs[i], At(rs, Start(db, rs), schedule, n).pcs[i]);
            late == early || late.Finished?
    decreases n
  {
    if j < n {
      StagedStays(db, rs, schedule, j, n - 1, i);
      AtNext(rs, Start(db, rs), schedule, n - 1);
    }
  }

  /** Step j of the schedule is request i's read, and step k its commit, of account `a`. */
  ghost predicate ReadsAndCommits(db: Db, rs: seq<Request>, schedule: seq<nat>, i: nat, j: nat, k: nat, a: Account)
    requires Credits(rs)
  {
    && j < k < |schedule| && schedule[j] == schedule[k] == i < |rs|
    && At(rs, Start(db, rs), schedule, j).pcs[i].Missed?
    && Commits(rs, At(rs, Start(db, rs), schedule, k), i, a)
  }

  /** A read that leads to a commit staged what it saw. */
  lemma ReadStaged(db: Db, rs: seq<Request>, schedule: seq<nat>, i: nat, j: nat, k: nat, a: Account, read: State,
                   next: State)
    requires Credits(rs) && ReadsAndCommits(db, rs, schedule, i, j, k, a)
    requires read == At(rs, Start(db, rs), schedule, j) && next == At(rs, Start(db, rs), schedule, j + 1)
    ensures next.pcs[i].InTx? && next.pcs[i].staged.writes == map[a := Wrap(Sum(read.db.entries, a) + rs[i].amount)]
    ensures Fits(Sum(read.db.entries, a))
  {
    AtNext(rs, Start(db, rs), schedule, j);
    if next.pcs[i].Finished? {
      AnswerStays(db, rs, schedule, j + 1, k, i);
    } else {
      ReadStages(read.db, rs[i]);
    }
  }

  lemma CommitsWhatItRead(db: Db, rs: seq<Request>, schedule: seq<nat>, i: nat, j: nat, k: nat, a: Account,
                          read: State, before: State)
    requires Credits(rs) && ReadsAndCommits(db, rs, schedule, i, j, k, a)
    requires read == At(rs, Start(db, rs), schedule, j) && before == At(rs, Start(db, rs), schedule, k)
    ensures before.pcs[i].staged.writes == map[a := Wrap(Sum(read.db.entries, a) + rs[i].amount)]
  {
    ReadStaged(db, rs, schedule, i, j, k, a, read, At(rs, Start(db, rs), schedule, j + 1));
    StagedStays(db, rs, schedule, j + 1, k, i);
  }

  lemma {:induction false} AnswerStays(db: Db, rs: seq<Request>, schedule: seq<nat>, j: nat, n: nat, i: nat)
    requires j <= n <= |schedule| && i < |rs| && At(rs, Start(db, rs), schedule, j).pcs[i].Finished?
    ensures At(rs, Start(db, rs), schedule, n).pcs[i].Finished?
    decreases n
  {
    if j < n {
      AnswerStays(db, rs, schedule, j, n - 1, i);
      AtNext(rs, Start(db, rs), schedule, n - 1);
    }
  }

  lemma CommitLeaves(db: Db, rs: seq<Request>, schedule: seq<nat>, i: nat, j: nat, k: nat, a: Account,
                     read: State, before: State)
    requires Credits(rs) && ReadsAndCommits(db, rs, schedule, i, j, k, a)
    requires read == At(rs, Start(db, rs), schedule, j) && before == At(rs, Start(db, rs), schedule, k)
    ensures var after := At(rs, Start(db, rs), schedule, k + 1).db;
            && after.Balance(a) == Wrap(Sum(read.db.entries, a) + rs[i].amount)
            && Sum(after.entries, a) == Sum(before.db.entries, a) + rs[i].amount
  {
    CommitsWhatItRead(db, rs, schedule, i, j, k, a, read, before);
    AtStaged(db, rs, schedule, k);
    CommitStores(rs, before, i, a);
    AtNext(rs, Start(db, rs), schedule, k);
  }

  /**
   After any interleaving of credits the stored balance of an account is its
   sum without what was committed on it between the last committer's read and
   its commit.
   */
  lemma StoredBalanceIs(db: Db, rs: seq<Request>, schedule: seq<nat>, i: nat, j: nat, k: nat, a: Account)
    requires Credits(rs) && ReadsAndCommits(db, rs, schedule, i, j, k, a)
    requires forall m :: k < m < |schedule| ==> !Commits(rs, At(rs, Start(db, rs), schedule, m), schedule[m], a)
    ensures var s := Start(db, rs);
            var end := At(rs, s, schedule, |schedule|).db;
            var unseen := Sum(At(rs, s, schedule, k).db.entries, a) - Sum(At(rs, s, schedule, j).db.entries, a);
            unseen >= 0 && end.Balance(a) == Wrap(Sum(end.entries, a) - unseen)
  {
    CommitLeaves(db, rs, schedule, i, j, k, a, At(rs, Start(db, rs), schedule, j), At(rs, Start(db, rs), schedule, k));
    SumsGrow(db, rs, schedule, j, k, a);
    SumsGrow(db, rs, schedule, k + 1, |schedule|, a);
    BalanceStays(db, rs, schedule, k + 1, |schedule|, a);
  }

  /** So it is right exactly when no credit of the account committed in between. */
  lemma StoredBalanceRightIff(db: Db, rs: seq<Request>, schedule: seq<nat>, i: nat, j: nat, k: nat, a: Account)
    requires Credits(rs) && ReadsAndCommits(db, rs, schedule, i, j, k, a)
    requires forall m :: k < m < |schedule| ==> !Commits(rs, At(rs, Start(db, rs), schedule, m), schedule[m], a)
    requires Sum(At(rs, Start(db, rs), schedule, k).db.entries, a) <= MAX
    ensures var s := Start(db, rs);
            var end := At(rs, s, schedule, |schedule|).db;
            end.Balance(a) == Wrap(Sum(end.entries, a)) <==>
            forall m :: j <= m < k ==> !Commits(rs, At(rs, s, schedule, m), schedule[m], a)
  {
    var s := Start(db, rs);
    var end := At(rs, s, schedule, |schedule|).db;
    var unseen := Sum(At(rs, s, schedule, k).db.entries, a) - Sum(At(rs, s, schedule, j).db.entries, a);
    StoredBalanceIs(db, rs, schedule, i, j, k, a);
    ReadStaged(db, rs, schedule, i, j, k, a, At(rs, s, schedule, j), At(rs, s, schedule, j + 1));
    SumsGrow(db, rs, schedule, j, k, a);
    if unseen > 0 {
      WrapDistinct(Sum(end.entries, a), unseen);
    }
  }

  // ---- A schedule that loses an update ----

  /** The tables two credits leave when both read `db` before either commits. */
  function BothStale(db: Db, r: Request, r': Request): Db
    requires r.Credit? && r'.Credit? && PlanOf(db, r).Planned? && PlanOf(db, r').Planned?
  {
    var p, p' := PlanOf(db, r).posting, PlanOf(db, r').posting;
    Publish(Publish(db, r, Staged(p, Writes(db, r, p))), r', Staged(p', Writes(db, r', p')))
  }

  /** Without the lock, two credits of one account that interleave their transactions end in `BothStale`. */
  lemma StaleSchedule(db: Db, r: Request, r': Request)
    requires r.Credit? && r'.Credit? && r.amount > 0 && r'.amount > 0
    requires PlanOf(db, r).Planned? && PlanOf(db, r').Planned?
    requires !KeyUsed(db, r.key) && !KeyUsed(db, r'.key) && r.key != r'.key
    ensures Exec([r, r'], Start(db, [r, r']), [0, 1, 0, 1, 0, 1, 0, 1]).db == BothStale(db, r, r')
  {
    var rs := [r, r'];
    var p, p' := PlanOf(db, r).posting, PlanOf(db, r').posting;
    var t, t' := Staged(p, Writes(db, r, p)), Staged(p', Writes(db, r', p'));
    CreditEnters(db, r);
    CreditEnters(db, r');
    Round(rs, Start(db, rs), db, Entered, db, Entered, [0, 1, 0, 1, 0, 1]);
    Round(rs, State(db, [Entered, Entered]), db, Missed, db, Missed, [0, 1, 0, 1]);
    CreditReads(db, r);
    CreditReads(db, r');
    Round(rs, State(db, [Missed, Missed]), db, InTx(t), db, InTx(t'), [0, 1]);
    StaleEnd(db, r, r', t, t');
  }

  lemma StaleEnd(db: Db, r: Request, r': Request, t: Staged, t': Staged)
    requires r.Credit? && r'.Credit? && t.posting.txn.key == r.key
    requires !KeyUsed(db, r.key) && !KeyUsed(db, r'.key) && r.key != r'.key
    ensures Exec([r, r'], State(db, [InTx(t), InTx(t')]), [0, 1]).db == Publish(Publish(db, r, t), r', t')
  {
    var d := Publish(db, r, t);
    FindKeyAppend(db.txns, t.posting.txn, r'.key);
    CreditLands(db, r, t);
    CreditLands(d, r', t');
    Round([r, r'], State(db, [InTx(t), InTx(t')]), d, Finished(Committed(t.posting.txn)),
          Publish(d, r', t'), Finished(Committed(t'.posting.txn)), []);
  }

  /** One round of both requests, then the rest of the schedule. */
  lemma Round(rs: seq<Request>, s: State, db: Db, pc: Pc, db': Db, pc': Pc, rest: seq<nat>)
    requires |s.pcs| == |rs| == 2
    requires StepOf(s.db, rs[0], s.pcs[0]) == (db, pc) && StepOf(db, rs[1], s.pcs[1]) == (db', pc')
    ensures Exec(rs, s, [0, 1] + rest) == Exec(rs, State(db', [pc, pc']), rest)
  {
    var schedule: seq<nat> := [0, 1] + rest;
    assert schedule[1..][1..] == rest;
    assert Step(rs, s, 0) == State(db, [pc, s.pcs[1]]);
    assert Step(rs, Step(rs, s, 0), 1) == State(db', [pc, pc']);
  }

  /** Whatever the first committer stored, the second stores the sum both of them read plus its own amount. */
  lemma StaleBalance(db: Db, r: Request, r': Request, d: Db)
    requires r.Credit? && r'.Credit? && AccountOf(r) == AccountOf(r') && PlanOf(db, r').Planned?
    requires PlanOf(db, r').posting.entries == [Entry(|db.txns|, AccountOf(r'), true, r'.amount)]
    ensures var p' := PlanOf(db, r').posting;
            var t := Publish(d, r', Staged(p', Writes(db, r', p')));
            t.Balance(AccountOf(r')) == Wrap(Sum(db.entries, AccountOf(r')) + r'.amount)
  {
    CreditWrites(db, r', PlanOf(db, r').posting);
  }

  lemma StaleSums(db: Db, r: Request, r': Request)
    requires r.Credit? && r'.Credit? && AccountOf(r) == AccountOf(r') && PlanOf(db, r).Planned?
    requires PlanOf(db, r').Planned?
    requires PlanOf(db, r).posting.entries == [Entry(|db.txns|, AccountOf(r), true, r.amount)]
    requires PlanOf(db, r').posting.entries == [Entry(|db.txns|, AccountOf(r'), true, r'.amount)]
    ensures Sum(BothStale(db, r, r').entries, AccountOf(r)) == Sum(db.entries, AccountOf(r)) + r.amount + r'.amount
  {
    var p, p' := PlanOf(db, r).posting, PlanOf(db, r').posting;
    var t, t' := Staged(p, Writes(db, r, p)), Staged(p', Writes(db, r', p'));
    PublishSum(db, r, t, AccountOf(r));
    PublishSum(Publish(db, r, t), r', t', AccountOf(r));
  }

  lemma StaleEffect(db: Db, r: Request, r': Request)
    requires r.Credit? && r'.Credit? && AccountOf(r) == AccountOf(r') && PlanOf(db, r).Planned?
    requires PlanOf(db, r').Planned?
    requires PlanOf(db, r).posting.entries == [Entry(|db.txns|, AccountOf(r), true, r.amount)]
    requires PlanOf(db, r').posting.entries == [Entry(|db.txns|, AccountOf(r'), true, r'.amount)]
    requires Fits(Sum(db.entries, AccountOf(r)) + r'.amount)
    ensures var d := BothStale(db, r, r'); d.Balance(AccountOf(r)) == Sum(d.entries, AccountOf(r)) - r.amount
  {
    var p := PlanOf(db, r).posting;
    StaleBalance(db, r, r', Publish(db, r, Staged(p, Writes(db, r, p))));
    StaleSums(db, r, r');
  }

  /** Two credits of one account that both read before either commits lose the first from the stored balance. */
  lemma UnlockedCreditsLoseAnUpdate(db: Db, r: Request, r': Request)
    requires r.Credit? && r'.Credit? && r.amount > 0 && r'.amount > 0 && AccountOf(r) == AccountOf(r')
    requires AccountOf(r) in db.accounts && !KeyUsed(db, r.key) && !KeyUsed(db, r'.key) && r.key != r'.key
    requires -1 <= Sum(db.entries, AccountOf(r)) && Sum(db.entries, AccountOf(r)) + r.amount + r'.amount <= MAX
    ensures var d := Exec([r, r'], Start(db, [r, r']), [0, 1, 0, 1, 0, 1, 0, 1]).db;
            d.Balance(AccountOf(r)) == Sum(d.entries, AccountOf(r)) - r.amount
  {
    CreditPlan(db, r);
    CreditPlan(db, r');
    StaleEffect(db, r, r');
    StaleSchedule(db, r, r');
  }
}
