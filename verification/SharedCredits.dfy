/** Two deposits of one transaction into one clone: both are settled, one is credited. */
module SharedCredits {
  import opened Ledger
  import opened Indexer
  import opened IndexerInvariant
  import opened ExactlyOnce
  import opened Scans
  import Conservation
  import Solvency

  const ENV: Env := Env("V", "", 0, 1)

  /** At this rate one micro-USDC is one kobo. */
  const RATE: int := 1_000_000

  /** The k-th transfer of transaction T in block 1, into clone X. */
  function Into(k: nat): TokenTransfer {
    TokenTransfer("A", "X", 1, "T", k, 1)
  }

  const MINED: Chain := [Block([], 0), Block([Into(0), Into(1)], 0)]

  const ACCOUNT: Account := Account("u", AVAILABLE, "NGN")

  /** User u has an account; nothing was mined but block 0. */
  const FRESH: State :=
    State([Block([], 0)], 0, map[], map[], Past({}, {}), Books(Db([ACCOUNT], [], [], map[]), map[], {}, {}), 0, 1,
          Process(1, true, map[], map[], Waiting))

  const PREPARE: seq<Action> := [AddClone("X", "u"), SetRate(RATE), Mine(MINED)]

  /** The clone exists and the transaction is mined. */
  const READY: State :=
    FRESH.(clones := map["X" := Clone("u", 0)], rate := RATE, past := Past({}, {RATE}), chain := MINED)

  lemma FreshIsInit()
    ensures Init(ENV, FRESH)
  {
  }

  lemma MinedExtends()
    ensures Extends(ENV, FRESH.chain, MINED)
  {
    forall t | OnChain(MINED, t) ensures t == Into(0) || t == Into(1) {
    }
  }

  lemma Prepared(rest: seq<Action>)
    ensures Execute(ENV, FRESH, PREPARE + rest) == Execute(ENV, READY, rest)
  {
    MinedExtends();
    var s1 := FRESH.(clones := map["X" := Clone("u", 0)]);
    var s2 := WithRate(s1, RATE);
    assert FRESH.clones["X" := Clone("u", 0)] == map["X" := Clone("u", 0)];
    assert PREPARE + rest == [AddClone("X", "u")] + ([SetRate(RATE)] + ([Mine(MINED)] + rest));
    Unroll(ENV, FRESH, AddClone("X", "u"), [SetRate(RATE)] + ([Mine(MINED)] + rest), s1);
    Unroll(ENV, s1, SetRate(RATE), [Mine(MINED)] + rest, s2);
    Unroll(ENV, s2, Mine(MINED), rest, READY);
  }

  /** A ledger that holds the one credit of transaction T. */
  ghost predicate CreditedOnce(db: Db) {
    |db.txns| == 1 && db.txns[0].key == CloneKey("T")
  }

  function Deposit(): Request {
    Solvency.DepositRequest("u", 1, CloneKey("T"))
  }

  lemma FirstCredits(db: Db)
    requires db == Db([ACCOUNT], [], [], map[])
    ensures CreditDeposit(db, RATE, "u", 1, CloneKey("T"), true).1
    ensures CreditedOnce(CreditDeposit(db, RATE, "u", 1, CloneKey("T"), true).0)
  {
    assert Solvency.DepositNgn(1, RATE) == 1;
    KeysDistinct("T", "T");
    assert PlanOf(db, Deposit()) == PlanMove(db, Deposit());
    assert PlanMove(db, Deposit()).Planned?;
    Conservation.ApplyTxns(db, Deposit());
  }

  lemma SecondReplays(db: Db)
    requires CreditedOnce(db)
    ensures CreditDeposit(db, RATE, "u", 1, CloneKey("T"), true) == (db, true)
  {
    assert Solvency.DepositNgn(1, RATE) == 1;
    KeysDistinct("T", "T");
    FindKeyIff(db.txns, CloneKey("T"));
  }

  // ---- The batch ----

  const LOGGED: Stage := Logged("u", CloneKey("T"))

  function Jobs(stages: seq<Stage>): seq<Job>
    requires |stages| == 2
  {
    [Job(Into(0), stages[0]), Job(Into(1), stages[1])]
  }

  /** In the middle of the batch, nothing ignored or lost so far. */
  ghost predicate Working(s: State, db: Db, stages: seq<Stage>) {
    && |stages| == 2 && s.chain == MINED && s.clones == READY.clones && s.rate == RATE && s.base == 1
    && s.books.db == db && s.books.ignored == {} && s.books.lost == {}
    && s.proc.cursor == 1 && s.proc.cloneUser == map["X" := "u"] && s.proc.phase == Processing(1, 1, Jobs(stages), 2)
  }

  lemma RouteJob(s: State, db: Db, stages: seq<Stage>, k: nat)
    requires Working(s, db, stages) && k < 2 && stages[k] == Fresh
    ensures Working(Act(ENV, s, Work(k, true, true)), db, stages[k := LOGGED])
  {
    assert Jobs(stages)[k := Job(Into(k), LOGGED)] == Jobs(stages[k := LOGGED]);
  }

  lemma CreditJob(s: State, db: Db, stages: seq<Stage>, k: nat)
    requires Working(s, db, stages) && k < 2 && stages[k] == LOGGED
    requires CreditDeposit(db, RATE, "u", 1, CloneKey("T"), true).1
    ensures Working(Act(ENV, s, Work(k, true, true)), CreditDeposit(db, RATE, "u", 1, CloneKey("T"), true).0,
            stages[k := Done])
  {
    assert Jobs(stages)[k := Job(Into(k), Done)] == Jobs(stages[k := Done]);
  }

  function Twice(k: nat): seq<Action> {
    [Work(k, true, true), Work(k, true, true)]
  }

  /** A worker takes a transfer from its event row to its credit. */
  lemma WorkJob(s: State, db: Db, stages: seq<Stage>, k: nat, rest: seq<Action>) returns (t: State)
    requires Working(s, db, stages) && k < 2 && stages[k] == Fresh
    requires CreditDeposit(db, RATE, "u", 1, CloneKey("T"), true).1
    ensures Working(t, CreditDeposit(db, RATE, "u", 1, CloneKey("T"), true).0, stages[k := Done])
    ensures Execute(ENV, s, Twice(k) + rest) == Execute(ENV, t, rest)
  {
    var act := Work(k, true, true);
    var s1 := Act(ENV, s, act);
    t := Act(ENV, s1, act);
    RouteJob(s, db, stages, k);
    CreditJob(s1, db, stages[k := LOGGED], k);
    assert stages[k := LOGGED][k := Done] == stages[k := Done];
    assert Twice(k) + rest == [act] + ([act] + rest);
    Unroll(ENV, s, act, [act] + rest, s1);
    Unroll(ENV, s1, act, rest, t);
  }

  /** The batch is over, nothing was ignored or lost, and the ledger is `db`. */
  ghost predicate Over(s: State, db: Db) {
    && s.proc.cursor == 2 && s.base == 1 && s.chain == MINED && s.clones == READY.clones
    && s.books.db == db && s.books.ignored == {} && s.books.lost == {}
  }

  lemma LastStep(s: State, db: Db)
    requires Working(s, db, [Done, Done])
    ensures Over(Execute(ENV, s, [Finish]), db)
  {
    Unroll(ENV, s, Finish, [], DoFinish(s));
    assert [Finish] + [] == [Finish];
  }

  const WORK: seq<Action> := Twice(0) + (Twice(1) + [Finish])

  lemma BatchCreditsOne(s: State) returns (db: Db)
    requires Working(s, READY.books.db, [Fresh, Fresh])
    ensures CreditedOnce(db) && Over(Execute(ENV, s, WORK), db)
  {
    FirstCredits(READY.books.db);
    db := CreditDeposit(READY.books.db, RATE, "u", 1, CloneKey("T"), true).0;
    var s1 := WorkJob(s, READY.books.db, [Fresh, Fresh], 0, Twice(1) + [Finish]);
    assert [Fresh, Fresh][0 := Done] == [Done, Fresh] && [Done, Fresh][1 := Done] == [Done, Done];
    SecondReplays(db);
    var s2 := WorkJob(s1, db, [Done, Fresh], 1, [Finish]);
    LastStep(s2, db);
  }

  lemma BatchOpens() returns (s: State)
    ensures Working(s, READY.books.db, [Fresh, Fresh])
    ensures Execute(ENV, FRESH, PREPARE + (SCAN + WORK)) == Execute(ENV, s, WORK)
  {
    var ts := [Into(0), Into(1)];
    s := InBatch(READY, 1, JobsOf(ts));
    Prepared(SCAN + WORK);
    ScanOpens(ENV, READY, 1, ts, WORK);
    assert JobsOf(ts) == Jobs([Fresh, Fresh]) && Routes(READY.clones) == map["X" := "u"];
  }

  lemma BothPayable(s: State, db: Db, k: nat)
    requires Over(s, db) && k < 2
    ensures Payable(ENV, s, Into(k))
  {
    assert MINED[1].transfers == [Into(0), Into(1)];
  }

  /**
   Two due deposits of one transaction, neither ignored nor lost, below the
   cursor, and a ledger with a single transaction: one of them was never
   credited.
   */
  lemma OneOfTwoCredited()
    ensures Init(ENV, FRESH)
    ensures var s := Execute(ENV, FRESH, PREPARE + (SCAN + WORK));
            Into(0) != Into(1) && Payable(ENV, s, Into(0)) && Payable(ENV, s, Into(1)) && |s.books.db.txns| == 1
  {
    FreshIsInit();
    var s0 := BatchOpens();
    var db := BatchCreditsOne(s0);
    BothPayable(Execute(ENV, s0, WORK), db, 0);
    BothPayable(Execute(ENV, s0, WORK), db, 1);
  }
}
