/** Deposits into the shared vault whose flag for the operator is dropped, and when none ever is. */
module DroppedFlags {
  import opened Ledger
  import opened Indexer
  import opened IndexerInvariant
  import opened Scans

  predicate Linked(links: map<string, string>, address: string) {
    address in links && links[address] != ""
  }

  /** Linked wallets stay linked. */
  ghost predicate KeepsSenders(env: Env, s: State, s': State) {
    forall a :: Linked(s.links, a) ==> Linked(s'.links, a)
  }

  ghost predicate KeepsSendersRun(env: Env, s: State, acts: seq<Action>)
    decreases |acts|
  {
    acts == [] || (KeepsSenders(env, s, Act(env, s, acts[0])) && KeepsSendersRun(env, Act(env, s, acts[0]), acts[1..]))
  }

  predicate VaultDeposit(env: Env, e: Event) {
    e.kind == Deposited && e.to == env.vault
  }

  /** Whoever is on record as a depositor resolves to a user. */
  ghost predicate SendersInv(env: Env, s: State) {
    && s.books.lost == {}
    && (env.fallback == "" ==>
          && (forall id <- s.books.events :: VaultDeposit(env, s.books.events[id]) ==>
                Linked(s.links, s.books.events[id].from))
          && (forall a <- s.proc.addressUser :: Linked(s.links, a)))
    && (forall a <- s.proc.addressUser :: s.proc.addressUser[a] != "")
  }

  /** An event row already there was written for this very transfer. */
  lemma SameEvent(env: Env, s: State, t: TokenTransfer)
    requires WellFormed(s.chain) && EventsInv(env, s.chain, s.books.events) && Confirmed(env, s.chain, t)
    requires (t.tx, t.log) in s.books.events
    ensures var e := s.books.events[(t.tx, t.log)]; e.from == t.from && e.to == t.to
  {
    var id := (t.tx, t.log);
    assert Recorded(env, s.chain, id, s.books.events[id]);
  }

  lemma RouteSenders(env: Env, s: State, t: TokenTransfer, ok: bool, insertOk: bool)
    requires SendersInv(env, s) && RoutesInv(env, s.clones, s.proc)
    requires var id := (t.tx, t.log);
             id in s.books.events ==> s.books.events[id].from == t.from && s.books.events[id].to == t.to
    ensures var (b, stage) := Route(env, s, t, ok, insertOk);
            SendersInv(env, s.(books := b, proc := s.proc.(addressUser := Cached(env, s, Job(t, Fresh), stage))))
  {
  }

  lemma WorkSenders(env: Env, s: State, i: nat, ok: bool, insertOk: bool)
    requires Inv(env, s) && SendersInv(env, s) && s.proc.phase.Processing? && i < |s.proc.phase.jobs|
    ensures SendersInv(env, DoWork(env, s, i, ok, insertOk))
  {
    var j := s.proc.phase.jobs[i];
    if j.stage.Fresh? {
      assert JobInv(env, s, j);
      if (j.transfer.tx, j.transfer.log) in s.books.events {
        SameEvent(env, s, j.transfer);
      }
      RouteSenders(env, s, j.transfer, ok, insertOk);
    }
  }

  lemma AttributeSenders(env: Env, s: State, act: Action, s': State)
    requires SendersInv(env, s) && act.Attribute? && s' == DoAttribute(env, s, act)
    requires KeepsSenders(env, s, s') || env.fallback != ""
    ensures SendersInv(env, s')
  {
  }

  /** Steps that neither work on a transfer nor attribute one touch no row and cache no sender. */
  lemma OtherSteps(env: Env, s: State, act: Action)
    requires !act.Work? && !act.Attribute?
    ensures var s' := Act(env, s, act);
            && s'.books.events == s.books.events && s'.books.lost == s.books.lost
            && (s'.proc.addressUser == s.proc.addressUser || s'.proc.addressUser == map[])
  {
  }

  lemma OthersKeepSenders(env: Env, s: State, s': State)
    requires SendersInv(env, s) && (KeepsSenders(env, s, s') || env.fallback != "")
    requires s'.books.events == s.books.events && s'.books.lost == s.books.lost
    requires s'.proc.addressUser == s.proc.addressUser || s'.proc.addressUser == map[]
    ensures SendersInv(env, s')
  {
  }

  lemma StepSenders(env: Env, s: State, act: Action, s': State)
    requires Inv(env, s) && SendersInv(env, s) && s' == Act(env, s, act)
    requires KeepsSenders(env, s, s') || env.fallback != ""
    ensures SendersInv(env, s')
  {
    if act.Attribute? {
      AttributeSenders(env, s, act, s');
    } else if !act.Work? {
      OtherSteps(env, s, act);
      OthersKeepSenders(env, s, s');
    } else if s' != s {
      WorkSenders(env, s, act.job, act.ok, act.insertOk);
    }
  }

  /**
   As long as linked wallets stay linked, or a fallback account is configured,
   no flag is ever dropped: a due transfer below the cursor is credited,
   waiting for the operator, or reported.
   */
  lemma {:induction false} NothingLost(env: Env, s: State, acts: seq<Action>)
    requires Inv(env, s) && SendersInv(env, s) && (env.fallback != "" || KeepsSendersRun(env, s, acts))
    ensures Execute(env, s, acts).books.lost == {}
    decreases |acts|
  {
    if acts != [] {
      var s' := Act(env, s, acts[0]);
      assert Execute(env, s, [acts[0]]) == s' by {
        assert [acts[0]][1..] == [];
      }
      RunInv(env, s, [acts[0]]);
      StepSenders(env, s, acts[0], s');
      NothingLost(env, s', acts[1..]);
    }
  }

  // ---- A dropped flag ----

  /** The block of the deposit: the first one that an indexer started under `env` will scan. */
  function Site(env: Env): (n: nat)
    ensures n > 0
  {
    if env.startBlock > 0 then env.startBlock else env.minConf + 1
  }

  /** Wallet A sends to the vault. */
  function Sent(env: Env): TokenTransfer {
    TokenTransfer("A", env.vault, 1, "T", 0, Site(env))
  }

  /** The chain up to the deposit and `more` blocks on top. */
  function ChainTo(env: Env, more: nat): Chain {
    Empty(Site(env)) + [Block([Sent(env)], 0)] + Empty(more)
  }

  lemma ChainIs(env: Env, more: nat)
    ensures WellFormed(ChainTo(env, more)) && |ChainTo(env, more)| == Site(env) + 1 + more
    ensures ChainTo(env, more)[Site(env)] == Block([Sent(env)], 0)
    ensures forall i :: 0 <= i <= Site(env) ==> ChainTo(env, more)[i] == ChainTo(env, 0)[i]
  {
    var chain := ChainTo(env, more);
    forall t | OnChain(chain, t) ensures t == Sent(env) {
      assert t.block == Site(env);
    }
  }

  /** An empty installation in which wallet A is linked to u. */
  function Before(env: Env, db: Db): State {
    State(ChainTo(env, if env.startBlock > 0 then env.minConf else 0), 0, map[], map["A" := "u"],
          Past({("A", "u")}, {}),
          Books(db, map[], {}, {}), 0, env.startBlock, Process(env.startBlock, true, map[], map[], Waiting))
  }

  /** Without a start block the process takes its baseline first; then the deposit is confirmed. */
  function Setup(env: Env): seq<Action> {
    if env.startBlock > 0 then [] else [Poll(true), Save(true), Mine(ChainTo(env, env.minConf))]
  }

  /** Ready to scan the deposit, now and after any restart. */
  function AtDeposit(env: Env, db: Db): State {
    var n := Site(env);
    Before(env, db).(chain := ChainTo(env, env.minConf), base := n, stored := if env.startBlock > 0 then 0 else n,
                     proc := Process(n, true, map[], map[], Waiting))
  }

  lemma BaselineStep(env: Env, db: Db)
    requires env.startBlock == 0
    ensures var (s, n) := (Before(env, db), Site(env));
            Act(env, s, Poll(true)) == s.(base := n, proc := s.proc.(cursor := n, phase := Saving(n)))
  {
    ChainIs(env, 0);
  }

  lemma SetupReached(env: Env, db: Db, rest: seq<Action>)
    ensures Execute(env, Before(env, db), Setup(env) + rest) == Execute(env, AtDeposit(env, db), rest)
  {
    var s, n := Before(env, db), Site(env);
    if env.startBlock > 0 {
      assert [] + rest == rest;
    } else {
      var s1 := s.(base := n, proc := s.proc.(cursor := n, phase := Saving(n)));
      var s2 := DoSave(s1, true);
      var chain := ChainTo(env, env.minConf);
      BaselineStep(env, db);
      ChainIs(env, 0);
      ChainIs(env, env.minConf);
      assert Extends(env, s2.chain, chain);
      assert Setup(env) + rest == [Poll(true)] + ([Save(true)] + ([Mine(chain)] + rest));
      Unroll(env, s, Poll(true), [Save(true)] + ([Mine(chain)] + rest), s1);
      Unroll(env, s1, Save(true), [Mine(chain)] + rest, s2);
      Unroll(env, s2, Mine(chain), rest, AtDeposit(env, db));
    }
  }

  /** The deposit's event row, as a credit writes it. */
  function RowOf(env: Env): map<EventId, Event> {
    map[("T", 0) := Event(Deposited, "A", env.vault, 1)]
  }

  /** The process with the deposit as its only job. */
  function AtWork(env: Env): Process {
    var n := Site(env);
    Process(n, true, map[], map[], Processing(n, n, [Job(Sent(env), Fresh)], n + 1))
  }

  const RELINK: seq<Action> := [Work(0, true, true), Restart(true), SetLinked("u", "B")]

  /** The event row is there, nobody was credited, and the sender's link is gone. */
  function Relinked(env: Env, db: Db): State {
    WithLink(AtDeposit(env, db).(books := Books(db, RowOf(env), {}, {})), "u", "B")
  }

  lemma RecordStep(env: Env, s: State)
    requires s.links == map["A" := "u"] && s.clones == map[] && s.books.events == map[]
    requires s.proc == AtWork(env)
    ensures var t := Act(env, s, Work(0, true, true));
            t == s.(books := s.books.(events := RowOf(env)), proc := t.proc)
  {
    assert s.books.events[("T", 0) := Event(Deposited, "A", env.vault, 1)] == RowOf(env);
  }

  /** The first process writes the event row and dies; then the user links another wallet. */
  lemma RowWithoutCredit(env: Env, db: Db, rest: seq<Action>)
    ensures Execute(env, InBatch(AtDeposit(env, db), Site(env), JobsOf([Sent(env)])), RELINK + rest) ==
            Execute(env, Relinked(env, db), rest)
  {
    var s1 := InBatch(AtDeposit(env, db), Site(env), JobsOf([Sent(env)]));
    assert JobsOf([Sent(env)]) == [Job(Sent(env), Fresh)] && Routes(map[]) == map[];
    RecordStep(env, s1);
    var s2 := Act(env, s1, Work(0, true, true));
    var s3 := DoRestart(env, s2, true);
    assert RELINK + rest == [Work(0, true, true)] + ([Restart(true)] + ([SetLinked("u", "B")] + rest));
    Unroll(env, s1, Work(0, true, true), [Restart(true)] + ([SetLinked("u", "B")] + rest), s2);
    Unroll(env, s2, Restart(true), [SetLinked("u", "B")] + rest, s3);
    Unroll(env, s3, SetLinked("u", "B"), rest, Relinked(env, db));
  }

  const LAST: seq<Action> := [Work(0, true, true), Finish]

  lemma DropStep(env: Env, s: State)
    requires env.fallback == "" && "A" !in s.links && s.clones == map[] && s.books.events == RowOf(env)
    requires s.proc == AtWork(env)
    ensures Act(env, s, Work(0, true, true)) ==
            s.(books := s.books.(lost := s.books.lost + {Sent(env)}),
               proc := s.proc.(phase := s.proc.phase.(jobs := [Job(Sent(env), Done)])))
  {
    assert [Job(Sent(env), Fresh)][0 := Job(Sent(env), Done)] == [Job(Sent(env), Done)];
  }

  lemma FlagDropped(env: Env, s: State)
    requires env.fallback == "" && "A" !in s.links && s.clones == map[] && s.books.events == RowOf(env)
    requires s.proc == AtWork(env)
    ensures var t := Execute(env, s, LAST);
            && t.books == s.books.(lost := s.books.lost + {Sent(env)}) && t.proc.cursor == Site(env) + 1
            && t.base == s.base && t.clones == s.clones && t.chain == s.chain
  {
    DropStep(env, s);
    var s1 := Act(env, s, Work(0, true, true));
    assert LAST == [Work(0, true, true)] + ([Finish] + []);
    Unroll(env, s, Work(0, true, true), [Finish] + [], s1);
    Unroll(env, s1, Finish, [], DoFinish(s1));
  }

  function DropActs(env: Env): seq<Action> {
    Setup(env) + (SCAN + (RELINK + (SCAN + LAST)))
  }

  /**
   Under every configuration without a fallback account: the sender's event
   row is written, the process dies before the credit, the user links another
   wallet, and the next process finds nobody to credit. Its flag is refused by
   the row already there, the cursor moves on, and the deposit is neither
   credited, flagged nor reported.
   */
  lemma RelinkingDropsAFlag(env: Env, db: Db)
    requires env.fallback == "" && Valid(db) && forall i :: 0 <= i < |db.txns| ==> !Ours(db.txns[i].key)
    ensures Init(env, Before(env, db))
    ensures var (s, t) := (Execute(env, Before(env, db), DropActs(env)), Sent(env));
            && OnChain(s.chain, t) && Due(env, s.clones, t) && s.base <= t.block < s.proc.cursor && t in s.books.lost
            && s.books.db == db && s.books.ignored == {} && !Flagged(s.books, (t.tx, t.log))
  {
    var n, ts := Site(env), [Sent(env)];
    ChainIs(env, 0);
    ChainIs(env, env.minConf);
    SetupReached(env, db, SCAN + (RELINK + (SCAN + LAST)));
    ScanOpens(env, AtDeposit(env, db), n, ts, RELINK + (SCAN + LAST));
    RowWithoutCredit(env, db, SCAN + LAST);
    ScanOpens(env, Relinked(env, db), n, ts, LAST);
    assert JobsOf(ts) == [Job(Sent(env), Fresh)] && Routes(map[]) == map[];
    FlagDropped(env, InBatch(Relinked(env, db), n, JobsOf(ts)));
  }

  /** No flag is dropped in any run from any empty installation. */
  ghost predicate NeverDrops(env: Env) {
    forall s, acts :: Init(env, s) ==> Execute(env, s, acts).books.lost == {}
  }

  /** Exactly a configured fallback account keeps every flag in every run. */
  lemma NothingLostIff(env: Env)
    ensures NeverDrops(env) <==> env.fallback != ""
  {
    if env.fallback != "" {
      forall s, acts | Init(env, s) ensures Execute(env, s, acts).books.lost == {} {
        InitInv(env, s);
        NothingLost(env, s, acts);
      }
    } else {
      var db := Db([], [], [], map[]);
      RelinkingDropsAFlag(env, db);
      assert Execute(env, Before(env, db), DropActs(env)).books.lost != {};
    }
  }
}
