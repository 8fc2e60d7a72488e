/**
 The indexer as the service runs it: one object, its fields updated in place
 call by call. Every method is proved to be a piece of a run of the protocol,
 so what holds over every run holds of the service.
 */
module VaultIndexer {
  import opened Int64
  import opened Ledger
  import opened Indexer
  import LogScan
  import Solvency

  /** Which calls of one scan succeed; `work` says it of the n-th step of the worker pool. */
  datatype Faults = Faults(latest: bool, routes: bool, logs: bool, save: bool, work: nat -> (bool, bool))

  // ---- Runs in pieces ----

  lemma {:induction false} ExecuteAppend(env: Env, s: State, xs: seq<Action>, ys: seq<Action>)
    ensures Execute(env, s, xs + ys) == Execute(env, Execute(env, s, xs), ys)
    decreases |xs|
  {
    if xs == [] {
      assert xs + ys == ys;
    } else {
      assert (xs + ys)[1..] == xs[1..] + ys;
      ExecuteAppend(env, Act(env, s, xs[0]), xs[1..], ys);
    }
  }

  lemma ExecuteMore(env: Env, s: State, xs: seq<Action>, y: Action)
    ensures Execute(env, s, xs + [y]) == Act(env, Execute(env, s, xs), y)
  {
    ExecuteAppend(env, s, xs, [y]);
    assert [y][1..] == [];
  }

  // ---- Worker steps ----

  /** What one step of a worker does to everything but its batch. */
  function Moved(env: Env, s: State, job: Job, ok: bool, insertOk: bool): State {
    var (b, stage) := WorkOn(env, s, job, ok, insertOk);
    s.(books := b, proc := s.proc.(addressUser := Cached(env, s, job, stage)))
  }

  /** Every step takes a job further: at most two to its end. */
  lemma WorkAdvances(env: Env, s: State, job: Job, ok: bool, insertOk: bool)
    requires !job.stage.Done?
    ensures StepsLeft(WorkOn(env, s, job, ok, insertOk).1) < StepsLeft(job.stage)
  {
  }

  function StepsLeft(stage: Stage): nat {
    match stage
    case Fresh => 2
    case Logged(_, _) => 1
    case Done => 0
  }

  function WorkLeft(jobs: seq<Job>): nat {
    if jobs == [] then 0 else StepsLeft(jobs[0].stage) + WorkLeft(jobs[1..])
  }

  lemma {:induction false} WorkLeftStep(jobs: seq<Job>, k: nat, job: Job)
    requires k < |jobs| && StepsLeft(job.stage) < StepsLeft(jobs[k].stage)
    ensures WorkLeft(jobs[k := job]) < WorkLeft(jobs)
  {
    if k == 0 {
      assert jobs[k := job][1..] == jobs[1..];
    } else {
      assert jobs[k := job][1..] == jobs[1..][k - 1 := job];
      WorkLeftStep(jobs[1..], k - 1, job);
    }
  }

  /** One step of a worker, seen from outside the batch. */
  lemma OneStep(env: Env, s: State, p: Phase, k: nat, ok: bool, insertOk: bool)
    requires p.Processing? && k < |p.jobs|
    ensures Act(env, InPhase(s, p), Work(k, ok, insertOk)) ==
            InPhase(Moved(env, s, p.jobs[k], ok, insertOk),
                    p.(jobs := p.jobs[k := p.jobs[k].(stage := WorkOn(env, s, p.jobs[k], ok, insertOk).1)]))
  {
    assert WorkOn(env, InPhase(s, p), p.jobs[k], ok, insertOk) == WorkOn(env, s, p.jobs[k], ok, insertOk);
  }

  /** What handling one transfer from start to end does to everything but its batch. */
  function Handled(env: Env, s: State, t: TokenTransfer, f: (bool, bool, bool)): State {
    var stage := Route(env, s, t, f.0, f.1).1;
    var s1 := Moved(env, s, Job(t, Fresh), f.0, f.1);
    if stage.Logged? then Moved(env, s1, Job(t, stage), f.2, true) else s1
  }

  // ---- The cursor ----

  lemma {:induction false} NextCursorTwice(from: nat, xs: seq<nat>, ys: seq<nat>)
    ensures NextCursor(NextCursor(from, xs), ys) == NextCursor(from, xs + ys)
  {
    if ys == [] {
      assert xs + ys == xs;
    } else {
      var n := |ys| - 1;
      assert (xs + ys)[..|xs| + n] == xs + ys[..n];
      NextCursorTwice(from, xs, ys[..n]);
    }
  }

  /** One of scan's loops over what the window held. */
  method AdvancePast(from: nat, blocks: seq<nat>) returns (cursor: nat)
    ensures cursor == NextCursor(from, blocks)
  {
    cursor := from;
    for i := 0 to |blocks|
      invariant cursor == NextCursor(from, blocks[..i])
    {
      assert blocks[..i + 1][..i] == blocks[..i];
      if blocks[i] >= cursor {
        cursor := blocks[i] + 1;
      }
    }
    assert blocks[..|blocks|] == blocks;
  }

  // ---- The service ----

  class VaultService {
    const env: Env

    // The chain and the database, as this process sees them during a call.
    var chain: Chain
    var rate: int
    var clones: map<string, Clone>
    var links: map<string, string>
    var db: Db
    var events: map<EventId, Event>
    var stored: nat

    // The process.
    var lastBlock: nat
    var cloneUser: map<string, string>
    var addressUser: map<string, string>

    // What is only logged or never written down.
    ghost var ignored: set<TokenTransfer>
    ghost var lost: set<TokenTransfer>
    ghost var past: Past
    ghost var resumed: bool
    ghost var base: nat

    constructor (env: Env)
      ensures this.env == env
    {
      this.env := env;
      chain := [];
      rate := 0;
      clones := map[];
      links := map[];
      db := Db([], [], [], map[]);
      events := map[];
      stored := 0;
      lastBlock := env.startBlock;
      cloneUser := map[];
      addressUser := map[];
      ignored := {};
      lost := {};
      past := Past({}, {});
      resumed := true;
      base := env.startBlock;
    }

    /** The protocol state between two calls. */
    ghost function World(): State
      reads this
    {
      State(chain, rate, clones, links, past, Books(db, events, ignored, lost), stored, base,
            Process(lastBlock, resumed, cloneUser, addressUser, Waiting))
    }

    /** A new process over the same database: the start block, then resumeCursor. */
    method Start(readOk: bool)
      modifies this
      ensures World() == DoRestart(env, old(World()), readOk)
    {
      lastBlock := env.startBlock;
      cloneUser := map[];
      addressUser := map[];
      resumed := readOk;
      if readOk {
        if stored > 0 {
          lastBlock := stored;
        }
      }
    }

    method InsertEvent(t: TokenTransfer, kind: Kind)
      modifies this`events
      ensures World().books == Insert(old(World().books), t, kind)
    {
      if (t.tx, t.log) !in events {
        events := events[(t.tx, t.log) := Event(kind, t.from, t.to, Wrap(t.value))];
      }
    }

    /** The ledger credit under the user's lock; false when the handler must report an error. */
    method Credit(user: string, base: int, key: string, ok: bool) returns (credited: bool)
      modifies this`db
      ensures (db, credited) == CreditDeposit(old(db), rate, user, base, key, ok)
      ensures World() == old(World()).(books := old(World()).books.(db := db))
    {
      if rate <= 0 || base <= 0 {
        return false;
      }
      var ngn := Solvency.DepositNgn(base, rate);
      if ngn <= 0 || !ok {
        return false;
      }
      var (d, o) := Apply(db, Solvency.DepositRequest(user, ngn, key));
      db := d;
      return !o.Rejected?;
    }

    /** The first half of creditTransfer: the durable event row, on the way to the credit. */
    method LogDeposit(user: string, t: TokenTransfer, key: string, insertOk: bool) returns (stage: Stage)
      modifies this`events
      ensures stage == Logged(user, key)
      ensures var b := old(World().books);
              World() == old(World()).(books := if insertOk then Insert(b, t, Deposited) else b)
    {
      if insertOk {
        InsertEvent(t, Deposited);
      }
      return Logged(user, key);
    }

    /** The second half: the credit; an error is reported and the transfer left behind. */
    method PayDeposit(t: TokenTransfer, user: string, key: string, ok: bool)
      modifies this`db, this`ignored
      ensures World() == old(World()).(books := CreditBooks(old(World().books), rate, t, user, key, ok))
    {
      var credited := Credit(user, t.value, key, ok);
      if !credited {
        ignored := ignored + {t};
      }
    }

    /** The user behind a wallet: cached, linked, or the fallback; found is false when the lookup failed. */
    method SenderUserId(from: string, ok: bool) returns (found: bool, user: string)
      modifies this`addressUser
      ensures found == (from in old(addressUser) || ok)
      ensures found ==> user == SenderUser(env, old(World()), from)
      ensures World() ==
              if found && user != "" then
                old(World()).(proc := old(World().proc).(addressUser := old(addressUser)[from := user]))
              else old(World())
    {
      if from in addressUser {
        return true, addressUser[from];
      }
      if !ok {
        return false, "";
      }
      user := if from in links then links[from] else "";
      if user == "" {
        user := env.fallback;
      }
      if user != "" {
        addressUser := addressUser[from := user];
      }
      return true, user;
    }

    /** Flag the transfer for an operator. */
    method RecordUnattributed(t: TokenTransfer, insertOk: bool)
      modifies this`events, this`ignored, this`lost
      ensures var b := old(World().books);
              World() == old(World()).(books := if insertOk then Flag(b, t) else Ignore(b, t))
    {
      if !insertOk {
        ignored := ignored + {t};
        return;
      }
      InsertEvent(t, Unattributed);
      if events[(t.tx, t.log)].kind != Unattributed {
        lost := lost + {t};
      }
    }

    /** A transfer into the shared vault, routed by its sender. */
    method RouteShared(t: TokenTransfer, ok: bool, insertOk: bool) returns (stage: Stage)
      requires t.value > 0 && t.from != ZERO && t.to !in cloneUser && t.to == env.vault
      modifies this`events, this`ignored, this`lost, this`addressUser
      ensures stage == Route(env, old(World()), t, ok, insertOk).1
      ensures World() == Moved(env, old(World()), Job(t, Fresh), ok, insertOk)
    {
      var found, user := SenderUserId(t.from, ok);
      if !found {
        ignored := ignored + {t};
        return Done;
      }
      if user == "" {
        RecordUnattributed(t, insertOk);
        return Done;
      }
      stage := LogDeposit(user, t, VaultKey(t.tx), insertOk);
    }

    /** handleDeposit up to the event row: by recipient, clones first. */
    method RouteDeposit(t: TokenTransfer, ok: bool, insertOk: bool) returns (stage: Stage)
      modifies this`events, this`ignored, this`lost, this`addressUser
      ensures stage == Route(env, old(World()), t, ok, insertOk).1
      ensures World() == Moved(env, old(World()), Job(t, Fresh), ok, insertOk)
    {
      if t.value == 0 || t.from == ZERO {
        return Done;
      }
      if t.to in cloneUser {
        stage := LogDeposit(cloneUser[t.to], t, CloneKey(t.tx), insertOk);
      } else if t.to == env.vault {
        stage := RouteShared(t, ok, insertOk);
      } else {
        return Done;
      }
    }

    method HandleDeposit(t: TokenTransfer, f: (bool, bool, bool))
      modifies this`events, this`db, this`ignored, this`lost, this`addressUser
      ensures World() == Handled(env, old(World()), t, f)
    {
      var stage := RouteDeposit(t, f.0, f.1);
      if stage.Logged? {
        PayDeposit(t, stage.user, stage.key, f.2);
      }
    }

    /** The next step of whichever worker has `job`. */
    method WorkOnce(job: Job, ok: bool, insertOk: bool) returns (stage: Stage)
      modifies this`events, this`db, this`ignored, this`lost, this`addressUser
      ensures stage == WorkOn(env, old(World()), job, ok, insertOk).1
      ensures World() == Moved(env, old(World()), job, ok, insertOk)
    {
      match job.stage
      case Fresh => stage := RouteDeposit(job.transfer, ok, insertOk);
      case Logged(user, key) =>
        PayDeposit(job.transfer, user, key, ok);
        stage := Done;
      case Done => stage := Done;
    }

    method SetLastBlock(block: nat)
      modifies this`stored
      ensures stored == block
    {
      stored := block;
    }

    method RefreshCloneUsers()
      modifies this`cloneUser
      ensures cloneUser == Routes(clones)
    {
      var m: map<string, string> := map[];
      var rest := clones.Keys;
      while rest != {}
        invariant rest <= clones.Keys
        invariant m.Keys == clones.Keys - rest && forall a <- m :: m[a] == clones[a].user
        decreases rest
      {
        var a :| a in rest;
        m := m[a := clones[a].user];
        rest := rest - {a};
      }
      cloneUser := m;
    }

    method MarkAttributed(id: EventId)
      modifies this`events
      ensures events ==
              if id in old(events) && old(events)[id].kind == Unattributed then
                old(events)[id := old(events)[id].(kind := Deposited)]
              else old(events)
    {
      if id in events && events[id].kind == Unattributed {
        events := events[id := events[id].(kind := Deposited)];
      }
    }

    method LinkSender(user: string, address: string)
      modifies this`links, this`past
      ensures World() == WithLink(old(World()), user, address)
    {
      links := SetLink(links, user, address);
      past := past.(linked := past.linked + {(address, user)});
    }

    /** An operator credits a flagged transfer to a user. */
    method AttributeDeposit(tx: string, log: nat, user: string, linkOk: bool, creditOk: bool, markOk: bool)
      modifies this`links, this`past, this`db, this`events
      ensures World() == DoAttribute(env, old(World()), Attribute(tx, log, user, linkOk, creditOk, markOk))
    {
      var id := (tx, log);
      if user == "" || id !in events || events[id].kind != Unattributed || events[id].base <= 0 {
        return;
      }
      var e := events[id];
      var owner := if e.from in links then links[e.from] else "";
      if (owner != "" && owner != user) || !linkOk {
        return;
      }
      if owner == "" {
        LinkSender(user, e.from);
      }
      var credited := Credit(user, e.base, VaultKey(tx), creditOk);
      if credited && markOk {
        MarkAttributed(id);
      }
    }

    /** The worker pool: in every round any one worker takes its next step, until every transfer is handled. */
    method ProcessTransfers(ts: seq<TokenTransfer>, from: nat, last: nat, next: nat, faults: nat -> (bool, bool))
      returns (jobs: seq<Job>, ghost acts: seq<Action>)
      modifies this`events, this`db, this`ignored, this`lost, this`addressUser
      ensures AllDone(jobs)
      ensures InPhase(World(), Processing(from, last, jobs, next)) ==
              Execute(env, InPhase(old(World()), Processing(from, last, JobsOf(ts), next)), acts)
    {
      jobs, acts := JobsOf(ts), [];
      var round := 0;
      ghost var s0 := InPhase(World(), Processing(from, last, jobs, next));
      while !AllDone(jobs)
        invariant InPhase(World(), Processing(from, last, jobs, next)) == Execute(env, s0, acts)
        decreases WorkLeft(jobs)
      {
        var k :| 0 <= k < |jobs| && !jobs[k].stage.Done?;
        var job, f := jobs[k], faults(round);
        OneStep(env, World(), Processing(from, last, jobs, next), k, f.0, f.1);
        ExecuteMore(env, s0, acts, Work(k, f.0, f.1));
        WorkAdvances(env, World(), job, f.0, f.1);
        var stage := WorkOnce(job, f.0, f.1);
        WorkLeftStep(jobs, k, job.(stage := stage));
        jobs, acts, round := jobs[k := job.(stage := stage)], acts + [Work(k, f.0, f.1)], round + 1;
      }
    }

    /** One poll of the indexer is a run of the protocol. */
    method Scan(f: Faults) returns (ghost acts: seq<Action>)
      modifies this
      ensures World() == Execute(env, old(World()), acts)
    {
      ghost var s0 := World();
      acts := [];
      var latest := |chain| - 1;
      if !f.latest || latest < 0 || (env.minConf > 0 && latest <= env.minConf) {
        return;
      }
      var confirmedHead := latest - env.minConf;
      var scanFrom := lastBlock;
      if scanFrom == 0 {
        if latest > 0 {
          lastBlock := latest;
          base := latest;
          if f.save {
            SetLastBlock(latest);
          }
          acts := [Poll(true), Save(f.save)];
          Baseline(env, s0, f.save);
        }
        return;
      }
      if confirmedHead < scanFrom {
        return;
      }
      acts := ScanRange(scanFrom, confirmedHead, f);
    }

    /** A scan once it has its block range. */
    method ScanRange(scanFrom: nat, toBlock: nat, f: Faults) returns (ghost acts: seq<Action>)
      requires Ready(env, World()) && 0 < scanFrom == lastBlock <= toBlock == |chain| - 1 - env.minConf
      modifies this
      ensures World() == Execute(env, old(World()), acts)
    {
      ghost var s0 := World();
      if !f.routes {
        acts := [Poll(true), Refresh(false)];
        NoRoutes(env, s0);
        return;
      }
      RefreshCloneUsers();
      ghost var p := if f.logs then Fetched(chain, scanFrom, toBlock) else Waiting;
      Window(env, s0, scanFrom, toBlock, f.logs, p);
      acts := [Poll(true), Refresh(true), Fetch(f.logs)];
      if !f.logs {
        return;
      }
      ghost var more := ScanWindow(scanFrom, toBlock, f, p);
      ExecuteAppend(env, s0, acts, more);
      acts := acts + more;
    }

    /** The window's logs, the batch, and the cursor after it. */
    method ScanWindow(scanFrom: nat, confirmedHead: nat, f: Faults, ghost p: Phase) returns (ghost acts: seq<Action>)
      requires scanFrom == lastBlock && p == Fetched(chain, scanFrom, confirmedHead)
      modifies this
      ensures World() == Execute(env, InPhase(old(World()), p), acts)
    {
      var ts := LogScan.Range(TransfersAt(chain), scanFrom, confirmedHead);
      var deposits := LogScan.Range(VaultLogsAt(chain), scanFrom, confirmedHead);
      var newCursor := AdvancePast(scanFrom, BlocksOf(ts));
      newCursor := AdvancePast(newCursor, deposits);
      FetchedIs(chain, scanFrom, confirmedHead, ts, deposits);
      acts := ScanBatch(ts, scanFrom, confirmedHead, newCursor, f);
    }

    method ScanBatch(ts: seq<TokenTransfer>, scanFrom: nat, confirmedHead: nat, newCursor: nat,
                     f: Faults) returns (ghost acts: seq<Action>)
      requires scanFrom == lastBlock
      modifies this
      ensures var p := Processing(scanFrom, confirmedHead, JobsOf(ts), newCursor);
              World() == Execute(env, InPhase(old(World()), p), acts)
    {
      ghost var s0 := InPhase(World(), Processing(scanFrom, confirmedHead, JobsOf(ts), newCursor));
      var jobs;
      jobs, acts := ProcessTransfers(ts, scanFrom, confirmedHead, newCursor, f.work);
      Close(env, Execute(env, s0, acts), f.save);
      ExecuteAppend(env, s0, acts, [Finish, Save(f.save)]);
      acts := acts + [Finish, Save(f.save)];
      if newCursor > lastBlock {
        lastBlock := newCursor;
        if f.save {
          SetLastBlock(newCursor);
        }
      }
    }
  }

  lemma Two(env: Env, s: State, a: Action, b: Action)
    ensures Execute(env, s, [a, b]) == Act(env, Act(env, s, a), b)
  {
    ExecuteMore(env, s, [], a);
    assert [] + [a] == [a] && [a] + [b] == [a, b];
    ExecuteMore(env, s, [a], b);
  }

  predicate Ready(env: Env, s: State) {
    s.proc.phase.Waiting? && |s.chain| > 0 && !(env.minConf > 0 && Head(s) <= env.minConf)
  }

  lemma Baseline(env: Env, s: State, save: bool)
    requires Ready(env, s) && s.proc.cursor == 0 && Head(s) > 0
    ensures Execute(env, s, [Poll(true), Save(save)]) ==
            s.(base := Head(s), proc := s.proc.(cursor := Head(s)), stored := if save then Head(s) else s.stored)
  {
    Two(env, s, Poll(true), Save(save));
  }

  lemma NoRoutes(env: Env, s: State)
    requires Ready(env, s) && 0 < s.proc.cursor <= Head(s) - env.minConf
    ensures Execute(env, s, [Poll(true), Refresh(false)]) == s
  {
    Two(env, s, Poll(true), Refresh(false));
  }

  /** The window that a poll opens. */
  lemma PollOpens(env: Env, s: State)
    requires Ready(env, s) && 0 < s.proc.cursor <= Head(s) - env.minConf
    ensures Act(env, s, Poll(true)) == InPhase(s, Polled(s.proc.cursor, Head(s) - env.minConf))
  {
  }

  function WithRoutes(s: State, phase: Phase): State {
    s.(proc := s.proc.(cloneUser := Routes(s.clones), phase := phase))
  }

  lemma RefreshRoutes(env: Env, s: State, from: nat, last: nat)
    ensures Act(env, InPhase(s, Polled(from, last)), Refresh(true)) == WithRoutes(s, Routed(from, last))
  {
  }

  lemma RoutesStay(s: State, p: Phase, p': Phase)
    ensures InPhase(WithRoutes(s, p), p') == WithRoutes(s, p')
  {
  }

  lemma FetchFills(env: Env, s: State, from: nat, last: nat, logs: bool, p: Phase)
    requires p == if logs then Fetched(s.chain, from, last) else Waiting
    ensures Act(env, WithRoutes(s, Routed(from, last)), Fetch(logs)) == WithRoutes(s, p)
  {
    RoutesStay(s, Routed(from, last), p);
  }

  lemma WindowOpens(env: Env, s: State, from: nat, last: nat)
    requires Ready(env, s) && 0 < s.proc.cursor == from <= last == Head(s) - env.minConf
    ensures Execute(env, s, [Poll(true), Refresh(true)]) == WithRoutes(s, Routed(from, last))
  {
    Two(env, s, Poll(true), Refresh(true));
    PollOpens(env, s);
    RefreshRoutes(env, s, from, last);
  }

  /** The first three calls of a scan. */
  lemma Window(env: Env, s: State, from: nat, last: nat, logs: bool, p: Phase)
    requires Ready(env, s) && 0 < s.proc.cursor == from <= last == Head(s) - env.minConf
    requires p == if logs then Fetched(s.chain, from, last) else Waiting
    ensures Execute(env, s, [Poll(true), Refresh(true), Fetch(logs)]) == WithRoutes(s, p)
  {
    WindowOpens(env, s, from, last);
    FetchFills(env, s, from, last, logs, p);
    assert [Poll(true), Refresh(true)] + [Fetch(logs)] == [Poll(true), Refresh(true), Fetch(logs)];
    ExecuteMore(env, s, [Poll(true), Refresh(true)], Fetch(logs));
  }

  lemma FetchedIs(chain: Chain, from: nat, last: nat, ts: seq<TokenTransfer>, deposits: seq<nat>)
    requires ts == LogScan.Range(TransfersAt(chain), from, last)
    requires deposits == LogScan.Range(VaultLogsAt(chain), from, last)
    ensures Fetched(chain, from, last) ==
            Processing(from, last, JobsOf(ts), NextCursor(NextCursor(from, BlocksOf(ts)), deposits))
  {
    NextCursorTwice(from, BlocksOf(ts), deposits);
  }

  lemma Close(env: Env, s: State, save: bool)
    requires s.proc.phase.Processing? && AllDone(s.proc.phase.jobs)
    ensures var next := s.proc.phase.next;
            Execute(env, s, [Finish, Save(save)]) ==
            if next > s.proc.cursor then
              s.(proc := s.proc.(cursor := next, phase := Waiting), stored := if save then next else s.stored)
            else InPhase(s, Waiting)
  {
    Two(env, s, Finish, Save(save));
  }
}
