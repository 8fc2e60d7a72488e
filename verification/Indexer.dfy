/**
 The deposit indexer as a protocol: scans broken into their database and chain
 calls, workers in any order, crashes and restarts anywhere, a chain that grows
 and reorganises above the confirmation window, operator attribution, new
 clones, moving wallet links and other ledger traffic, in every interleaving.
 A run is a sequence of actions; an action that is not enabled does nothing.
 `ok` flags stand for the database or the chain failing at that call.
 */
module Indexer {
  import opened Int64
  import opened Ledger
  import LogScan
  import Solvency

  const ZERO: string := "0x0000000000000000000000000000000000000000"

  /** A decoded Transfer log; (tx, log) identifies it. */
  datatype TokenTransfer = TokenTransfer(from: string, to: string, value: nat, tx: string, log: nat, block: nat)

  /** `vaultLogs` is the number of vault-contract deposit events in the block. */
  datatype Block = Block(transfers: seq<TokenTransfer>, vaultLogs: nat)

  type Chain = seq<Block>

  datatype Kind = Deposited | Unattributed

  /** A row of indexer_events, keyed by (tx, log). */
  datatype Event = Event(kind: Kind, from: string, to: string, base: int)

  type EventId = (string, nat)

  /** A deployed clone: its user, and the head when its row was written. */
  datatype Clone = Clone(user: string, since: nat)

  /** How far a worker is with a transfer; Logged has written the event row and goes on to credit. */
  datatype Stage = Fresh | Logged(user: string, key: string) | Done

  datatype Job = Job(transfer: TokenTransfer, stage: Stage)

  datatype Phase =
    | Waiting
    | Polled(from: nat, last: nat)
    | Routed(from: nat, last: nat)
    | Processing(from: nat, last: nat, jobs: seq<Job>, next: nat)
    | Saving(next: nat)

  /**
   What settles a transfer: the ledger and the event table. `ignored` collects
   the transfers whose handler reported an error, `lost` those whose flag for
   the operator was dropped because a "deposited" row was already there.
   */
  datatype Books = Books(db: Db, events: map<EventId, Event>, ignored: set<TokenTransfer>, lost: set<TokenTransfer>)

  /** `cursor` is lastBlock; `resumed` says whether this process could read the stored cursor. */
  datatype Process = Process(cursor: nat, resumed: bool, cloneUser: map<string, string>,
                             addressUser: map<string, string>, phase: Phase)

  /** A wallet and a user it is or was linked to. */
  type Link = (string, string)

  /** Every link there ever was and every rate that was ever in force. */
  datatype Past = Past(linked: set<Link>, rates: set<int>) {
    predicate Within(p: Past) {
      linked <= p.linked && rates <= p.rates
    }
  }

  /** `base` is the block the indexer counts from: the configured start block or the last baseline taken. */
  datatype State = State(
    chain: Chain,
    rate: int,
    clones: map<string, Clone>,
    links: map<string, string>,
    past: Past,
    books: Books,
    stored: nat,
    base: nat,
    proc: Process)

  datatype Env = Env(vault: string, fallback: string, minConf: nat, startBlock: nat)

  datatype Action =
    | Mine(chain: Chain)
    | SetRate(rate: int)
    | AddClone(address: string, user: string)
    | SetLinked(user: string, address: string)
    | Foreign(request: Request)
    | Restart(ok: bool)
    | Poll(ok: bool)
    | Refresh(ok: bool)
    | Fetch(ok: bool)
    | Work(job: nat, ok: bool, insertOk: bool)
    | Finish
    | Save(ok: bool)
    | Attribute(tx: string, log: nat, user: string, linkOk: bool, creditOk: bool, markOk: bool)

  // ---- The chain ----

  function Head(s: State): int {
    |s.chain| - 1
  }

  predicate OnChain(chain: Chain, t: TokenTransfer) {
    t.block < |chain| && t in chain[t.block].transfers
  }

  /** Logs carry their block's number, and a transaction is mined once. */
  ghost predicate WellFormed(chain: Chain) {
    && |chain| > 0
    && (forall n, t :: 0 <= n < |chain| && t in chain[n].transfers ==> t.block == n)
    && (forall t, t' :: OnChain(chain, t) && OnChain(chain, t') && t.tx == t'.tx ==>
          t.block == t'.block && (t.log == t'.log ==> t == t'))
  }

  /** Deep enough to be credited. */
  predicate Confirmed(env: Env, chain: Chain, t: TokenTransfer) {
    OnChain(chain, t) && t.block + env.minConf < |chain|
  }

  /** The chain grows, or replaces blocks inside the confirmation window. */
  ghost predicate Extends(env: Env, chain: Chain, chain': Chain) {
    && WellFormed(chain') && |chain| <= |chain'|
    && forall n :: 0 <= n && n + env.minConf < |chain| ==> chain'[n] == chain[n]
  }

  function TransfersAt(chain: Chain): nat -> seq<TokenTransfer> {
    (n: nat) => if n < |chain| then chain[n].transfers else []
  }

  function VaultLogsAt(chain: Chain): nat -> seq<nat> {
    (n: nat) => if n < |chain| then seq(chain[n].vaultLogs, _ => n) else []
  }

  // ---- The cursor ----

  /** The least cursor that is no lower than `from` and past every block that had an event. */
  function NextCursor(from: nat, blocks: seq<nat>): (c: nat)
    ensures c >= from && (forall b <- blocks :: b < c) && (c == from || c - 1 in blocks)
  {
    if blocks == [] then from
    else
      var c := NextCursor(from, blocks[..|blocks| - 1]);
      var b := blocks[|blocks| - 1];
      assert blocks == blocks[..|blocks| - 1] + [b];
      if b >= c then b + 1 else c
  }

  function BlocksOf(ts: seq<TokenTransfer>): seq<nat> {
    seq(|ts|, i requires 0 <= i < |ts| => ts[i].block)
  }

  // ---- Keys and rows ----

  function CloneKey(tx: string): string {
    "vault-" + "c" + "lone-deposit-" + tx
  }

  function VaultKey(tx: string): string {
    "vault-" + "d" + "eposit-" + tx
  }

  ghost predicate Ours(key: string) {
    exists tx: string :: key == CloneKey(tx) || key == VaultKey(tx)
  }

  lemma KeysDistinct(a: string, b: string)
    ensures CloneKey(a) != VaultKey(b)
    ensures CloneKey(a) == CloneKey(b) ==> a == b
    ensures VaultKey(a) == VaultKey(b) ==> a == b
  {
    assert CloneKey(a)[6] == 'c' && VaultKey(b)[6] == 'd';
    assert CloneKey(a)[20..] == a && CloneKey(b)[20..] == b;
    assert VaultKey(a)[14..] == a && VaultKey(b)[14..] == b;
  }

  /** INSERT ... ON CONFLICT DO NOTHING. */
  function Insert(b: Books, t: TokenTransfer, kind: Kind): Books {
    if (t.tx, t.log) in b.events then b
    else b.(events := b.events[(t.tx, t.log) := Event(kind, t.from, t.to, Wrap(t.value))])
  }

  /** recordUnattributed: the same insert, which does nothing over a row of either kind. */
  function Flag(b: Books, t: TokenTransfer): Books {
    var b' := Insert(b, t, Unattributed);
    if b'.events[(t.tx, t.log)].kind == Unattributed then b' else b'.(lost := b'.lost + {t})
  }

  /** A user has one link; setting it moves the user off the old address. */
  function SetLink(links: map<string, string>, user: string, address: string): map<string, string> {
    (map a | a in links && links[a] != user :: links[a])[address := user]
  }

  function WithLink(s: State, user: string, address: string): State {
    s.(links := SetLink(s.links, user, address), past := s.past.(linked := s.past.linked + {(address, user)}))
  }

  function WithRate(s: State, rate: int): State {
    s.(rate := rate, past := s.past.(rates := s.past.rates + {rate}))
  }

  function Ignore(b: Books, t: TokenTransfer): Books {
    b.(ignored := b.ignored + {t})
  }

  // ---- Workers ----

  /** handleDeposit up to the event row. `ok` is the sender lookup, `insertOk` the event insert. */
  function Route(env: Env, s: State, t: TokenTransfer, ok: bool, insertOk: bool): (Books, Stage) {
    var b := s.books;
    if t.value == 0 || t.from == ZERO then (b, Done)
    else if t.to in s.proc.cloneUser then
      (if insertOk then Insert(b, t, Deposited) else b, Logged(s.proc.cloneUser[t.to], CloneKey(t.tx)))
    else if t.to != env.vault then (b, Done)
    else if t.from !in s.proc.addressUser && !ok then (Ignore(b, t), Done)
    else
      var user := SenderUser(env, s, t.from);
      if user == "" then (if insertOk then Flag(b, t) else Ignore(b, t), Done)
      else (if insertOk then Insert(b, t, Deposited) else b, Logged(user, VaultKey(t.tx)))
  }

  /** The cached owner of a wallet, else its link, else the fallback account; "" is nobody. */
  function SenderUser(env: Env, s: State, from: string): string {
    if from in s.proc.addressUser then s.proc.addressUser[from]
    else if from in s.links && s.links[from] != "" then s.links[from]
    else env.fallback
  }

  /** The credit of a deposit of `base` micro-USDC, if it can be priced; true when the handler succeeds. */
  function CreditDeposit(db: Db, rate: int, user: string, base: int, key: string, ok: bool): (Db, bool) {
    if rate <= 0 || base <= 0 then (db, false)
    else
      var ngn := Solvency.DepositNgn(base, rate);
      if ngn <= 0 || !ok then (db, false)
      else
        var (d, o) := Apply(db, Solvency.DepositRequest(user, ngn, key));
        (d, !o.Rejected?)
  }

  /** creditTransfer after the event row; an error is reported and the transfer left behind. */
  function CreditBooks(b: Books, rate: int, t: TokenTransfer, user: string, key: string, ok: bool): Books {
    var (d, credited) := CreditDeposit(b.db, rate, user, t.value, key, ok);
    if credited then b.(db := d) else Ignore(b.(db := d), t)
  }

  function WorkOn(env: Env, s: State, job: Job, ok: bool, insertOk: bool): (Books, Stage) {
    match job.stage
    case Fresh => Route(env, s, job.transfer, ok, insertOk)
    case Logged(user, key) => (CreditBooks(s.books, s.rate, job.transfer, user, key, ok), Done)
    case Done => (s.books, Done)
  }

  /** Senders of shared-vault deposits stay cached once they resolve to a user. */
  function Cached(env: Env, s: State, job: Job, stage: Stage): map<string, string> {
    if job.stage.Fresh? && stage.Logged? && job.transfer.to !in s.proc.cloneUser then
      s.proc.addressUser[job.transfer.from := stage.user]
    else s.proc.addressUser
  }

  function DoWork(env: Env, s: State, i: nat, ok: bool, insertOk: bool): State
    requires s.proc.phase.Processing? && i < |s.proc.phase.jobs|
  {
    var jobs := s.proc.phase.jobs;
    var (b, stage) := WorkOn(env, s, jobs[i], ok, insertOk);
    s.(books := b, proc := s.proc.(addressUser := Cached(env, s, jobs[i], stage),
                                   phase := s.proc.phase.(jobs := jobs[i := jobs[i].(stage := stage)])))
  }

  // ---- One scan ----

  /** Only the process and its cursors moved. */
  predicate SameWorld(s: State, s': State) {
    && s'.chain == s.chain && s'.clones == s.clones && s'.books == s.books && s'.links == s.links
    && s'.past == s.past && s'.rate == s.rate
    && (s'.proc.addressUser == s.proc.addressUser || s'.proc.addressUser == map[])
  }

  function InPhase(s: State, phase: Phase): State {
    s.(proc := s.proc.(phase := phase))
  }

  function DoPoll(env: Env, s: State): (s': State)
    ensures SameWorld(s, s')
  {
    var latest := Head(s);
    if latest < 0 || (env.minConf > 0 && latest <= env.minConf) then s
    else if s.proc.cursor == 0 then
      if latest > 0 then s.(base := latest, proc := s.proc.(cursor := latest, phase := Saving(latest))) else s
    else if latest - env.minConf < s.proc.cursor then s
    else InPhase(s, Polled(s.proc.cursor, latest - env.minConf))
  }

  /** The whole window in one query; every transfer becomes a job. */
  function Fetched(chain: Chain, from: nat, last: nat): Phase {
    var ts := LogScan.Range(TransfersAt(chain), from, last);
    Processing(from, last, JobsOf(ts), NextCursor(from, BlocksOf(ts) + LogScan.Range(VaultLogsAt(chain), from, last)))
  }

  function JobsOf(ts: seq<TokenTransfer>): seq<Job> {
    seq(|ts|, i requires 0 <= i < |ts| => Job(ts[i], Fresh))
  }

  predicate AllDone(jobs: seq<Job>) {
    forall j <- jobs :: j.stage.Done?
  }

  function DoFinish(s: State): (s': State)
    requires s.proc.phase.Processing?
    ensures SameWorld(s, s')
  {
    var next := s.proc.phase.next;
    if next > s.proc.cursor then s.(proc := s.proc.(cursor := next, phase := Saving(next))) else InPhase(s, Waiting)
  }

  /** A new process: the configured start block, then resumeCursor. */
  function DoRestart(env: Env, s: State, ok: bool): (s': State)
    ensures SameWorld(s, s')
  {
    s.(proc := Process(if ok && s.stored > 0 then s.stored else env.startBlock, ok, map[], map[], Waiting))
  }

  /** AttributeDeposit on a flagged row. */
  function DoAttribute(env: Env, s: State, act: Action): State
    requires act.Attribute?
  {
    var id := (act.tx, act.log);
    if act.user == "" || id !in s.books.events then s
    else
      var e := s.books.events[id];
      var owner := if e.from in s.links then s.links[e.from] else "";
      if e.kind != Unattributed || e.base <= 0 || (owner != "" && owner != act.user) || !act.linkOk then s
      else
        var (d, credited) := CreditDeposit(s.books.db, s.rate, act.user, e.base, VaultKey(act.tx), act.creditOk);
        var marked := s.books.events[id := e.(kind := Deposited)];
        (if owner == "" then WithLink(s, act.user, e.from) else s)
        .(books := s.books.(db := d, events := if credited && act.markOk then marked else s.books.events))
  }

  ghost function Act(env: Env, s: State, act: Action): State {
    match act
    case Mine(chain) => if Extends(env, s.chain, chain) then s.(chain := chain) else s
    case SetRate(rate) => if rate > 0 then WithRate(s, rate) else s
    case AddClone(address, user) =>
      if address != "" && address != env.vault && address !in s.clones && user != "" && |s.chain| > 0 then
        WithClone(s, address, user)
      else s
    case SetLinked(user, address) => if user == "" then s else WithLink(s, user, address)
    case Foreign(request) => if Ours(request.key) then s else s.(books := s.books.(db := Apply(s.books.db, request).0))
    case Restart(ok) => DoRestart(env, s, ok)
    case Poll(ok) => if ok && s.proc.phase.Waiting? then DoPoll(env, s) else s
    case Refresh(ok) => if s.proc.phase.Polled? then DoRefresh(s, ok) else s
    case Fetch(ok) =>
      if !s.proc.phase.Routed? then s
      else InPhase(s, if ok then Fetched(s.chain, s.proc.phase.from, s.proc.phase.last) else Waiting)
    case Work(i, ok, insertOk) =>
      if s.proc.phase.Processing? && i < |s.proc.phase.jobs| then DoWork(env, s, i, ok, insertOk) else s
    case Finish => if s.proc.phase.Processing? && AllDone(s.proc.phase.jobs) then DoFinish(s) else s
    case Save(ok) => if s.proc.phase.Saving? then DoSave(s, ok) else s
    case Attribute(_, _, _, _, _, _) => DoAttribute(env, s, act)
  }

  function WithClone(s: State, address: string, user: string): State
    requires |s.chain| > 0
  {
    s.(clones := s.clones[address := Clone(user, Head(s))])
  }

  /** refreshCloneUsers: every deployed clone's address to its user. */
  function Routes(clones: map<string, Clone>): map<string, string> {
    map a | a in clones :: clones[a].user
  }

  function DoRefresh(s: State, ok: bool): (s': State)
    requires s.proc.phase.Polled?
    ensures SameWorld(s, s')
  {
    if !ok then InPhase(s, Waiting)
    else s.(proc := s.proc.(cloneUser := Routes(s.clones),
                            phase := Routed(s.proc.phase.from, s.proc.phase.last)))
  }

  function DoSave(s: State, ok: bool): (s': State)
    requires s.proc.phase.Saving?
    ensures SameWorld(s, s')
  {
    if ok then InPhase(s.(stored := s.proc.phase.next), Waiting) else InPhase(s, Waiting)
  }

  ghost function Execute(env: Env, s: State, acts: seq<Action>): State
    decreases |acts|
  {
    if acts == [] then s else Execute(env, Act(env, s, acts[0]), acts[1..])
  }
}
