/**
 Withdrawals as a protocol: time-locked rows claimed by any number of sweepers,
 immediate requests, cancels, crashes, a changing chain and other ledger
 traffic, in every interleaving. A run is a sequence of actions; an action
 that is not enabled does nothing. `ok` flags on actions stand for the
 database, the chain or a lookup failing at that point.
 */
module Withdrawals {
  import opened Int64
  import opened Ledger
  import opened Eip712
  import Conservation
  import Solvency

  datatype Status = Pending | Broadcasting | Broadcast | Cancelled | Expired

  /** A user's pre-signed intent; no signature is the empty byte string. */
  datatype Sig = Sig(raw: seq<byte>, deadline: int, nonce: nat, amountBase: int)

  datatype Row = Row(user: string, dest: Address, amount: int, fee: int, releaseAfter: int,
                     key: string, sig: Sig, status: Status) {
    predicate SameContent(r: Row) {
      user == r.user && dest == r.dest && amount == r.amount
    }
  }

  /** The arguments of executeWithdrawal; `row` is the claimed elevation, if any. */
  datatype Job = Job(user: string, dest: Address, amount: int, fee: int, sig: Sig, key: string, row: Option<nat>)

  /** A withdrawWithSig call. */
  datatype Relay = Relay(clone: Address, to: Address, amount: int, nonce: nat, deadline: int, raw: seq<byte>)

  /** How far an agent is with its job. */
  datatype Stage =
    | Claimed
    | Executing
    | Prechecked(usdc: int)
    | OwnerRead(usdc: int, clone: Address, owner: Address, at: int)
    | Built(relay: Relay, owner: Address, at: int)
    | Sent
    | Done
    | Failed

  /** `due` is what is left of the sweep's list of due rows. */
  datatype Pc = Idle | Sweeping(due: seq<nat>) | Busy(stage: Stage, job: Job, due: seq<nat>)

  /** What reached the chain, with the owner and the time the signature was checked against. */
  datatype Event =
    | UserRelay(user: string, relay: Relay, owner: Address, at: int)
    | PlatformRelay(user: string, clone: Address, to: Address, amount: int)
    | SharedTransfer(user: string, to: Address, amount: int)

  datatype DebitRecord = DebitRecord(id: nat, txn: Txn)

  datatype State = State(
    now: int,
    rows: map<nat, Row>,
    db: Db,
    clones: map<string, Address>,
    owners: map<Address, Address>,
    nonces: map<Address, nat>,
    pcs: seq<Pc>,
    log: seq<Event>,
    debits: seq<DebitRecord>)

  datatype Env = Env(hash: Hash, recover: (seq<byte>, seq<byte>) -> Option<Address>,
                     strict: bool, chainId: int, vault: Address, threshold: int, delay: nat)

  /** What the caller hears of a debit: its outcome, an error before anything was committed, or nothing. */
  datatype Reply = Answered | NotDone | Unheard

  datatype Action =
    | Tick(dt: nat)
    | Foreign(request: Request)
    | AddClone(user: string, clone: Address)
    | SetOwner(clone: Address, owner: Address)
    | SetNonce(clone: Address, nonce: nat)
    | RequestElevation(id: nat, user: string, dest: Address, amount: int, fee: int, sig: Sig, key: string)
    | Cancel(user: string, id: nat)
    | Immediate(a: nat, user: string, dest: Address, amount: int, fee: int, sig: Sig, key: string)
    | Sweep(a: nat, due: seq<nat>)
    | Claim(a: nat, ok: bool)
    | Liveness(a: nat, cloneOk: bool, nonceOk: bool, markOk: bool)
    | Precheck(a: nat, rate: int, lookupOk: bool, ok: bool)
    | Route(a: nat, ok: bool)
    | Verify(a: nat, ok: bool)
    | Send(a: nat, ok: bool)
    | Debit(a: nat, txHash: string, reply: Reply)
    | Finish(a: nat, ok: bool)
    | Crash(a: nat)

  // ---- Row updates, each with the guard its SQL has ----

  function SetStatus(s: State, id: nat, status: Status): State
    requires id in s.rows
  {
    s.(rows := s.rows[id := s.rows[id].(status := status)])
  }

  predicate PendingTwin(s: State, row: Row, id: nat) {
    exists other <- s.rows :: other != id && s.rows[other].status == Pending && s.rows[other].SameContent(row)
  }

  /** The unique index on pending rows refuses a second one with the same content. */
  function ReleaseClaim(s: State, id: nat): State {
    if id in s.rows && s.rows[id].status == Broadcasting && !PendingTwin(s, s.rows[id], id) then
      SetStatus(s, id, Pending)
    else s
  }

  function MarkExpired(s: State, id: nat): State {
    if id in s.rows && (s.rows[id].status == Pending || s.rows[id].status == Broadcasting) then
      SetStatus(s, id, Expired)
    else s
  }

  /** No guard: whatever the row's status is, it becomes `Broadcast`. */
  function MarkBroadcast(s: State, id: nat): State {
    if id in s.rows then SetStatus(s, id, Broadcast) else s
  }

  // ---- Agents ----

  function SetPc(s: State, a: nat, pc: Pc): State
    requires a < |s.pcs|
  {
    s.(pcs := s.pcs[a := pc])
  }

  predicate IsBusy(s: State, a: nat) {
    a < |s.pcs| && s.pcs[a].Busy?
  }

  /** The agent is not between a signature check and its relay. */
  predicate Unchecked(pc: Pc) {
    pc.Busy? ==> !pc.stage.OwnerRead? && !pc.stage.Built?
  }

  /** Only agent a moved, no signature is in hand, and nothing was sent or changed on chain. */
  predicate OnlyAgent(s: State, a: nat, t: State) {
    && a < |s.pcs| == |t.pcs| && t.pcs == s.pcs[a := t.pcs[a]] && Unchecked(t.pcs[a])
    && t.log == s.log && t.clones == s.clones && t.owners == s.owners
  }

  /** Between s and t only agent a's stage moved, besides the ledger, the nonces and what was sent. */
  predicate OnlyStage(s: State, a: nat, t: State) {
    && t.rows == s.rows && t.now == s.now && t.clones == s.clones && t.owners == s.owners
    && a < |s.pcs| == |t.pcs| && s.pcs[a].Busy? && t.pcs[a].Busy? && t.pcs == s.pcs[a := t.pcs[a]]
    && t.pcs[a].job == s.pcs[a].job && t.pcs[a].due == s.pcs[a].due
  }

  /** ... and the ledger was not touched; a job that got done had its key replayed. */
  predicate NoCommit(s: State, a: nat, t: State) {
    && OnlyStage(s, a, t) && t.db == s.db && t.debits == s.debits
    && (t.pcs[a].stage.Done? ==> KeyUsed(s.db, s.pcs[a].job.key))
  }

  function Advance(s: State, a: nat, stage: Stage): (t: State)
    requires a < |s.pcs| && s.pcs[a].Busy?
    ensures OnlyStage(s, a, t)
  {
    SetPc(s, a, s.pcs[a].(stage := stage))
  }

  predicate FreshSig(sig: Sig, now: int) {
    sig.deadline > 0 && sig.deadline >= now
  }

  function JobOf(id: nat, r: Row): Job {
    Job(r.user, r.dest, r.amount, r.fee, r.sig, r.key, Some(id))
  }

  function NonceOf(s: State, clone: Address): nat {
    if clone in s.nonces then s.nonces[clone] else 0
  }

  predicate DeadlinePassed(s: State, r: Row) {
    r.sig.raw != [] && r.sig.deadline > 0 && r.sig.deadline < s.now
  }

  /** A newer withdrawal consumed the signed nonce, or the nonce could not be read to tell. */
  predicate NonceGone(s: State, r: Row, nonceOk: bool) {
    && r.sig.raw != [] && r.sig.nonce > 0 && r.user in s.clones
    && (!nonceOk || NonceOf(s, s.clones[r.user]) != r.sig.nonce)
  }

  /** The signed intent can no longer be relayed. */
  predicate Dead(s: State, r: Row) {
    DeadlinePassed(s, r) || NonceGone(s, r, true)
  }

  function DoClaim(s: State, a: nat, ok: bool): (t: State)
    requires a < |s.pcs| && s.pcs[a].Sweeping?
    ensures OnlyAgent(s, a, t) && t.db == s.db && t.debits == s.debits
  {
    var due := s.pcs[a].due;
    if due == [] then SetPc(s, a, Idle)
    else
      var id, rest := due[0], due[1..];
      if ok && id in s.rows && s.rows[id].status == Pending then
        SetPc(SetStatus(s, id, Broadcasting), a, Busy(Claimed, JobOf(id, s.rows[id]), rest))
      else SetPc(s, a, Sweeping(rest))
  }

  /** releaseElevation before the withdrawal: the clone lookup, the nonce read and the expiry may each fail. */
  function DoLiveness(s: State, a: nat, cloneOk: bool, nonceOk: bool, markOk: bool): (t: State)
    requires a < |s.pcs| && s.pcs[a].Busy? && s.pcs[a].stage.Claimed? && s.pcs[a].job.row.Some?
    ensures OnlyAgent(s, a, t) && t.db == s.db && t.debits == s.debits
  {
    var pc := s.pcs[a];
    var id := pc.job.row.value;
    if id !in s.rows then Advance(s, a, Executing)
    else
      var r := s.rows[id];
      if DeadlinePassed(s, r) then SetPc(if markOk then MarkExpired(s, id) else s, a, Sweeping(pc.due))
      else if r.sig.raw != [] && r.sig.nonce > 0 && !cloneOk then Advance(s, a, Failed)
      else if NonceGone(s, r, nonceOk) then SetPc(if markOk then MarkExpired(s, id) else s, a, Sweeping(pc.due))
      else Advance(s, a, Executing)
  }

  /** A key lookup that fails counts as a miss. */
  function DoPrecheck(s: State, a: nat, rate: int, lookupOk: bool, ok: bool): (t: State)
    requires a < |s.pcs| && s.pcs[a].Busy?
    ensures NoCommit(s, a, t)
    ensures OnlyAgent(s, a, t)
  {
    var job := s.pcs[a].job;
    if lookupOk && KeyUsed(s.db, job.key) then Advance(s, a, Done)
    else if !ok || rate <= 0 || !Solvency.Sufficient(s.db, job.user, Wrap(job.amount + job.fee)) then
      Advance(s, a, Failed)
    else
      var usdc := Solvency.WithdrawUsdc(job.amount, rate);
      Advance(s, a, if usdc > 0 then Prechecked(usdc) else Failed)
  }

  /** Which of the three paths to the chain the job takes; only the signed one goes on to a check. */
  function DoRoute(env: Env, s: State, a: nat, ok: bool): (t: State)
    requires a < |s.pcs| && s.pcs[a].Busy? && s.pcs[a].stage.Prechecked?
    ensures NoCommit(s, a, t)
  {
    var job, usdc := s.pcs[a].job, s.pcs[a].stage.usdc;
    if !ok then Advance(s, a, Failed)
    else if job.sig.raw != [] then
      if FreshSig(job.sig, s.now) && job.user in s.clones && s.clones[job.user] in s.owners then
        Advance(s, a, OwnerRead(usdc, s.clones[job.user], s.owners[s.clones[job.user]], s.now))
      else Advance(s, a, Failed)
    else if env.strict then Advance(s, a, Failed)
    else if job.user in s.clones then
      var clone := s.clones[job.user];
      if clone in s.owners && s.owners[clone] != env.vault then Advance(s, a, Failed)
      else Advance(s.(log := s.log + [PlatformRelay(job.user, clone, job.dest, usdc)],
                      nonces := s.nonces[clone := NonceOf(s, clone) + 1]), a, Sent)
    else Advance(s.(log := s.log + [SharedTransfer(job.user, job.dest, usdc)]), a, Sent)
  }

  /** The relay a job's signature is checked against. */
  function RelayOf(s: State, job: Job, usdc: int, clone: Address): Relay {
    Relay(clone, job.dest, if job.sig.amountBase > 0 then job.sig.amountBase else usdc,
          if job.sig.nonce == 0 then NonceOf(s, clone) else job.sig.nonce, job.sig.deadline, job.sig.raw)
  }

  /** The signature recovers to `owner` over exactly this relay. */
  predicate Authorised(env: Env, r: Relay, owner: Address) {
    && |r.raw| == 65 && ParseSignature(r.raw).Signature?
    && (var digest := Digest(env.hash, env.chainId, r.clone, Withdraw(r.to, r.amount, r.nonce, r.deadline));
        env.recover(digest, Normalized(r.raw)) == Some(owner))
  }

  function DoVerify(env: Env, s: State, a: nat, ok: bool): (t: State)
    requires a < |s.pcs| && s.pcs[a].Busy? && s.pcs[a].stage.OwnerRead?
    ensures NoCommit(s, a, t)
    ensures t.log == s.log
  {
    var st := s.pcs[a].stage;
    var relay := RelayOf(s, s.pcs[a].job, st.usdc, st.clone);
    Advance(s, a, if ok && Authorised(env, relay, st.owner) then Built(relay, st.owner, st.at) else Failed)
  }

  function DoSend(s: State, a: nat, ok: bool): (t: State)
    requires a < |s.pcs| && s.pcs[a].Busy? && s.pcs[a].stage.Built?
    ensures NoCommit(s, a, t)
    ensures Unchecked(t.pcs[a])
  {
    var st := s.pcs[a].stage;
    if !ok then Advance(s, a, Failed)
    else Advance(s.(log := s.log + [UserRelay(s.pcs[a].job.user, st.relay, st.owner, st.at)],
                    nonces := s.nonces[st.relay.clone := st.relay.nonce + 1]), a, Sent)
  }

  function DebitRequest(job: Job, txHash: string): Request {
    WithdrawExternal(job.user, AVAILABLE, "NGN", "withdrawal", job.amount, job.fee, txHash, job.key)
  }

  /** A debit that is not done leaves nothing; one that is not heard of counts as failed, whatever it did. */
  function DoDebit(s: State, a: nat, txHash: string, reply: Reply): (t: State)
    requires a < |s.pcs| && s.pcs[a].Busy? && s.pcs[a].stage.Sent?
    ensures OnlyStage(s, a, t)
    ensures OnlyAgent(s, a, t)
  {
    var job := s.pcs[a].job;
    if reply.NotDone? then Advance(s, a, Failed)
    else
      var (d, o) := Apply(s.db, DebitRequest(job, txHash));
      var debits := if o.Committed? && job.row.Some? then s.debits + [DebitRecord(job.row.value, o.txn)] else s.debits;
      Advance(s.(db := d, debits := debits), a, if o.Rejected? || reply.Unheard? then Failed else Done)
  }

  function DoFinish(s: State, a: nat, ok: bool): (t: State)
    requires a < |s.pcs| && s.pcs[a].Busy? && (s.pcs[a].stage.Done? || s.pcs[a].stage.Failed?)
    ensures OnlyAgent(s, a, t) && t.db == s.db && t.debits == s.debits
  {
    var pc := s.pcs[a];
    var t := if !ok || pc.job.row.None? then s
             else if pc.stage.Done? then MarkBroadcast(s, pc.job.row.value)
             else ReleaseClaim(s, pc.job.row.value);
    SetPc(t, a, if pc.job.row.Some? then Sweeping(pc.due) else Idle)
  }

  function DoRequest(env: Env, s: State, act: Action): State
    requires act.RequestElevation?
  {
    var row := Row(act.user, act.dest, act.amount, act.fee, s.now + env.delay, act.key, act.sig, Pending);
    if && env.threshold > 0 && act.amount > env.threshold
       && act.id !in s.rows && !PendingTwin(s, row, act.id)
       && Solvency.Sufficient(s.db, act.user, Wrap(act.amount + act.fee))
       && (act.sig.raw != [] ==> FreshSig(act.sig, s.now))
    then s.(rows := s.rows[act.id := row])
    else s
  }

  function Act(env: Env, s: State, act: Action): State {
    match act
    case Tick(dt) => s.(now := s.now + dt)
    case Foreign(request) => s.(db := Apply(s.db, request).0)
    case AddClone(user, clone) => if user in s.clones then s else s.(clones := s.clones[user := clone])
    case SetOwner(clone, owner) => s.(owners := s.owners[clone := owner])
    case SetNonce(clone, nonce) => s.(nonces := s.nonces[clone := nonce])
    case RequestElevation(_, _, _, _, _, _, _) => DoRequest(env, s, act)
    case Cancel(user, id) =>
      if id in s.rows && s.rows[id].user == user && s.rows[id].status == Pending then SetStatus(s, id, Cancelled) else s
    case Immediate(a, user, dest, amount, fee, sig, key) =>
      if a < |s.pcs| && s.pcs[a].Idle? && amount > 0 && !(env.threshold > 0 && amount > env.threshold) then
        SetPc(s, a, Busy(Executing, Job(user, dest, amount, fee, sig, key, None), []))
      else s
    case Sweep(a, due) =>
      if && a < |s.pcs| && s.pcs[a].Idle?
         && (forall k <- due :: k in s.rows && s.rows[k].status == Pending && s.rows[k].releaseAfter <= s.now)
      then SetPc(s, a, Sweeping(due)) else s
    case Claim(a, ok) => if a < |s.pcs| && s.pcs[a].Sweeping? then DoClaim(s, a, ok) else s
    case Liveness(a, cloneOk, nonceOk, markOk) =>
      if IsBusy(s, a) && s.pcs[a].stage.Claimed? && s.pcs[a].job.row.Some? then
        DoLiveness(s, a, cloneOk, nonceOk, markOk)
      else s
    case Precheck(a, rate, lookupOk, ok) =>
      if IsBusy(s, a) && s.pcs[a].stage.Executing? then DoPrecheck(s, a, rate, lookupOk, ok) else s
    case Route(a, ok) => if IsBusy(s, a) && s.pcs[a].stage.Prechecked? then DoRoute(env, s, a, ok) else s
    case Verify(a, ok) => if IsBusy(s, a) && s.pcs[a].stage.OwnerRead? then DoVerify(env, s, a, ok) else s
    case Send(a, ok) => if IsBusy(s, a) && s.pcs[a].stage.Built? then DoSend(s, a, ok) else s
    case Debit(a, txHash, reply) => if IsBusy(s, a) && s.pcs[a].stage.Sent? then DoDebit(s, a, txHash, reply) else s
    case Finish(a, ok) =>
      if IsBusy(s, a) && (s.pcs[a].stage.Done? || s.pcs[a].stage.Failed?) then DoFinish(s, a, ok) else s
    case Crash(a) => if a < |s.pcs| then SetPc(s, a, Idle) else s
  }

  function Run(env: Env, s: State, acts: seq<Action>): State
    decreases |acts|
  {
    if acts == [] then s else Act(env, Run(env, s, acts[..|acts| - 1]), acts[|acts| - 1])
  }

  // ---- The claim discipline ----

  function Holds(pc: Pc): Option<nat> {
    if pc.Busy? then pc.job.row else None
  }

  function DueOf(pc: Pc): seq<nat> {
    if pc.Idle? then [] else pc.due
  }

  predicate Released(s: State, id: nat) {
    id in s.rows && s.rows[id].releaseAfter <= s.now
  }

  /** The agent's job is its row's content and the row is still claimed. */
  predicate HoldsClaim(s: State, pc: Pc) {
    Holds(pc).Some? ==>
      var id := Holds(pc).value;
      id in s.rows && s.rows[id].status == Broadcasting && pc.job == JobOf(id, s.rows[id])
  }

  predicate BothPending(s: State, id: nat, other: nat)
    requires id in s.rows && other in s.rows
  {
    s.rows[id].status == Pending && s.rows[other].status == Pending
  }

  ghost predicate ClaimInv(s: State) {
    && (forall a :: 0 <= a < |s.pcs| ==> HoldsClaim(s, s.pcs[a]))
    && (forall a, b :: 0 <= a < b < |s.pcs| && Holds(s.pcs[a]).Some? ==> Holds(s.pcs[a]) != Holds(s.pcs[b]))
    && (forall a, k :: 0 <= a < |s.pcs| && k in DueOf(s.pcs[a]) ==> Released(s, k))
    && (forall id :: id in s.rows && s.rows[id].status != Pending && s.rows[id].status != Cancelled ==> Released(s, id))
    && (forall id, other :: id in s.rows && other in s.rows && id != other && BothPending(s, id, other) ==>
          !s.rows[id].SameContent(s.rows[other]))
  }

  /** An agent moves without touching rows and without picking up a claim or a due row. */
  lemma PcMoves(s: State, a: nat, pc: Pc, t: State)
    requires ClaimInv(s) && a < |s.pcs| && t.rows == s.rows && t.now == s.now && t.pcs == s.pcs[a := pc]
    requires Holds(pc).None? || (s.pcs[a].Busy? && pc.job == s.pcs[a].job)
    requires forall k :: k in DueOf(pc) ==> k in DueOf(s.pcs[a]) || Released(s, k)
    ensures ClaimInv(t)
  {
    forall b | 0 <= b < |t.pcs| ensures HoldsClaim(t, t.pcs[b]) {
      assert HoldsClaim(s, s.pcs[b]);
    }
    forall b, k | 0 <= b < |t.pcs| && k in DueOf(t.pcs[b]) ensures Released(t, k) {
      assert b != a ==> k in DueOf(s.pcs[b]);
      assert Released(s, k);
    }
  }

  /** A row nobody else holds changes status while its holder, if any, lets go of it. */
  lemma RowMoves(s: State, id: nat, status: Status, t: State, a: nat)
    requires ClaimInv(s) && id in s.rows && t.rows == SetStatus(s, id, status).rows && t.now == s.now
    requires |t.pcs| == |s.pcs| && forall b :: 0 <= b < |s.pcs| && b != a ==> t.pcs[b] == s.pcs[b]
    requires a < |s.pcs| ==> Holds(t.pcs[a]).None? && forall k :: k in DueOf(t.pcs[a]) ==> k in DueOf(s.pcs[a])
    requires forall b :: 0 <= b < |s.pcs| && b != a ==> Holds(s.pcs[b]) != Some(id)
    requires status != Pending && status != Cancelled ==> Released(s, id)
    requires status == Pending ==> !PendingTwin(s, s.rows[id], id)
    ensures ClaimInv(t)
  {
    forall b | 0 <= b < |t.pcs| ensures HoldsClaim(t, t.pcs[b]) {
      assert HoldsClaim(s, s.pcs[b]);
    }
    forall b, k | 0 <= b < |t.pcs| && k in DueOf(t.pcs[b]) ensures Released(t, k) {
      assert k in DueOf(s.pcs[b]);
      assert Released(s, k);
    }
    forall k | k in t.rows && t.rows[k].status != Pending && t.rows[k].status != Cancelled ensures Released(t, k) {
      assert k != id ==> Released(s, k);
    }
    forall k, l | k in t.rows && l in t.rows && k != l && BothPending(t, k, l)
      ensures !t.rows[k].SameContent(t.rows[l])
    {
      if status == Pending && (k == id || l == id) {
        var other := if k == id then l else k;
        assert !s.rows[other].SameContent(s.rows[id]);
      }
    }
  }

  /** The claim itself: a pending, due row gets its one holder. */
  lemma ClaimMoves(s: State, a: nat)
    requires ClaimInv(s) && a < |s.pcs| && s.pcs[a].Sweeping? && s.pcs[a].due != []
    requires s.pcs[a].due[0] in s.rows && s.rows[s.pcs[a].due[0]].status == Pending
    ensures ClaimInv(DoClaim(s, a, true))
  {
    var id, rest := s.pcs[a].due[0], s.pcs[a].due[1..];
    var t := DoClaim(s, a, true);
    assert id in DueOf(s.pcs[a]);
    forall b | 0 <= b < |s.pcs| && b != a ensures Holds(s.pcs[b]) != Some(id) {
      assert HoldsClaim(s, s.pcs[b]);
    }
    forall b | 0 <= b < |t.pcs| ensures HoldsClaim(t, t.pcs[b]) {
      assert HoldsClaim(s, s.pcs[b]);
    }
    forall b, k | 0 <= b < |t.pcs| && k in DueOf(t.pcs[b]) ensures Released(t, k) {
      assert k in DueOf(s.pcs[b]);
      assert Released(s, k);
    }
    forall k | k in t.rows && t.rows[k].status != Pending && t.rows[k].status != Cancelled ensures Released(t, k) {
      assert Released(s, if k == id then id else k);
    }
  }

  lemma LivenessMoves(s: State, a: nat, cloneOk: bool, nonceOk: bool, markOk: bool)
    requires ClaimInv(s) && a < |s.pcs| && s.pcs[a].Busy? && s.pcs[a].stage.Claimed? && s.pcs[a].job.row.Some?
    ensures ClaimInv(DoLiveness(s, a, cloneOk, nonceOk, markOk))
  {
    var pc := s.pcs[a];
    var id := pc.job.row.value;
    var t := DoLiveness(s, a, cloneOk, nonceOk, markOk);
    assert HoldsClaim(s, pc);
    if t.rows != s.rows {
      assert forall b :: 0 <= b < a ==> Holds(s.pcs[b]) != Holds(s.pcs[a]);
      RowMoves(s, id, Expired, t, a);
    } else {
      PcMoves(s, a, t.pcs[a], t);
    }
  }

  lemma FinishMoves(s: State, a: nat, ok: bool)
    requires ClaimInv(s) && a < |s.pcs| && s.pcs[a].Busy? && (s.pcs[a].stage.Done? || s.pcs[a].stage.Failed?)
    ensures ClaimInv(DoFinish(s, a, ok))
  {
    var pc := s.pcs[a];
    var t := DoFinish(s, a, ok);
    assert HoldsClaim(s, pc);
    if ok && pc.job.row.Some? {
      var id := pc.job.row.value;
      assert Released(s, id);
      assert forall b :: 0 <= b < a ==> Holds(s.pcs[b]) != Holds(s.pcs[a]);
      if pc.stage.Done? {
        RowMoves(s, id, Broadcast, t, a);
      } else if !PendingTwin(s, s.rows[id], id) {
        RowMoves(s, id, Pending, t, a);
      } else {
        PcMoves(s, a, t.pcs[a], t);
      }
    } else {
      PcMoves(s, a, t.pcs[a], t);
    }
  }

  lemma RequestMoves(env: Env, s: State, act: Action)
    requires ClaimInv(s) && act.RequestElevation?
    ensures ClaimInv(DoRequest(env, s, act))
  {
    var t := DoRequest(env, s, act);
    if t != s {
      forall b | 0 <= b < |t.pcs| ensures HoldsClaim(t, t.pcs[b]) {
        assert HoldsClaim(s, s.pcs[b]);
      }
      forall b, k | 0 <= b < |t.pcs| && k in DueOf(t.pcs[b]) ensures Released(t, k) {
        assert Released(s, k);
      }
      forall k | k in t.rows && t.rows[k].status != Pending && t.rows[k].status != Cancelled ensures Released(t, k) {
        assert Released(s, k);
      }
    }
  }

  lemma TickMoves(s: State, dt: nat)
    requires ClaimInv(s)
    ensures ClaimInv(s.(now := s.now + dt))
  {
    var t := s.(now := s.now + dt);
    forall b | 0 <= b < |t.pcs| ensures HoldsClaim(t, t.pcs[b]) {
      assert HoldsClaim(s, s.pcs[b]);
    }
    forall b, k | 0 <= b < |t.pcs| && k in DueOf(t.pcs[b]) ensures Released(t, k) {
      assert Released(s, k);
    }
    forall k | k in t.rows && t.rows[k].status != Pending && t.rows[k].status != Cancelled ensures Released(t, k) {
      assert Released(s, k);
    }
  }

  lemma CancelMoves(s: State, id: nat)
    requires ClaimInv(s) && id in s.rows && s.rows[id].status == Pending
    ensures ClaimInv(SetStatus(s, id, Cancelled))
  {
    forall b | 0 <= b < |s.pcs| ensures Holds(s.pcs[b]) != Some(id) {
      assert HoldsClaim(s, s.pcs[b]);
    }
    RowMoves(s, id, Cancelled, SetStatus(s, id, Cancelled), |s.pcs|);
  }

  /** Rows, time and agents untouched: nothing to show. */
  lemma ElsewhereMoves(s: State, t: State)
    requires ClaimInv(s) && t.rows == s.rows && t.now == s.now && t.pcs == s.pcs
    ensures ClaimInv(t)
  {
    forall b | 0 <= b < |t.pcs| ensures HoldsClaim(t, t.pcs[b]) {
      assert HoldsClaim(s, s.pcs[b]);
    }
    forall b, k | 0 <= b < |t.pcs| && k in DueOf(t.pcs[b]) ensures Released(t, k) {
      assert Released(s, k);
    }
    forall k | k in t.rows && t.rows[k].status != Pending && t.rows[k].status != Cancelled ensures Released(t, k) {
      assert Released(s, k);
    }
  }

  /** The actions inside executeWithdrawal. */
  predicate InJob(act: Action) {
    act.Precheck? || act.Route? || act.Verify? || act.Send? || act.Debit?
  }

  /** The actions of users, time, the chain and the rest of the ledger. */
  predicate Outside(act: Action) {
    act.Tick? || act.Foreign? || act.AddClone? || act.SetOwner? || act.SetNonce? || act.RequestElevation? || act.Cancel?
  }

  /** Inside a job only that job's stage moves. */
  lemma JobShape(env: Env, s: State, act: Action)
    requires InJob(act)
    ensures Act(env, s, act) == s || OnlyStage(s, act.a, Act(env, s, act))
  {
  }

  lemma OutsideKeepsClaims(env: Env, s: State, act: Action)
    requires ClaimInv(s) && Outside(act)
    ensures ClaimInv(Act(env, s, act))
  {
    var t := Act(env, s, act);
    match act {
      case Tick(dt) => TickMoves(s, dt);
      case RequestElevation(_, _, _, _, _, _, _) => RequestMoves(env, s, act);
      case Cancel(user, id) => if t != s { CancelMoves(s, id); }
      case _ => ElsewhereMoves(s, t);
    }
  }

  lemma SweeperKeepsClaims(env: Env, s: State, act: Action)
    requires ClaimInv(s) && !Outside(act) && !InJob(act)
    ensures ClaimInv(Act(env, s, act))
  {
    var t := Act(env, s, act);
    match act {
      case Immediate(a, _, _, _, _, _, _) => if t != s { PcMoves(s, a, t.pcs[a], t); }
      case Sweep(a, due) => if t != s { PcMoves(s, a, t.pcs[a], t); }
      case Claim(a, ok) => if t != s { ClaimStep(s, a, ok); }
      case Liveness(a, cloneOk, nonceOk, markOk) => if t != s { LivenessMoves(s, a, cloneOk, nonceOk, markOk); }
      case Finish(a, ok) => if t != s { FinishMoves(s, a, ok); }
      case Crash(a) => if a < |s.pcs| { PcMoves(s, a, Idle, t); }
    }
  }

  lemma ActKeepsClaims(env: Env, s: State, act: Action)
    requires ClaimInv(s)
    ensures ClaimInv(Act(env, s, act))
  {
    if InJob(act) {
      JobShape(env, s, act);
      if Act(env, s, act) != s {
        PcMoves(s, act.a, Act(env, s, act).pcs[act.a], Act(env, s, act));
      }
    } else if Outside(act) {
      OutsideKeepsClaims(env, s, act);
    } else {
      SweeperKeepsClaims(env, s, act);
    }
  }

  lemma ClaimStep(s: State, a: nat, ok: bool)
    requires ClaimInv(s) && a < |s.pcs| && s.pcs[a].Sweeping?
    ensures ClaimInv(DoClaim(s, a, ok))
  {
    var due, t := s.pcs[a].due, DoClaim(s, a, ok);
    if due != [] && ok && due[0] in s.rows && s.rows[due[0]].status == Pending {
      ClaimMoves(s, a);
    } else {
      PcMoves(s, a, t.pcs[a], t);
    }
  }

  // ---- The lifecycle of a row ----

  /** pending → broadcasting → broadcast, expired or pending again; pending → cancelled; nothing else. */
  predicate Lifecycle(x: Status, y: Status) {
    || x == y
    || (x == Pending && (y == Broadcasting || y == Cancelled))
    || (x == Broadcasting && (y == Broadcast || y == Expired || y == Pending))
  }

  predicate Terminal(x: Status) {
    x == Broadcast || x == Cancelled || x == Expired
  }

  /** A row keeps its content for ever and its status only moves along the lifecycle, claimed only when due. */
  ghost predicate RowEvolves(s: State, t: State, id: nat) {
    id in s.rows ==>
      && id in t.rows
      && t.rows[id] == s.rows[id].(status := t.rows[id].status)
      && Lifecycle(s.rows[id].status, t.rows[id].status)
      && (s.rows[id].status == Pending && t.rows[id].status == Broadcasting ==> Released(s, id))
  }

  lemma ActFollowsLifecycle(env: Env, s: State, act: Action, id: nat)
    requires ClaimInv(s)
    ensures RowEvolves(s, Act(env, s, act), id)
  {
    if InJob(act) {
      JobShape(env, s, act);
    } else if !Outside(act) {
      SweeperFollowsLifecycle(env, s, act, id);
    }
  }

  lemma SweeperFollowsLifecycle(env: Env, s: State, act: Action, id: nat)
    requires ClaimInv(s) && !Outside(act) && !InJob(act)
    ensures RowEvolves(s, Act(env, s, act), id)
  {
    var a, t := act.a, Act(env, s, act);
    if t != s {
      match act {
        case Claim(_, ok) => ClaimFollows(s, a, ok, id);
        case Liveness(_, cloneOk, nonceOk, markOk) => LivenessFollows(s, a, cloneOk, nonceOk, markOk, id);
        case Finish(_, ok) => FinishFollows(s, a, ok, id);
        case _ =>
      }
    }
  }

  lemma ClaimFollows(s: State, a: nat, ok: bool, id: nat)
    requires ClaimInv(s) && a < |s.pcs| && s.pcs[a].Sweeping?
    ensures RowEvolves(s, DoClaim(s, a, ok), id)
  {
    if s.pcs[a].due != [] {
      assert s.pcs[a].due[0] in DueOf(s.pcs[a]);
    }
  }

  lemma LivenessFollows(s: State, a: nat, cloneOk: bool, nonceOk: bool, markOk: bool, id: nat)
    requires ClaimInv(s) && a < |s.pcs| && s.pcs[a].Busy? && s.pcs[a].stage.Claimed? && s.pcs[a].job.row.Some?
    ensures RowEvolves(s, DoLiveness(s, a, cloneOk, nonceOk, markOk), id)
  {
    assert HoldsClaim(s, s.pcs[a]);
  }

  /** MarkBroadcast has no guard; the claim invariant supplies it. */
  lemma FinishFollows(s: State, a: nat, ok: bool, id: nat)
    requires ClaimInv(s) && a < |s.pcs| && s.pcs[a].Busy? && (s.pcs[a].stage.Done? || s.pcs[a].stage.Failed?)
    ensures RowEvolves(s, DoFinish(s, a, ok), id)
  {
    assert HoldsClaim(s, s.pcs[a]);
  }

  // ---- At most one debit ----

  predicate Debited(s: State, id: nat) {
    exists k :: 0 <= k < |s.debits| && s.debits[k].id == id
  }

  /** The row was debited, or its key already belonged to a committed transaction. */
  predicate Settled(s: State, id: nat) {
    id in s.rows && (Debited(s, id) || KeyUsed(s.db, s.rows[id].key))
  }

  function WithdrawalTxn(row: Row, txHash: string): Txn {
    Txn(row.user, "withdrawal", "NGN", row.amount, row.fee, txHash, row.key)
  }

  /** A recorded debit is a committed ledger transaction for exactly the row's principal and fee. */
  ghost predicate DebitOk(s: State, r: DebitRecord) {
    && r.id in s.rows
    && (s.rows[r.id].status == Broadcasting || s.rows[r.id].status == Broadcast)
    && r.txn == WithdrawalTxn(s.rows[r.id], r.txn.providerRef)
    && r.txn in s.db.txns
  }

  ghost predicate AgentOk(s: State, pc: Pc) {
    Holds(pc).Some? ==> if pc.stage.Done? then Settled(s, Holds(pc).value) else !Debited(s, Holds(pc).value)
  }

  ghost predicate DebitInv(s: State) {
    && (forall k :: 0 <= k < |s.debits| ==> DebitOk(s, s.debits[k]))
    && (forall k, l :: 0 <= k < l < |s.debits| ==> s.debits[k].id != s.debits[l].id)
    && (forall a :: 0 <= a < |s.pcs| ==> AgentOk(s, s.pcs[a]))
    && (forall id :: id in s.rows && s.rows[id].status == Broadcast ==> Settled(s, id))
  }

  /** The ledger only grows between s and t. */
  ghost predicate LedgerGrows(s: State, t: State) {
    && (forall x :: x in s.db.txns ==> x in t.db.txns)
    && (forall key :: KeyUsed(s.db, key) ==> KeyUsed(t.db, key))
  }

  lemma ApplyGrows(s: State, r: Request)
    ensures LedgerGrows(s, s.(db := Apply(s.db, r).0))
  {
    Conservation.ApplyTxns(s.db, r);
    forall key | KeyUsed(s.db, key) ensures KeyUsed(Apply(s.db, r).0, key) {
      Conservation.ApplyKeepsKeys(s.db, r, key);
    }
  }

  /** An agent that was fine stays fine while rows and debits stand and the ledger grows. */
  lemma AgentStays(s: State, t: State, pc: Pc)
    requires AgentOk(s, pc) && t.debits == s.debits && LedgerGrows(s, t) && forall id :: RowEvolves(s, t, id)
    ensures AgentOk(t, pc)
  {
    if Holds(pc).Some? {
      assert RowEvolves(s, t, Holds(pc).value);
    }
  }

  /** Rows that leave `Broadcasting` leave it rightly: settled if broadcast, never debited otherwise. */
  ghost predicate LeavesRightly(s: State, t: State, id: nat) {
    && (id in t.rows && id !in s.rows ==> t.rows[id].status == Pending)
    && (id in t.rows && id in s.rows && s.rows[id].status == Broadcasting != t.rows[id].status ==>
          if t.rows[id].status == Broadcast then Settled(s, id) else !Debited(s, id))
  }

  /** A step without a debit, in which only agent a and rows that leave rightly move. */
  lemma NoDebit(s: State, t: State, a: nat)
    requires DebitInv(s) && t.debits == s.debits && LedgerGrows(s, t)
    requires forall id :: RowEvolves(s, t, id) && LeavesRightly(s, t, id)
    requires |t.pcs| == |s.pcs| && forall b :: 0 <= b < |s.pcs| && b != a ==> t.pcs[b] == s.pcs[b]
    requires a < |t.pcs| ==> AgentOk(t, t.pcs[a])
    ensures DebitInv(t)
  {
    forall k | 0 <= k < |t.debits| ensures DebitOk(t, t.debits[k]) {
      var id := s.debits[k].id;
      assert DebitOk(s, s.debits[k]);
      assert RowEvolves(s, t, id) && LeavesRightly(s, t, id);
      assert Debited(s, id);
    }
    forall b | 0 <= b < |t.pcs| ensures AgentOk(t, t.pcs[b]) {
      if b != a {
        AgentStays(s, t, s.pcs[b]);
      }
    }
    forall id | id in t.rows && t.rows[id].status == Broadcast ensures Settled(t, id) {
      assert RowEvolves(s, t, id) && LeavesRightly(s, t, id);
      assert Settled(s, id);
    }
  }

  lemma PendingNotDebited(s: State, id: nat)
    requires DebitInv(s) && id in s.rows && s.rows[id].status != Broadcasting && s.rows[id].status != Broadcast
    ensures !Debited(s, id)
  {
    forall k | 0 <= k < |s.debits| ensures s.debits[k].id != id {
      assert DebitOk(s, s.debits[k]);
    }
  }

  lemma ClaimKeepsDebits(s: State, a: nat, ok: bool)
    requires ClaimInv(s) && DebitInv(s) && a < |s.pcs| && s.pcs[a].Sweeping?
    ensures DebitInv(DoClaim(s, a, ok))
  {
    var t := DoClaim(s, a, ok);
    forall id ensures RowEvolves(s, t, id) {
      ClaimFollows(s, a, ok, id);
    }
    if Holds(t.pcs[a]).Some? {
      PendingNotDebited(s, s.pcs[a].due[0]);
    }
    NoDebit(s, t, a);
  }

  lemma LivenessLeaves(s: State, a: nat, cloneOk: bool, nonceOk: bool, markOk: bool, id: nat)
    requires ClaimInv(s) && a < |s.pcs| && s.pcs[a].Busy? && s.pcs[a].stage.Claimed? && s.pcs[a].job.row.Some?
    requires AgentOk(s, s.pcs[a])
    ensures LeavesRightly(s, DoLiveness(s, a, cloneOk, nonceOk, markOk), id)
  {
    assert HoldsClaim(s, s.pcs[a]);
  }

  lemma LivenessKeepsDebits(s: State, a: nat, cloneOk: bool, nonceOk: bool, markOk: bool)
    requires ClaimInv(s) && DebitInv(s) && a < |s.pcs| && s.pcs[a].Busy? && s.pcs[a].stage.Claimed?
    requires s.pcs[a].job.row.Some?
    ensures DebitInv(DoLiveness(s, a, cloneOk, nonceOk, markOk))
  {
    var t := DoLiveness(s, a, cloneOk, nonceOk, markOk);
    assert AgentOk(s, s.pcs[a]);
    forall id ensures RowEvolves(s, t, id) && LeavesRightly(s, t, id) {
      LivenessFollows(s, a, cloneOk, nonceOk, markOk, id);
      LivenessLeaves(s, a, cloneOk, nonceOk, markOk, id);
    }
    NoDebit(s, t, a);
  }

  lemma FinishKeepsDebits(s: State, a: nat, ok: bool)
    requires ClaimInv(s) && DebitInv(s) && a < |s.pcs| && s.pcs[a].Busy?
    requires (s.pcs[a].stage.Done? || s.pcs[a].stage.Failed?)
    ensures DebitInv(DoFinish(s, a, ok))
  {
    var t := DoFinish(s, a, ok);
    assert HoldsClaim(s, s.pcs[a]) && AgentOk(s, s.pcs[a]);
    forall id ensures RowEvolves(s, t, id) {
      FinishFollows(s, a, ok, id);
    }
    NoDebit(s, t, a);
  }

  lemma OutsideKeepsDebits(env: Env, s: State, act: Action)
    requires ClaimInv(s) && DebitInv(s) && Outside(act)
    ensures DebitInv(Act(env, s, act))
  {
    var t := Act(env, s, act);
    if act.Foreign? {
      ApplyGrows(s, act.request);
    }
    OutsideRows(env, s, act);
    NoDebit(s, t, |s.pcs|);
  }

  lemma OutsideRows(env: Env, s: State, act: Action)
    requires ClaimInv(s) && Outside(act)
    ensures forall id :: RowEvolves(s, Act(env, s, act), id) && LeavesRightly(s, Act(env, s, act), id)
  {
    forall id ensures RowEvolves(s, Act(env, s, act), id) && LeavesRightly(s, Act(env, s, act), id) {
      ActFollowsLifecycle(env, s, act, id);
    }
  }

  /** A job moves to another stage without a commit. */
  lemma StageKeepsDebits(s: State, a: nat, t: State)
    requires ClaimInv(s) && DebitInv(s) && OnlyStage(s, a, t) && t.debits == s.debits && LedgerGrows(s, t)
    requires !s.pcs[a].stage.Done? && (t.pcs[a].stage.Done? ==> KeyUsed(t.db, s.pcs[a].job.key))
    ensures DebitInv(t)
  {
    assert HoldsClaim(s, s.pcs[a]) && AgentOk(s, s.pcs[a]);
    NoDebit(s, t, a);
  }

  /** A recorded debit of the row agent a holds, while everyone else works on other rows. */
  lemma RecordKeepsDebits(s: State, t: State, a: nat, r: DebitRecord)
    requires ClaimInv(s) && DebitInv(s) && OnlyStage(s, a, t) && LedgerGrows(s, t)
    requires Holds(s.pcs[a]) == Some(r.id) && !s.pcs[a].stage.Done? && t.pcs[a].stage.Done?
    requires t.debits == s.debits + [r] && DebitOk(t, r)
    ensures DebitInv(t)
  {
    var n := |s.debits|;
    assert t.debits[n] == r && HoldsClaim(s, s.pcs[a]) && AgentOk(s, s.pcs[a]);
    forall k | 0 <= k < |t.debits| ensures DebitOk(t, t.debits[k]) {
      if k < n {
        assert DebitOk(s, s.debits[k]);
      }
    }
    forall b | 0 <= b < |t.pcs| ensures AgentOk(t, t.pcs[b]) {
      RecordLeavesAgents(s, t, a, r, b);
    }
    forall k | k in t.rows && t.rows[k].status == Broadcast ensures Settled(t, k) {
      assert Settled(s, k);
      DebitedAppend(s, t, k);
    }
  }

  lemma RecordLeavesAgents(s: State, t: State, a: nat, r: DebitRecord, b: nat)
    requires ClaimInv(s) && OnlyStage(s, a, t) && LedgerGrows(s, t) && b < |s.pcs| && AgentOk(s, s.pcs[b])
    requires Holds(s.pcs[a]) == Some(r.id) && t.pcs[a].stage.Done? && t.debits == s.debits + [r] && r.id in t.rows
    ensures AgentOk(t, t.pcs[b])
  {
    assert t.debits[..|s.debits|] == s.debits && t.debits[|s.debits|] == r;
    if b == a {
      DebitedAppend(s, t, r.id);
    } else if Holds(s.pcs[b]).Some? {
      assert if b < a then Holds(s.pcs[b]) != Holds(s.pcs[a]) else Holds(s.pcs[a]) != Holds(s.pcs[b]);
      DebitedAppend(s, t, Holds(s.pcs[b]).value);
    }
  }

  lemma CommitKeepsDebits(s: State, a: nat, txHash: string, reply: Reply)
    requires ClaimInv(s) && DebitInv(s) && a < |s.pcs| && s.pcs[a].Busy? && s.pcs[a].stage.Sent?
    requires reply.Answered? && s.pcs[a].job.row.Some?
    requires Apply(s.db, DebitRequest(s.pcs[a].job, txHash)).1.Committed?
    ensures DebitInv(DoDebit(s, a, txHash, reply))
  {
    var r := DebitRequest(s.pcs[a].job, txHash);
    assert HoldsClaim(s, s.pcs[a]);
    ApplyGrows(s, r);
    Conservation.ApplyTxns(s.db, r);
    RecordKeepsDebits(s, DoDebit(s, a, txHash, reply), a, DebitRecord(s.pcs[a].job.row.value, Apply(s.db, r).1.txn));
  }

  lemma DebitedAppend(s: State, t: State, id: nat)
    requires |t.debits| == |s.debits| + 1 && t.debits[..|s.debits|] == s.debits
    ensures Debited(t, id) <==> Debited(s, id) || t.debits[|s.debits|].id == id
  {
    if Debited(s, id) {
      var k :| 0 <= k < |s.debits| && s.debits[k].id == id;
      assert t.debits[k] == t.debits[..|s.debits|][k];
    }
    if Debited(t, id) && t.debits[|s.debits|].id != id {
      var k :| 0 <= k < |t.debits| && t.debits[k].id == id;
      assert t.debits[k] == t.debits[..|s.debits|][k];
    }
  }

  lemma DebitKeepsDebits(s: State, a: nat, txHash: string, reply: Reply)
    requires ClaimInv(s) && DebitInv(s) && a < |s.pcs| && s.pcs[a].Busy? && s.pcs[a].stage.Sent? && !reply.Unheard?
    ensures DebitInv(DoDebit(s, a, txHash, reply))
  {
    var job := s.pcs[a].job;
    var r := DebitRequest(job, txHash);
    var o := Apply(s.db, r).1;
    ApplyGrows(s, r);
    if reply.NotDone? {
      StageKeepsDebits(s, a, DoDebit(s, a, txHash, reply));
    } else if o.Committed? && job.row.Some? {
      CommitKeepsDebits(s, a, txHash, reply);
    } else if o.Committed? {
      ImmediateKeepsDebits(s, a, DoDebit(s, a, txHash, reply));
    } else {
      StageKeepsDebits(s, a, DoDebit(s, a, txHash, reply));
    }
  }

  /** An immediate withdrawal holds no row, so its stage matters to no row. */
  lemma ImmediateKeepsDebits(s: State, a: nat, t: State)
    requires ClaimInv(s) && DebitInv(s) && OnlyStage(s, a, t) && t.debits == s.debits && LedgerGrows(s, t)
    requires s.pcs[a].job.row.None?
    ensures DebitInv(t)
  {
    NoDebit(s, t, a);
  }

  /** The outcome of a debit is not lost on its way. */
  predicate Heard(act: Action) {
    act.Debit? ==> !act.reply.Unheard?
  }

  lemma ActKeepsDebits(env: Env, s: State, act: Action)
    requires ClaimInv(s) && DebitInv(s) && Heard(act)
    ensures DebitInv(Act(env, s, act))
  {
    var t := Act(env, s, act);
    if Outside(act) {
      OutsideKeepsDebits(env, s, act);
    } else if t != s {
      if InJob(act) {
        JobKeepsDebits(env, s, act);
      } else {
        match act {
          case Claim(a, ok) => ClaimKeepsDebits(s, a, ok);
          case Liveness(a, cloneOk, nonceOk, markOk) => LivenessKeepsDebits(s, a, cloneOk, nonceOk, markOk);
          case Finish(a, ok) => FinishKeepsDebits(s, a, ok);
          case Immediate(a, _, _, _, _, _, _) => LettingGoKeepsDebits(s, a, t);
          case Sweep(a, _) => LettingGoKeepsDebits(s, a, t);
          case Crash(a) => LettingGoKeepsDebits(s, a, t);
        }
      }
    }
  }

  lemma JobKeepsDebits(env: Env, s: State, act: Action)
    requires ClaimInv(s) && DebitInv(s) && InJob(act) && Act(env, s, act) != s && Heard(act)
    ensures DebitInv(Act(env, s, act))
  {
    if act.Debit? {
      DebitKeepsDebits(s, act.a, act.txHash, act.reply);
    } else {
      assert NoCommit(s, act.a, Act(env, s, act));
      StageKeepsDebits(s, act.a, Act(env, s, act));
    }
  }

  /** Starting, sweeping and crashing leave the agent without a row. */
  lemma LettingGoKeepsDebits(s: State, a: nat, t: State)
    requires DebitInv(s) && a < |s.pcs| == |t.pcs| && t == s.(pcs := s.pcs[a := t.pcs[a]]) && Holds(t.pcs[a]).None?
    ensures DebitInv(t)
  {
    NoDebit(s, t, a);
  }

  // ---- Whole runs ----

  /** Nothing requested yet; any number of agents; any ledger and chain. */
  ghost predicate Initial(s: State) {
    s.rows == map[] && s.log == [] && s.debits == [] && forall a :: 0 <= a < |s.pcs| ==> s.pcs[a].Idle?
  }

  lemma {:induction false} RunClaims(env: Env, s: State, acts: seq<Action>)
    requires Initial(s)
    ensures ClaimInv(Run(env, s, acts))
    decreases |acts|
  {
    if acts != [] {
      RunClaims(env, s, acts[..|acts| - 1]);
      ActKeepsClaims(env, Run(env, s, acts[..|acts| - 1]), acts[|acts| - 1]);
    }
  }

  lemma {:induction false} RunDebits(env: Env, s: State, acts: seq<Action>)
    requires Initial(s) && forall i :: 0 <= i < |acts| ==> Heard(acts[i])
    ensures DebitInv(Run(env, s, acts))
    decreases |acts|
  {
    if acts != [] {
      var before := acts[..|acts| - 1];
      RunClaims(env, s, before);
      RunDebits(env, s, before);
      ActKeepsDebits(env, Run(env, s, before), acts[|acts| - 1]);
    }
  }

  /**
   In every run an agent past the claim of a row works on exactly that row's
   content, after its release time and while the row is claimed, and it is
   the only one.
   */
  lemma OneBroadcasterPerRow(env: Env, s: State, acts: seq<Action>, a: nat, id: nat)
    requires Initial(s) && a < |Run(env, s, acts).pcs| && Holds(Run(env, s, acts).pcs[a]) == Some(id)
    ensures var t := Run(env, s, acts);
            && Released(t, id) && t.rows[id].status == Broadcasting && t.pcs[a].job == JobOf(id, t.rows[id])
            && forall b :: 0 <= b < |t.pcs| && Holds(t.pcs[b]) == Some(id) ==> b == a
  {
    RunClaims(env, s, acts);
    var t := Run(env, s, acts);
    assert HoldsClaim(t, t.pcs[a]);
  }

  /**
   In every run, from any point on: a row's content never changes, a
   cancelled, broadcast or expired row keeps its status for ever, and a row
   that was claimed was due.
   */
  lemma {:induction false} TerminalForEver(env: Env, s: State, acts: seq<Action>, k: nat, id: nat)
    requires Initial(s) && k <= |acts| && id in Run(env, s, acts[..k]).rows
    ensures var (early, late) := (Run(env, s, acts[..k]), Run(env, s, acts));
            && id in late.rows
            && late.rows[id] == early.rows[id].(status := late.rows[id].status)
            && (Terminal(early.rows[id].status) ==> late.rows[id] == early.rows[id])
            && (late.rows[id].status != Pending && late.rows[id].status != Cancelled ==> Released(late, id))
    decreases |acts|
  {
    RunClaims(env, s, acts);
    if k == |acts| {
      assert acts[..k] == acts;
    } else {
      var before := acts[..|acts| - 1];
      assert before[..k] == acts[..k];
      TerminalForEver(env, s, before, k, id);
      RunClaims(env, s, before);
      ActFollowsLifecycle(env, Run(env, s, before), acts[|acts| - 1], id);
    }
  }

  /**
   In every run in which every debit is heard of, each elevation is debited
   at most once, for exactly its principal and stored fee; one that is
   pending, cancelled or expired never was; and one marked broadcast was,
   unless its key already belonged to another committed transaction.
   */
  lemma DebitedAtMostOnce(env: Env, s: State, acts: seq<Action>, id: nat)
    requires Initial(s) && id in Run(env, s, acts).rows && forall i :: 0 <= i < |acts| ==> Heard(acts[i])
    ensures var t := Run(env, s, acts);
            && AtMostOnce(t, id)
            && (forall k :: 0 <= k < |t.debits| && t.debits[k].id == id ==>
                  && t.debits[k].txn == WithdrawalTxn(t.rows[id], t.debits[k].txn.providerRef)
                  && t.debits[k].txn in t.db.txns)
            && (t.rows[id].status in {Pending, Cancelled, Expired} ==> !Debited(t, id))
            && (t.rows[id].status == Broadcast && t.rows[id].key == "" ==> Debited(t, id))
            && (t.rows[id].status == Broadcast ==> Debited(t, id) || KeyUsed(t.db, t.rows[id].key))
  {
    RunDebits(env, s, acts);
    var t := Run(env, s, acts);
    forall k | 0 <= k < |t.debits| && t.debits[k].id == id
      ensures t.debits[k].txn == WithdrawalTxn(t.rows[id], t.debits[k].txn.providerRef) && t.debits[k].txn in t.db.txns
    {
      assert DebitOk(t, t.debits[k]);
    }
    if t.rows[id].status in {Pending, Cancelled, Expired} {
      PendingNotDebited(t, id);
    }
  }

  ghost predicate AtMostOnce(s: State, id: nat) {
    forall k, l :: 0 <= k < l < |s.debits| && s.debits[k].id == id ==> s.debits[l].id != id
  }

  // ---- Debits that are not heard of ----

  /** A recorded debit is a committed transaction for its row, under the row's key. */
  ghost predicate DebitTrue(s: State, r: DebitRecord) {
    && r.id in s.rows && r.txn == WithdrawalTxn(s.rows[r.id], r.txn.providerRef) && r.txn in s.db.txns
    && (s.rows[r.id].key != "" ==> KeyUsed(s.db, s.rows[r.id].key))
  }

  ghost predicate KeyedInv(s: State) {
    && (forall k :: 0 <= k < |s.debits| ==> DebitTrue(s, s.debits[k]))
    && (forall id :: id in s.rows && s.rows[id].key != "" ==> AtMostOnce(s, id))
  }

  /** Outside a debit no debit is recorded and the ledger only grows. */
  lemma ActGrows(env: Env, s: State, act: Action)
    requires !act.Debit?
    ensures LedgerGrows(s, Act(env, s, act)) && Act(env, s, act).debits == s.debits
  {
    if act.Foreign? {
      ApplyGrows(s, act.request);
    } else {
      SameLedger(env, s, act);
    }
  }

  lemma SameLedger(env: Env, s: State, act: Action)
    requires !act.Debit? && !act.Foreign?
    ensures Act(env, s, act).db == s.db && Act(env, s, act).debits == s.debits
  {
  }

  lemma TrueStays(s: State, t: State, r: DebitRecord)
    requires DebitTrue(s, r) && LedgerGrows(s, t) && RowEvolves(s, t, r.id)
    ensures DebitTrue(t, r)
  {
  }

  /** One more true debit, of a row whose key was not in the ledger before. */
  lemma RecordKeepsKeyed(s: State, t: State, r: DebitRecord)
    requires KeyedInv(s) && t.rows == s.rows && LedgerGrows(s, t) && t.debits == s.debits + [r] && DebitTrue(t, r)
    requires s.rows[r.id].key != "" ==> !KeyUsed(s.db, s.rows[r.id].key)
    ensures KeyedInv(t)
  {
    forall k | 0 <= k < |t.debits| ensures DebitTrue(t, t.debits[k]) {
      if k < |s.debits| {
        TrueStays(s, t, s.debits[k]);
      }
    }
    forall k | 0 <= k < |s.debits| ensures s.debits[k].id != r.id || s.rows[r.id].key == "" {
      assert DebitTrue(s, s.debits[k]);
    }
    forall id | id in t.rows && t.rows[id].key != "" ensures AtMostOnce(t, id) {
      assert AtMostOnce(s, id);
    }
  }

  lemma SameDebitsKeyed(s: State, t: State)
    requires KeyedInv(s) && t.rows == s.rows && LedgerGrows(s, t) && t.debits == s.debits
    ensures KeyedInv(t)
  {
    forall k | 0 <= k < |t.debits| ensures DebitTrue(t, t.debits[k]) {
      TrueStays(s, t, s.debits[k]);
    }
    forall id | id in t.rows && t.rows[id].key != "" ensures AtMostOnce(t, id) {
      assert AtMostOnce(s, id);
    }
  }

  lemma CommitRecords(s: State, a: nat, txHash: string, reply: Reply)
    requires ClaimInv(s) && a < |s.pcs| && s.pcs[a].Busy? && s.pcs[a].stage.Sent?
    ensures var t := DoDebit(s, a, txHash, reply);
            && LedgerGrows(s, t)
            && (|| t.debits == s.debits
                || (&& |t.debits| == |s.debits| + 1 && t.debits == s.debits + [t.debits[|s.debits|]]
                    && DebitTrue(t, t.debits[|s.debits|])
                    && (var id := t.debits[|s.debits|].id; s.rows[id].key != "" ==> !KeyUsed(s.db, s.rows[id].key))))
  {
    var r := DebitRequest(s.pcs[a].job, txHash);
    assert HoldsClaim(s, s.pcs[a]);
    ApplyGrows(s, r);
    Conservation.ApplyTxns(s.db, r);
    Conservation.ApplyKeepsKeys(s.db, r, r.key);
  }

  lemma DebitKeepsKeyed(s: State, a: nat, txHash: string, reply: Reply)
    requires ClaimInv(s) && KeyedInv(s) && a < |s.pcs| && s.pcs[a].Busy? && s.pcs[a].stage.Sent?
    ensures KeyedInv(DoDebit(s, a, txHash, reply))
  {
    var t := DoDebit(s, a, txHash, reply);
    CommitRecords(s, a, txHash, reply);
    if t.debits == s.debits {
      SameDebitsKeyed(s, t);
    } else {
      RecordKeepsKeyed(s, t, t.debits[|s.debits|]);
    }
  }

  lemma ActKeepsKeyed(env: Env, s: State, act: Action)
    requires ClaimInv(s) && KeyedInv(s)
    ensures KeyedInv(Act(env, s, act))
  {
    var t := Act(env, s, act);
    if act.Debit? {
      if t != s {
        DebitKeepsKeyed(s, act.a, act.txHash, act.reply);
      }
    } else {
      ActGrows(env, s, act);
      forall k | 0 <= k < |t.debits| ensures DebitTrue(t, t.debits[k]) {
        ActFollowsLifecycle(env, s, act, s.debits[k].id);
        TrueStays(s, t, s.debits[k]);
      }
      forall id | id in t.rows && t.rows[id].key != "" ensures AtMostOnce(t, id) {
        ActFollowsLifecycle(env, s, act, id);
        if id !in s.rows {
          NewRowNotDebited(s, id);
        }
      }
    }
  }

  lemma NewRowNotDebited(s: State, id: nat)
    requires KeyedInv(s) && id !in s.rows
    ensures !Debited(s, id)
  {
    forall k | 0 <= k < |s.debits| ensures s.debits[k].id != id {
      assert DebitTrue(s, s.debits[k]);
    }
  }

  /** In every run, lost replies included, an elevation with a key is debited at most once. */
  lemma {:induction false} KeyedDebitedAtMostOnce(env: Env, s: State, acts: seq<Action>)
    requires Initial(s)
    ensures KeyedInv(Run(env, s, acts))
    decreases |acts|
  {
    if acts != [] {
      var before := acts[..|acts| - 1];
      RunClaims(env, s, before);
      KeyedDebitedAtMostOnce(env, s, before);
      ActKeepsKeyed(env, Run(env, s, before), acts[|acts| - 1]);
    }
  }

  // ---- Strict mode ----

  /** At some point of the run the chain said `owner` owns `clone`, at time `at`. */
  ghost predicate Seen(env: Env, s: State, acts: seq<Action>, clone: Address, owner: Address, at: int) {
    exists k :: 0 <= k <= |acts| && OwnedAt(Run(env, s, acts[..k]), clone, owner, at)
  }

  predicate OwnedAt(t: State, clone: Address, owner: Address, at: int) {
    t.now == at && clone in t.owners && t.owners[clone] == owner
  }

  predicate OwnClone(t: State, user: string, clone: Address) {
    user in t.clones && t.clones[user] == clone
  }

  ghost predicate StageOk(env: Env, s: State, acts: seq<Action>, t: State, pc: Pc) {
    pc.Busy? ==>
      match pc.stage
      case OwnerRead(_, clone, owner, at) =>
        OwnClone(t, pc.job.user, clone) && FreshSig(pc.job.sig, at) && Seen(env, s, acts, clone, owner, at)
      case Built(relay, owner, at) =>
        && OwnClone(t, pc.job.user, relay.clone) && Authorised(env, relay, owner)
        && relay.to == pc.job.dest && relay.deadline == pc.job.sig.deadline
        && FreshSig(pc.job.sig, at) && Seen(env, s, acts, relay.clone, owner, at)
      case _ => true
  }

  /** A user-signed relay from the user's own clone, unexpired and signed by its owner when checked. */
  ghost predicate EventOk(env: Env, s: State, acts: seq<Action>, t: State, e: Event) {
    && e.UserRelay? && OwnClone(t, e.user, e.relay.clone) && Authorised(env, e.relay, e.owner)
    && 0 < e.relay.deadline && e.at <= e.relay.deadline && Seen(env, s, acts, e.relay.clone, e.owner, e.at)
  }

  ghost predicate StrictInv(env: Env, s: State, acts: seq<Action>) {
    var t := Run(env, s, acts);
    && (forall a :: 0 <= a < |t.pcs| ==> StageOk(env, s, acts, t, t.pcs[a]))
    && (forall k :: 0 <= k < |t.log| ==> EventOk(env, s, acts, t, t.log[k]))
  }

  lemma SeenLater(env: Env, s: State, acts: seq<Action>, clone: Address, owner: Address, at: int)
    requires acts != [] && Seen(env, s, acts[..|acts| - 1], clone, owner, at)
    ensures Seen(env, s, acts, clone, owner, at)
  {
    var before := acts[..|acts| - 1];
    var k :| 0 <= k <= |before| && OwnedAt(Run(env, s, before[..k]), clone, owner, at);
    assert before[..k] == acts[..k];
  }

  lemma SeenNow(env: Env, s: State, acts: seq<Action>, clone: Address, owner: Address)
    requires acts != []
    requires var t := Run(env, s, acts[..|acts| - 1]); clone in t.owners && t.owners[clone] == owner
    ensures Seen(env, s, acts, clone, owner, Run(env, s, acts[..|acts| - 1]).now)
  {
    var k := |acts| - 1;
    assert OwnedAt(Run(env, s, acts[..k]), clone, owner, Run(env, s, acts[..k]).now);
  }

  /** Clone rows are only ever added. */
  lemma ClonesStay(env: Env, t: State, act: Action)
    ensures forall user, clone :: OwnClone(t, user, clone) ==> OwnClone(Act(env, t, act), user, clone)
  {
    if InJob(act) {
      JobShape(env, t, act);
    }
  }

  lemma StageLater(env: Env, s: State, acts: seq<Action>, t: State, t': State, pc: Pc)
    requires acts != [] && StageOk(env, s, acts[..|acts| - 1], t, pc)
    requires forall user, clone :: OwnClone(t, user, clone) ==> OwnClone(t', user, clone)
    ensures StageOk(env, s, acts, t', pc)
  {
    if pc.Busy? {
      match pc.stage {
        case OwnerRead(_, clone, owner, at) => SeenLater(env, s, acts, clone, owner, at);
        case Built(relay, owner, at) => SeenLater(env, s, acts, relay.clone, owner, at);
        case _ =>
      }
    }
  }

  lemma EventLater(env: Env, s: State, acts: seq<Action>, t: State, t': State, e: Event)
    requires acts != [] && EventOk(env, s, acts[..|acts| - 1], t, e)
    requires forall user, clone :: OwnClone(t, user, clone) ==> OwnClone(t', user, clone)
    ensures EventOk(env, s, acts, t', e)
  {
    SeenLater(env, s, acts, e.relay.clone, e.owner, e.at);
  }

  /** Every other step leaves what was sent alone and no new signature in hand. */
  ghost predicate Harmless(t: State, t': State) {
    && t'.log == t.log && |t'.pcs| == |t.pcs|
    && forall b :: 0 <= b < |t.pcs| ==> t'.pcs[b] == t.pcs[b] || Unchecked(t'.pcs[b])
  }

  lemma MostStepsHarmless(env: Env, t: State, act: Action)
    requires !act.Route? && !act.Verify? && !act.Send?
    ensures Harmless(t, Act(env, t, act))
  {
    if Outside(act) {
    } else if InJob(act) {
      assert Act(env, t, act) == t || OnlyAgent(t, act.a, Act(env, t, act));
    } else {
      SweeperHarmless(env, t, act);
    }
  }

  lemma SweeperHarmless(env: Env, t: State, act: Action)
    requires !Outside(act) && !InJob(act)
    ensures Harmless(t, Act(env, t, act))
  {
    assert Act(env, t, act) == t || OnlyAgent(t, act.a, Act(env, t, act));
  }

  lemma HarmlessKeepsStrict(env: Env, s: State, acts: seq<Action>)
    requires acts != [] && StrictInv(env, s, acts[..|acts| - 1])
    requires Harmless(Run(env, s, acts[..|acts| - 1]), Run(env, s, acts))
    ensures StrictInv(env, s, acts)
  {
    var t, t' := Run(env, s, acts[..|acts| - 1]), Run(env, s, acts);
    ClonesStay(env, t, acts[|acts| - 1]);
    forall b | 0 <= b < |t'.pcs| ensures StageOk(env, s, acts, t', t'.pcs[b]) {
      if t'.pcs[b] == t.pcs[b] {
        StageLater(env, s, acts, t, t', t.pcs[b]);
      }
    }
    forall k | 0 <= k < |t'.log| ensures EventOk(env, s, acts, t', t'.log[k]) {
      EventLater(env, s, acts, t, t', t.log[k]);
    }
  }

  /** At most one event was sent, and it is in order. */
  ghost predicate OneMore(env: Env, s: State, acts: seq<Action>, t: State, t': State) {
    || t'.log == t.log
    || (|t'.log| == |t.log| + 1 && t'.log[..|t.log|] == t.log && EventOk(env, s, acts, t', t'.log[|t.log|]))
  }

  /** A checked step of agent a: everyone else as in a harmless step, and a's new stage is in order. */
  lemma AgentKeepsStrict(env: Env, s: State, acts: seq<Action>, a: nat, t: State, t': State)
    requires acts != [] && StrictInv(env, s, acts[..|acts| - 1])
    requires t == Run(env, s, acts[..|acts| - 1]) && t' == Run(env, s, acts)
    requires OnlyStage(t, a, t') && StageOk(env, s, acts, t', t'.pcs[a]) && OneMore(env, s, acts, t, t')
    ensures StrictInv(env, s, acts)
  {
    forall b | 0 <= b < |t'.pcs| ensures StageOk(env, s, acts, t', t'.pcs[b]) {
      if b != a {
        StageLater(env, s, acts, t, t', t.pcs[b]);
      }
    }
    EventsLater(env, s, acts, t, t');
  }

  lemma EventsLater(env: Env, s: State, acts: seq<Action>, t: State, t': State)
    requires acts != [] && t'.clones == t.clones && OneMore(env, s, acts, t, t')
    requires forall k :: 0 <= k < |t.log| ==> EventOk(env, s, acts[..|acts| - 1], t, t.log[k])
    ensures forall k :: 0 <= k < |t'.log| ==> EventOk(env, s, acts, t', t'.log[k])
  {
    forall k | 0 <= k < |t'.log| ensures EventOk(env, s, acts, t', t'.log[k]) {
      EventLaterAt(env, s, acts, t, t', k);
    }
  }

  lemma EventLaterAt(env: Env, s: State, acts: seq<Action>, t: State, t': State, k: nat)
    requires acts != [] && t'.clones == t.clones && OneMore(env, s, acts, t, t') && k < |t'.log|
    requires k < |t.log| ==> EventOk(env, s, acts[..|acts| - 1], t, t.log[k])
    ensures EventOk(env, s, acts, t', t'.log[k])
  {
    if k < |t.log| {
      assert t'.log[k] == t.log[k];
      EventLater(env, s, acts, t, t', t.log[k]);
    }
  }

  /** In strict mode routing sends nothing, and goes on only with a fresh signature and the owner just read. */
  lemma StrictRoute(env: Env, s: State, a: nat, ok: bool)
    requires env.strict && a < |s.pcs| && s.pcs[a].Busy? && s.pcs[a].stage.Prechecked?
    ensures var t := DoRoute(env, s, a, ok);
            && t.log == s.log
            && (t.pcs[a].stage.Failed? ||
                (t.pcs[a].stage.OwnerRead? && (var st := t.pcs[a].stage;
                  && OwnClone(t, t.pcs[a].job.user, st.clone) && FreshSig(t.pcs[a].job.sig, st.at)
                  && OwnedAt(t, st.clone, st.owner, st.at))))
  {
  }

  lemma RouteKeepsStrict(env: Env, s: State, acts: seq<Action>)
    requires env.strict && acts != [] && acts[|acts| - 1].Route? && StrictInv(env, s, acts[..|acts| - 1])
    requires Run(env, s, acts) != Run(env, s, acts[..|acts| - 1])
    ensures StrictInv(env, s, acts)
  {
    var t, t', act := Run(env, s, acts[..|acts| - 1]), Run(env, s, acts), acts[|acts| - 1];
    StrictRoute(env, t, act.a, act.ok);
    var st := t'.pcs[act.a].stage;
    if st.OwnerRead? {
      SeenNow(env, s, acts, st.clone, st.owner);
    }
    AgentKeepsStrict(env, s, acts, act.a, t, t');
  }

  lemma VerifyKeepsStrict(env: Env, s: State, acts: seq<Action>)
    requires acts != [] && acts[|acts| - 1].Verify? && StrictInv(env, s, acts[..|acts| - 1])
    requires Run(env, s, acts) != Run(env, s, acts[..|acts| - 1])
    ensures StrictInv(env, s, acts)
  {
    var t, act := Run(env, s, acts[..|acts| - 1]), acts[|acts| - 1];
    var st := t.pcs[act.a].stage;
    assert StageOk(env, s, acts[..|acts| - 1], t, t.pcs[act.a]);
    SeenLater(env, s, acts, st.clone, st.owner, st.at);
    AgentKeepsStrict(env, s, acts, act.a, t, Run(env, s, acts));
  }

  lemma SendKeepsStrict(env: Env, s: State, acts: seq<Action>)
    requires acts != [] && acts[|acts| - 1].Send? && StrictInv(env, s, acts[..|acts| - 1])
    requires Run(env, s, acts) != Run(env, s, acts[..|acts| - 1])
    ensures StrictInv(env, s, acts)
  {
    var t, act := Run(env, s, acts[..|acts| - 1]), acts[|acts| - 1];
    var st := t.pcs[act.a].stage;
    assert StageOk(env, s, acts[..|acts| - 1], t, t.pcs[act.a]);
    SeenLater(env, s, acts, st.relay.clone, st.owner, st.at);
    AgentKeepsStrict(env, s, acts, act.a, t, Run(env, s, acts));
  }

  /**
   In strict mode, over every run of immediate requests, elevations and
   sweeps, all that ever reaches the chain is a withdrawWithSig relay from the
   requesting user's own clone, whose signature had not expired and recovered,
   over exactly the relayed destination, amount, nonce and deadline, to the
   owner the chain reported for that clone at that moment.
   */
  lemma {:induction false} StrictRelaysOnly(env: Env, s: State, acts: seq<Action>)
    requires env.strict && Initial(s)
    ensures StrictInv(env, s, acts)
    decreases |acts|
  {
    if acts != [] {
      var before, act := acts[..|acts| - 1], acts[|acts| - 1];
      StrictRelaysOnly(env, s, before);
      if Run(env, s, acts) == Run(env, s, before) {
        HarmlessKeepsStrict(env, s, acts);
      } else if act.Route? {
        RouteKeepsStrict(env, s, acts);
      } else if act.Verify? {
        VerifyKeepsStrict(env, s, acts);
      } else if act.Send? {
        SendKeepsStrict(env, s, acts);
      } else {
        MostStepsHarmless(env, Run(env, s, before), act);
        HarmlessKeepsStrict(env, s, acts);
      }
    }
  }
}
