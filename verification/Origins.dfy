/**
 Where rows, jobs and transfers come from: over every run, in strict mode or
 not, everything that reaches the chain answers a request, goes where that
 request said, for the amount it was signed or converted to, after a balance
 check, and from the user's own clone when there is one.
 */
module Origins {
  import opened Int64
  import opened Withdrawals
  import Eip712
  import Ledger
  import Solvency

  // ---- Requests ----

  /** The action asks for exactly this job; amounts up to the threshold at once, larger ones through a row. */
  predicate Asks(env: Env, act: Action, job: Job) {
    || (&& act.Immediate? && act.amount > 0 && !(env.threshold > 0 && act.amount > env.threshold)
        && job == Job(act.user, act.dest, act.amount, act.fee, act.sig, act.key, Ledger.None))
    || (&& act.RequestElevation? && env.threshold > 0 && act.amount > env.threshold
        && job == Job(act.user, act.dest, act.amount, act.fee, act.sig, act.key, Ledger.Some(act.id)))
  }

  ghost predicate Requested(env: Env, acts: seq<Action>, job: Job) {
    exists k :: 0 <= k < |acts| && Asks(env, acts[k], job)
  }

  /** In state t the action creates the row: it is covered, its signature is fresh, and it is due after the delay. */
  predicate Creates(env: Env, t: State, act: Action, id: nat, row: Row) {
    && act.RequestElevation? && act.id == id && Asks(env, act, JobOf(id, row))
    && row.releaseAfter == t.now + env.delay
    && Solvency.Sufficient(t.db, act.user, Wrap(act.amount + act.fee))
    && (act.sig.raw != [] ==> 0 < act.sig.deadline && t.now <= act.sig.deadline)
  }

  ghost predicate RowFrom(env: Env, s: State, acts: seq<Action>, id: nat, row: Row) {
    exists k :: 0 <= k < |acts| && Creates(env, Run(env, s, acts[..k]), acts[k], id, row)
  }

  // ---- Checks ----

  /** In state t the action finds principal and fee covered and converts the principal at its rate. */
  predicate Passes(t: State, act: Action, job: Job, usdc: int) {
    && act.Precheck? && act.ok && act.rate > 0 && usdc > 0 && usdc == Wrap(job.amount * 1_000_000 / act.rate)
    && Solvency.Sufficient(t.db, job.user, Wrap(job.amount + job.fee))
    && (act.lookupOk ==> !Ledger.KeyUsed(t.db, job.key))
  }

  ghost predicate Checked(env: Env, s: State, acts: seq<Action>, job: Job, usdc: int) {
    exists k :: 0 <= k < |acts| && Passes(Run(env, s, acts[..k]), acts[k], job, usdc)
  }

  // ---- Routes ----

  /** At some point of the run the clone was the user's. */
  ghost predicate HadClone(env: Env, s: State, acts: seq<Action>, user: string, clone: Eip712.Address) {
    exists m :: 0 <= m <= |acts| && OwnClone(Run(env, s, acts[..m]), user, clone)
  }

  /** The nonce to relay: the signed one, or the chain's when none was signed. */
  ghost predicate NonceFor(env: Env, s: State, acts: seq<Action>, sig: Sig, relay: Relay) {
    if sig.nonce != 0 then relay.nonce == sig.nonce
    else exists m :: 0 <= m <= |acts| && relay.nonce == NonceOf(Run(env, s, acts[..m]), relay.clone)
  }

  /** At time `at`, with the signature not expired, the user's clone belonged to `owner`. */
  ghost predicate OwnerKnown(env: Env, s: State, acts: seq<Action>, job: Job, clone: Eip712.Address,
                             owner: Eip712.Address, at: int) {
    && job.sig.raw != [] && 0 < job.sig.deadline && at <= job.sig.deadline
    && HadClone(env, s, acts, job.user, clone) && Seen(env, s, acts, clone, owner, at)
  }

  /** The relay carries what was signed: destination, deadline, nonce, and the signed amount if there is one. */
  ghost predicate Carries(env: Env, s: State, acts: seq<Action>, job: Job, usdc: int, relay: Relay) {
    && relay.raw == job.sig.raw && relay.to == job.dest && relay.deadline == job.sig.deadline
    && relay.amount == (if job.sig.amountBase > 0 then job.sig.amountBase else usdc)
    && NonceFor(env, s, acts, job.sig, relay)
  }

  /** ... and the clone's owner signed exactly that. */
  ghost predicate SignedFor(env: Env, s: State, acts: seq<Action>, job: Job, usdc: int, relay: Relay,
                            owner: Eip712.Address, at: int) {
    && Carries(env, s, acts, job, usdc, relay) && OwnerKnown(env, s, acts, job, relay.clone, owner, at)
    && Authorised(env, relay, owner)
  }

  /** The platform may sign: the clone is the user's, and its owner is the vault or not known. */
  predicate PlatformHeld(env: Env, t: State, user: string, clone: Eip712.Address) {
    OwnClone(t, user, clone) && (clone in t.owners ==> t.owners[clone] == env.vault)
  }

  /** What a job without a signature may send as clones and owners stand, and never in strict mode. */
  predicate SendsUnsigned(env: Env, t: State, job: Job, usdc: int, e: Event) {
    && job.sig.raw == [] && !env.strict
    && match e
       case UserRelay(_, _, _, _) => false
       case PlatformRelay(user, clone, to, amount) =>
         user == job.user && to == job.dest && amount == usdc && PlatformHeld(env, t, user, clone)
       case SharedTransfer(user, to, amount) =>
         user == job.user && to == job.dest && amount == usdc && user !in t.clones
  }

  ghost predicate Sends(env: Env, s: State, acts: seq<Action>, t: State, job: Job, usdc: int, e: Event) {
    if e.UserRelay? then e.user == job.user && SignedFor(env, s, acts, job, usdc, e.relay, e.owner, e.at)
    else SendsUnsigned(env, t, job, usdc, e)
  }

  /** The agent that takes the step is on this job. */
  predicate OnJob(t: State, act: Action, job: Job) {
    (act.Route? || act.Send?) && IsBusy(t, act.a) && t.pcs[act.a].job == job
  }

  /** The run's step m sends the event, as entry k, for a job that was requested and checked before. */
  ghost predicate SentAt(env: Env, s: State, acts: seq<Action>, m: nat, k: nat, e: Event)
    requires m < |acts|
  {
    var t := Run(env, s, acts[..m]);
    && |t.log| == k && Run(env, s, acts[..m + 1]).log == t.log + [e]
    && exists job, usdc ::
         && Requested(env, acts[..m], job) && Checked(env, s, acts[..m], job, usdc)
         && OnJob(t, acts[m], job) && Sends(env, s, acts[..m], t, job, usdc, e)
  }

  ghost predicate EventFrom(env: Env, s: State, acts: seq<Action>, k: nat, e: Event) {
    exists m :: 0 <= m < |acts| && SentAt(env, s, acts, m, k, e)
  }

  /** The step debits principal and fee for the job. */
  predicate Debits(t: State, t': State, act: Action, job: Job) {
    && act.Debit?
    && var (d, o) := Ledger.Apply(t.db, Ledger.WithdrawExternal(job.user, Ledger.AVAILABLE, "NGN", "withdrawal",
                                                                job.amount, job.fee, act.txHash, job.key));
       t'.db == d && !o.Rejected?
  }

  /** At some step of the run the job was debited, or its key was found to be in the ledger. */
  ghost predicate Charged(env: Env, s: State, acts: seq<Action>, job: Job) {
    exists m :: 0 <= m < |acts| && Charges(Run(env, s, acts[..m]), Run(env, s, acts[..m + 1]), acts[m], job)
  }

  predicate Charges(t: State, t': State, act: Action, job: Job) {
    Ledger.KeyUsed(t.db, job.key) || Debits(t, t', act, job)
  }

  ghost predicate StageFrom(env: Env, s: State, acts: seq<Action>, pc: Pc) {
    pc.Busy? ==>
      && Requested(env, acts, pc.job)
      && match pc.stage
         case Prechecked(usdc) => Checked(env, s, acts, pc.job, usdc)
         case OwnerRead(usdc, clone, owner, at) =>
           Checked(env, s, acts, pc.job, usdc) && OwnerKnown(env, s, acts, pc.job, clone, owner, at)
         case Built(relay, owner, at) =>
           exists usdc :: Checked(env, s, acts, pc.job, usdc) && SignedFor(env, s, acts, pc.job, usdc, relay, owner, at)
         case Done => Charged(env, s, acts, pc.job)
         case _ => true
  }

  ghost predicate RowsFrom(env: Env, s: State, acts: seq<Action>, t: State) {
    forall id <- t.rows :: RowFrom(env, s, acts, id, t.rows[id])
  }

  ghost predicate StagesFrom(env: Env, s: State, acts: seq<Action>, t: State) {
    forall a :: 0 <= a < |t.pcs| ==> StageFrom(env, s, acts, t.pcs[a])
  }

  ghost predicate LogFrom(env: Env, s: State, acts: seq<Action>, t: State) {
    forall k :: 0 <= k < |t.log| ==> EventFrom(env, s, acts, k, t.log[k])
  }

  /** Every row, job and event of the state the run reaches has its origin in the run. */
  ghost predicate OriginInv(env: Env, s: State, acts: seq<Action>) {
    var t := Run(env, s, acts);
    RowsFrom(env, s, acts, t) && StagesFrom(env, s, acts, t) && LogFrom(env, s, acts, t)
  }

  // ---- What was true of a run stays true of a longer one ----

  /** `acts` goes on where `before` ends. */
  predicate Extends(before: seq<Action>, acts: seq<Action>) {
    |acts| == |before| + 1 && acts[..|before|] == before
  }

  lemma Prefix(before: seq<Action>, acts: seq<Action>, k: nat)
    requires Extends(before, acts) && k <= |before|
    ensures acts[..k] == before[..k] && (k < |before| ==> acts[k] == before[k])
  {
    assert acts[..k] == acts[..|before|][..k];
    assert k < |before| ==> acts[k] == acts[..|before|][k];
  }

  lemma RequestedLater(env: Env, before: seq<Action>, acts: seq<Action>, job: Job)
    requires Extends(before, acts) && Requested(env, before, job)
    ensures Requested(env, acts, job)
  {
    var k :| 0 <= k < |before| && Asks(env, before[k], job);
    Prefix(before, acts, k);
    assert Asks(env, acts[k], job);
  }

  lemma RowLater(env: Env, s: State, before: seq<Action>, acts: seq<Action>, id: nat, row: Row, row': Row)
    requires Extends(before, acts) && RowFrom(env, s, before, id, row) && row' == row.(status := row'.status)
    ensures RowFrom(env, s, acts, id, row')
  {
    var k :| 0 <= k < |before| && Creates(env, Run(env, s, before[..k]), before[k], id, row);
    Prefix(before, acts, k);
    assert Creates(env, Run(env, s, acts[..k]), acts[k], id, row');
  }

  lemma CheckedLater(env: Env, s: State, before: seq<Action>, acts: seq<Action>, job: Job, usdc: int)
    requires Extends(before, acts) && Checked(env, s, before, job, usdc)
    ensures Checked(env, s, acts, job, usdc)
  {
    var k :| 0 <= k < |before| && Passes(Run(env, s, before[..k]), before[k], job, usdc);
    Prefix(before, acts, k);
    assert Passes(Run(env, s, acts[..k]), acts[k], job, usdc);
  }

  lemma HadCloneLater(env: Env, s: State, before: seq<Action>, acts: seq<Action>, user: string, clone: Eip712.Address)
    requires Extends(before, acts) && HadClone(env, s, before, user, clone)
    ensures HadClone(env, s, acts, user, clone)
  {
    var m :| 0 <= m <= |before| && OwnClone(Run(env, s, before[..m]), user, clone);
    Prefix(before, acts, m);
    assert OwnClone(Run(env, s, acts[..m]), user, clone);
  }

  lemma OwnerKnownLater(env: Env, s: State, before: seq<Action>, acts: seq<Action>, job: Job, clone: Eip712.Address,
                        owner: Eip712.Address, at: int)
    requires Extends(before, acts) && OwnerKnown(env, s, before, job, clone, owner, at)
    ensures OwnerKnown(env, s, acts, job, clone, owner, at)
  {
    HadCloneLater(env, s, before, acts, job.user, clone);
    SeenLater(env, s, acts, clone, owner, at);
  }

  lemma SignedLater(env: Env, s: State, before: seq<Action>, acts: seq<Action>, job: Job, usdc: int, relay: Relay,
                    owner: Eip712.Address, at: int)
    requires Extends(before, acts) && SignedFor(env, s, before, job, usdc, relay, owner, at)
    ensures SignedFor(env, s, acts, job, usdc, relay, owner, at)
  {
    OwnerKnownLater(env, s, before, acts, job, relay.clone, owner, at);
    if job.sig.nonce == 0 {
      var m :| 0 <= m <= |before| && relay.nonce == NonceOf(Run(env, s, before[..m]), relay.clone);
      Prefix(before, acts, m);
      assert relay.nonce == NonceOf(Run(env, s, acts[..m]), relay.clone);
    }
  }

  lemma EventFromLater(env: Env, s: State, before: seq<Action>, acts: seq<Action>, k: nat, e: Event)
    requires Extends(before, acts) && EventFrom(env, s, before, k, e)
    ensures EventFrom(env, s, acts, k, e)
  {
    var m :| 0 <= m < |before| && SentAt(env, s, before, m, k, e);
    Prefix(before, acts, m);
    Prefix(before, acts, m + 1);
    assert SentAt(env, s, acts, m, k, e);
  }

  lemma ChargedLater(env: Env, s: State, before: seq<Action>, acts: seq<Action>, job: Job)
    requires Extends(before, acts) && Charged(env, s, before, job)
    ensures Charged(env, s, acts, job)
  {
    var m :| 0 <= m < |before| && Charges(Run(env, s, before[..m]), Run(env, s, before[..m + 1]), before[m], job);
    Prefix(before, acts, m);
    Prefix(before, acts, m + 1);
    assert Charges(Run(env, s, acts[..m]), Run(env, s, acts[..m + 1]), acts[m], job);
  }

  lemma ChargedNow(env: Env, s: State, before: seq<Action>, acts: seq<Action>, t: State, t': State, job: Job)
    requires Extends(before, acts) && t == Run(env, s, before) && t' == Run(env, s, acts)
    requires Charges(t, t', acts[|before|], job)
    ensures Charged(env, s, acts, job)
  {
    var m := |before|;
    assert acts[..m] == before && acts[..m + 1] == acts;
    assert Charges(Run(env, s, acts[..m]), Run(env, s, acts[..m + 1]), acts[m], job);
  }

  lemma StageFromLater(env: Env, s: State, before: seq<Action>, acts: seq<Action>, pc: Pc)
    requires Extends(before, acts) && StageFrom(env, s, before, pc)
    ensures StageFrom(env, s, acts, pc)
  {
    if pc.Busy? {
      RequestedLater(env, before, acts, pc.job);
      match pc.stage {
        case Prechecked(usdc) => CheckedLater(env, s, before, acts, pc.job, usdc);
        case OwnerRead(usdc, clone, owner, at) =>
          CheckedLater(env, s, before, acts, pc.job, usdc);
          OwnerKnownLater(env, s, before, acts, pc.job, clone, owner, at);
        case Built(relay, owner, at) =>
          var usdc :|
            Checked(env, s, before, pc.job, usdc) && SignedFor(env, s, before, pc.job, usdc, relay, owner, at);
          CheckedLater(env, s, before, acts, pc.job, usdc);
          SignedLater(env, s, before, acts, pc.job, usdc, relay, owner, at);
        case Done => ChargedLater(env, s, before, acts, pc.job);
        case _ =>
      }
    }
  }

  // ---- Steps ----

  ghost predicate SameRows(env: Env, s: State, acts: seq<Action>, t: State, t': State) {
    forall id <- t'.rows ::
      || (id in t.rows && t'.rows[id] == t.rows[id].(status := t'.rows[id].status))
      || RowFrom(env, s, acts, id, t'.rows[id])
  }

  ghost predicate OneMoreEvent(env: Env, s: State, acts: seq<Action>, t: State, t': State) {
    || t'.log == t.log
    || (|t'.log| == |t.log| + 1 && t'.log[..|t.log|] == t.log && EventFrom(env, s, acts, |t.log|, t'.log[|t.log|]))
  }

  lemma CombineRows(env: Env, s: State, before: seq<Action>, acts: seq<Action>, t: State, t': State)
    requires Extends(before, acts) && RowsFrom(env, s, before, t) && SameRows(env, s, acts, t, t')
    ensures RowsFrom(env, s, acts, t')
  {
    forall id | id in t'.rows ensures RowFrom(env, s, acts, id, t'.rows[id]) {
      if id in t.rows && t'.rows[id] == t.rows[id].(status := t'.rows[id].status) {
        RowLater(env, s, before, acts, id, t.rows[id], t'.rows[id]);
      }
    }
  }

  lemma CombineStages(env: Env, s: State, before: seq<Action>, acts: seq<Action>, t: State, t': State, a: nat)
    requires Extends(before, acts) && StagesFrom(env, s, before, t)
    requires |t'.pcs| == |t.pcs| && forall b :: 0 <= b < |t.pcs| && b != a ==> t'.pcs[b] == t.pcs[b]
    requires a < |t'.pcs| ==> StageFrom(env, s, acts, t'.pcs[a])
    ensures StagesFrom(env, s, acts, t')
  {
    forall b | 0 <= b < |t'.pcs| ensures StageFrom(env, s, acts, t'.pcs[b]) {
      if b != a {
        StageFromLater(env, s, before, acts, t.pcs[b]);
      }
    }
  }

  lemma LogLater(env: Env, s: State, before: seq<Action>, acts: seq<Action>, t: State)
    requires Extends(before, acts) && LogFrom(env, s, before, t)
    ensures LogFrom(env, s, acts, t)
  {
    forall k | 0 <= k < |t.log| ensures EventFrom(env, s, acts, k, t.log[k]) {
      EventFromLater(env, s, before, acts, k, t.log[k]);
    }
  }

  /** What holds of every entry of a log and of the one added to it holds of all. */
  lemma AllWithOneMore(p: (nat, Event) -> bool, log: seq<Event>, log': seq<Event>)
    requires forall k :: 0 <= k < |log| ==> p(k, log[k])
    requires log' == log || (|log'| == |log| + 1 && log'[..|log|] == log && p(|log|, log'[|log|]))
    ensures forall k :: 0 <= k < |log'| ==> p(k, log'[k])
  {
    forall k | 0 <= k < |log'| ensures p(k, log'[k]) {
      assert k < |log| ==> log'[k] == log[k];
    }
  }

  lemma CombineLog(env: Env, s: State, acts: seq<Action>, t: State, t': State)
    requires LogFrom(env, s, acts, t) && OneMoreEvent(env, s, acts, t, t')
    ensures LogFrom(env, s, acts, t')
  {
    AllWithOneMore((k: nat, e: Event) => EventFrom(env, s, acts, k, e), t.log, t'.log);
  }

  /** A step in which only agent a moves, rows change only their status or are new, and at most one event is sent. */
  lemma Combine(env: Env, s: State, before: seq<Action>, acts: seq<Action>, t: State, t': State, a: nat)
    requires Extends(before, acts) && OriginInv(env, s, before) && t == Run(env, s, before) && t' == Run(env, s, acts)
    requires SameRows(env, s, acts, t, t') && OneMoreEvent(env, s, acts, t, t')
    requires |t'.pcs| == |t.pcs| && forall b :: 0 <= b < |t.pcs| && b != a ==> t'.pcs[b] == t.pcs[b]
    requires a < |t'.pcs| ==> StageFrom(env, s, acts, t'.pcs[a])
    ensures OriginInv(env, s, acts)
  {
    CombineRows(env, s, before, acts, t, t');
    CombineStages(env, s, before, acts, t, t', a);
    LogLater(env, s, before, acts, t);
    CombineLog(env, s, acts, t, t');
  }

  /** The last action happens in the state the run had reached. */
  lemma LastStep(env: Env, s: State, before: seq<Action>, acts: seq<Action>)
    requires Extends(before, acts)
    ensures acts[..|before|] == before && Run(env, s, acts) == Act(env, Run(env, s, before), acts[|before|])
  {
  }

  /** No row is added or lost, and at most statuses changed. */
  predicate StatusOnly(s: State, t: State) {
    t.rows.Keys == s.rows.Keys && forall id <- t.rows :: t.rows[id] == s.rows[id].(status := t.rows[id].status)
  }

  /** From outside only a request adds a row, and nothing moves an agent or is sent. */
  lemma OutsideShape(env: Env, t: State, t': State, act: Action)
    requires t' == Act(env, t, act) && Outside(act)
    ensures t'.pcs == t.pcs && t'.log == t.log
    ensures forall id <- t'.rows :: id in t.rows ==> t'.rows[id] == t.rows[id].(status := t'.rows[id].status)
    ensures forall id <- t'.rows :: id !in t.rows ==> Creates(env, t, act, id, t'.rows[id])
  {
    if act.RequestElevation? {
      RequestShape(env, t, t', act);
    } else {
      OtherOutsideShape(env, t, t', act);
    }
  }

  lemma OtherOutsideShape(env: Env, t: State, t': State, act: Action)
    requires t' == Act(env, t, act) && Outside(act) && !act.RequestElevation?
    ensures t'.pcs == t.pcs && t'.log == t.log && StatusOnly(t, t')
  {
    if act.Foreign? {
      assert t'.rows == t.rows && t'.pcs == t.pcs && t'.log == t.log;
    }
  }

  lemma RequestShape(env: Env, t: State, t': State, act: Action)
    requires act.RequestElevation? && t' == DoRequest(env, t, act)
    ensures t'.pcs == t.pcs && t'.log == t.log
    ensures forall id <- t'.rows :: id in t.rows ==> t'.rows[id] == t.rows[id]
    ensures forall id <- t'.rows :: id !in t.rows ==> Creates(env, t, act, id, t'.rows[id])
  {
  }

  lemma OutsideOrigins(env: Env, s: State, before: seq<Action>, acts: seq<Action>, t: State, t': State, act: Action)
    requires Extends(before, acts) && OriginInv(env, s, before) && t == Run(env, s, before) && t' == Run(env, s, acts)
    requires act == acts[|before|] && t' == Act(env, t, act) && Outside(act)
    ensures OriginInv(env, s, acts)
  {
    OutsideShape(env, t, t', act);
    assert Run(env, s, acts[..|before|]) == t;
    forall id | id in t'.rows && id !in t.rows ensures RowFrom(env, s, acts, id, t'.rows[id]) {
      assert Creates(env, Run(env, s, acts[..|before|]), acts[|before|], id, t'.rows[id]);
    }
    Combine(env, s, before, acts, t, t', |t.pcs|);
  }

  /** A claimed row's job was requested when the row was. */
  lemma ClaimedRequested(env: Env, s: State, before: seq<Action>, acts: seq<Action>, id: nat, row: Row)
    requires Extends(before, acts) && RowFrom(env, s, before, id, row)
    ensures Requested(env, acts, JobOf(id, row))
  {
    var k :| 0 <= k < |before| && Creates(env, Run(env, s, before[..k]), before[k], id, row);
    assert Asks(env, before[k], JobOf(id, row));
    RequestedLater(env, before, acts, JobOf(id, row));
  }

  /** What an agent holds after a step outside its job: what it held, a claimed row, or an immediate request. */
  predicate PicksUp(env: Env, t: State, act: Action, pc: Pc, pc': Pc) {
    || pc' == pc
    || !pc'.Busy?
    || (pc.Busy? && pc'.job == pc.job && (pc'.stage.Executing? || pc'.stage.Failed?))
    || (pc'.stage.Executing? && Asks(env, act, pc'.job))
    || (pc'.stage.Claimed? && exists id <- t.rows :: pc'.job == JobOf(id, t.rows[id]))
  }

  lemma SweeperShape(env: Env, t: State, t': State, act: Action)
    requires t' == Act(env, t, act) && !Outside(act) && !InJob(act)
    ensures t' == t || (act.a < |t.pcs| == |t'.pcs| && t'.pcs == t.pcs[act.a := t'.pcs[act.a]])
    ensures t'.log == t.log && StatusOnly(t, t')
  {
    if t' != t {
      if act.Claim? {
        ClaimStatus(t, act.a, act.ok);
      } else if act.Liveness? {
        LivenessStatus(t, act.a, act.cloneOk, act.nonceOk, act.markOk);
      } else if act.Finish? {
        FinishStatus(t, act.a, act.ok);
      }
    }
  }

  lemma ClaimStatus(t: State, a: nat, ok: bool)
    requires a < |t.pcs| && t.pcs[a].Sweeping?
    ensures StatusOnly(t, DoClaim(t, a, ok))
  {
  }

  lemma LivenessStatus(t: State, a: nat, cloneOk: bool, nonceOk: bool, markOk: bool)
    requires IsBusy(t, a) && t.pcs[a].stage.Claimed? && t.pcs[a].job.row.Some?
    ensures StatusOnly(t, DoLiveness(t, a, cloneOk, nonceOk, markOk))
  {
  }

  lemma FinishStatus(t: State, a: nat, ok: bool)
    requires IsBusy(t, a) && (t.pcs[a].stage.Done? || t.pcs[a].stage.Failed?)
    ensures StatusOnly(t, DoFinish(t, a, ok))
  {
  }

  lemma SweeperPicksUp(env: Env, t: State, t': State, act: Action)
    requires t' == Act(env, t, act) && !Outside(act) && !InJob(act) && act.a < |t.pcs| == |t'.pcs|
    ensures PicksUp(env, t, act, t.pcs[act.a], t'.pcs[act.a])
  {
    if act.Claim? && t.pcs[act.a].Sweeping? {
      ClaimPicksUp(env, t, act);
    } else if act.Liveness? && t' != t {
      LivenessPicksUp(env, t, act);
    }
  }

  lemma ClaimPicksUp(env: Env, t: State, act: Action)
    requires act.Claim? && act.a < |t.pcs| && t.pcs[act.a].Sweeping?
    ensures PicksUp(env, t, act, t.pcs[act.a], DoClaim(t, act.a, act.ok).pcs[act.a])
  {
  }

  lemma LivenessPicksUp(env: Env, t: State, act: Action)
    requires act.Liveness? && IsBusy(t, act.a) && t.pcs[act.a].stage.Claimed? && t.pcs[act.a].job.row.Some?
    ensures PicksUp(env, t, act, t.pcs[act.a], DoLiveness(t, act.a, act.cloneOk, act.nonceOk, act.markOk).pcs[act.a])
  {
    var pc := DoLiveness(t, act.a, act.cloneOk, act.nonceOk, act.markOk).pcs[act.a];
    assert pc.Busy? ==> pc.job == t.pcs[act.a].job && (pc.stage.Executing? || pc.stage.Failed?);
  }

  lemma PickedUp(env: Env, s: State, before: seq<Action>, acts: seq<Action>, t: State, pc: Pc, pc': Pc)
    requires Extends(before, acts) && RowsFrom(env, s, before, t) && StageFrom(env, s, before, pc)
    requires PicksUp(env, t, acts[|before|], pc, pc')
    ensures StageFrom(env, s, acts, pc')
  {
    StageFromLater(env, s, before, acts, pc);
    if pc' != pc && pc'.Busy? {
      if pc'.stage.Claimed? {
        var id :| id in t.rows && pc'.job == JobOf(id, t.rows[id]);
        ClaimedRequested(env, s, before, acts, id, t.rows[id]);
      } else if Asks(env, acts[|before|], pc'.job) {
        assert Requested(env, acts, pc'.job);
      }
    }
  }

  lemma SweeperOrigins(env: Env, s: State, before: seq<Action>, acts: seq<Action>, t: State, t': State, act: Action)
    requires Extends(before, acts) && OriginInv(env, s, before) && t == Run(env, s, before) && t' == Run(env, s, acts)
    requires act == acts[|before|] && t' == Act(env, t, act) && !Outside(act) && !InJob(act)
    ensures OriginInv(env, s, acts)
  {
    SweeperShape(env, t, t', act);
    if act.a < |t.pcs| {
      SweeperPicksUp(env, t, t', act);
      PickedUp(env, s, before, acts, t, t.pcs[act.a], t'.pcs[act.a]);
    }
    Combine(env, s, before, acts, t, t', act.a);
  }

  // ---- Jobs ----

  lemma PrecheckStage(env: Env, s: State, before: seq<Action>, acts: seq<Action>, t: State, t': State, act: Action)
    requires Extends(before, acts) && OriginInv(env, s, before) && t == Run(env, s, before) && t' == Run(env, s, acts)
    requires act == acts[|before|] && act.Precheck? && IsBusy(t, act.a) && t.pcs[act.a].stage.Executing?
    requires t' == DoPrecheck(t, act.a, act.rate, act.lookupOk, act.ok)
    ensures StageFrom(env, s, acts, t'.pcs[act.a]) && t'.log == t.log
  {
    var job, st := t.pcs[act.a].job, t'.pcs[act.a].stage;
    RequestedLater(env, before, acts, job);
    if st.Prechecked? {
      assert job.amount >= 0 by { RequestedPositive(env, acts, job); }
      Solvency.WithdrawExact(job.amount, act.rate);
      assert Passes(Run(env, s, acts[..|before|]), acts[|before|], job, st.usdc);
    } else if st.Done? {
      ChargedNow(env, s, before, acts, t, t', job);
    }
  }

  lemma RequestedPositive(env: Env, acts: seq<Action>, job: Job)
    requires Requested(env, acts, job)
    ensures job.amount > 0
  {
  }

  lemma RouteShape(env: Env, t: State, t': State, a: nat, ok: bool)
    requires IsBusy(t, a) && t.pcs[a].stage.Prechecked? && t' == DoRoute(env, t, a, ok)
    ensures var job, usdc, st := t.pcs[a].job, t.pcs[a].stage.usdc, t'.pcs[a].stage;
            || (st.Failed? && t'.log == t.log)
            || (&& st.OwnerRead? && t'.log == t.log && st.usdc == usdc && job.sig.raw != [] && FreshSig(job.sig, st.at)
                && OwnClone(t, job.user, st.clone) && OwnedAt(t, st.clone, st.owner, st.at))
            || (&& st.Sent? && |t'.log| == |t.log| + 1 && t'.log == t.log + [t'.log[|t.log|]]
                && SendsUnsigned(env, t, job, usdc, t'.log[|t.log|]))
  {
  }

  /** The last step of the run sends an event. */
  lemma SentNow(env: Env, s: State, before: seq<Action>, acts: seq<Action>, t: State, t': State, job: Job, usdc: int)
    requires Extends(before, acts) && t == Run(env, s, before) && t' == Run(env, s, acts)
    requires Requested(env, before, job) && Checked(env, s, before, job, usdc) && OnJob(t, acts[|before|], job)
    requires |t'.log| == |t.log| + 1 && t'.log == t.log + [t'.log[|t.log|]]
    requires Sends(env, s, before, t, job, usdc, t'.log[|t.log|])
    ensures OneMoreEvent(env, s, acts, t, t')
  {
    var m := |before|;
    assert acts[..m] == before && acts[..m + 1] == acts;
    assert SentAt(env, s, acts, m, |t.log|, t'.log[|t.log|]);
  }

  lemma OwnerKnownNow(env: Env, s: State, before: seq<Action>, acts: seq<Action>, t: State, job: Job,
                      clone: Eip712.Address, owner: Eip712.Address)
    requires Extends(before, acts) && t == Run(env, s, before) && job.sig.raw != [] && FreshSig(job.sig, t.now)
    requires OwnClone(t, job.user, clone) && OwnedAt(t, clone, owner, t.now)
    ensures OwnerKnown(env, s, acts, job, clone, owner, t.now)
  {
    assert OwnClone(Run(env, s, acts[..|before|]), job.user, clone);
    SeenNow(env, s, acts, clone, owner);
  }

  lemma RouteStage(env: Env, s: State, before: seq<Action>, acts: seq<Action>, t: State, t': State, act: Action)
    requires Extends(before, acts) && OriginInv(env, s, before) && t == Run(env, s, before) && t' == Run(env, s, acts)
    requires act == acts[|before|] && act.Route? && IsBusy(t, act.a) && t.pcs[act.a].stage.Prechecked?
    requires t' == DoRoute(env, t, act.a, act.ok)
    ensures StageFrom(env, s, acts, t'.pcs[act.a]) && OneMoreEvent(env, s, acts, t, t')
  {
    var job, usdc, st := t.pcs[act.a].job, t.pcs[act.a].stage.usdc, t'.pcs[act.a].stage;
    RouteShape(env, t, t', act.a, act.ok);
    RequestedLater(env, before, acts, job);
    CheckedLater(env, s, before, acts, job, usdc);
    if st.OwnerRead? {
      OwnerKnownNow(env, s, before, acts, t, job, st.clone, st.owner);
    } else if st.Sent? {
      SentNow(env, s, before, acts, t, t', job, usdc);
    }
  }

  lemma VerifyStage(env: Env, s: State, before: seq<Action>, acts: seq<Action>, t: State, t': State, act: Action)
    requires Extends(before, acts) && OriginInv(env, s, before) && t == Run(env, s, before)
    requires act == acts[|before|] && act.Verify? && IsBusy(t, act.a) && t.pcs[act.a].stage.OwnerRead?
    requires t' == DoVerify(env, t, act.a, act.ok)
    ensures StageFrom(env, s, acts, t'.pcs[act.a]) && t'.log == t.log
  {
    var job, st := t.pcs[act.a].job, t.pcs[act.a].stage;
    RequestedLater(env, before, acts, job);
    CheckedLater(env, s, before, acts, job, st.usdc);
    OwnerKnownLater(env, s, before, acts, job, st.clone, st.owner, st.at);
    if t'.pcs[act.a].stage.Built? {
      var relay := t'.pcs[act.a].stage.relay;
      CarriesNow(env, s, before, acts, t, job, st.usdc, st.clone);
      assert SignedFor(env, s, acts, job, st.usdc, relay, st.owner, st.at);
    }
  }

  lemma CarriesNow(env: Env, s: State, before: seq<Action>, acts: seq<Action>, t: State, job: Job, usdc: int,
                   clone: Eip712.Address)
    requires Extends(before, acts) && t == Run(env, s, before)
    ensures Carries(env, s, acts, job, usdc, RelayOf(t, job, usdc, clone))
  {
    assert NonceOf(Run(env, s, acts[..|before|]), clone) == NonceOf(t, clone);
  }

  lemma SendStage(env: Env, s: State, before: seq<Action>, acts: seq<Action>, t: State, t': State, act: Action)
    requires Extends(before, acts) && OriginInv(env, s, before) && t == Run(env, s, before) && t' == Run(env, s, acts)
    requires act == acts[|before|] && act.Send? && IsBusy(t, act.a) && t.pcs[act.a].stage.Built?
    requires t' == DoSend(t, act.a, act.ok)
    ensures StageFrom(env, s, acts, t'.pcs[act.a]) && OneMoreEvent(env, s, acts, t, t')
  {
    var job, st := t.pcs[act.a].job, t.pcs[act.a].stage;
    RequestedLater(env, before, acts, job);
    if t'.log != t.log {
      var usdc :| Checked(env, s, before, job, usdc) && SignedFor(env, s, before, job, usdc, st.relay, st.owner, st.at);
      SentNow(env, s, before, acts, t, t', job, usdc);
    }
  }

  lemma DebitShape(t: State, t': State, a: nat, txHash: string, reply: Reply)
    requires IsBusy(t, a) && t.pcs[a].stage.Sent? && t' == DoDebit(t, a, txHash, reply)
    ensures IsBusy(t', a) && (t'.pcs[a].stage.Done? || t'.pcs[a].stage.Failed?)
    ensures t'.pcs[a].job == t.pcs[a].job && t'.log == t.log
    ensures t'.pcs[a].stage.Done? ==> Debits(t, t', Debit(a, txHash, reply), t.pcs[a].job)
  {
  }

  lemma DebitStage(env: Env, s: State, before: seq<Action>, acts: seq<Action>, t: State, t': State, a: nat)
    requires Extends(before, acts) && OriginInv(env, s, before) && t == Run(env, s, before) && t' == Run(env, s, acts)
    requires IsBusy(t, a) && IsBusy(t', a) && (t'.pcs[a].stage.Done? || t'.pcs[a].stage.Failed?)
    requires t'.pcs[a].job == t.pcs[a].job
    requires t'.pcs[a].stage.Done? ==> Charges(t, t', acts[|before|], t.pcs[a].job)
    ensures StageFrom(env, s, acts, t'.pcs[a])
  {
    RequestedLater(env, before, acts, t.pcs[a].job);
    if t'.pcs[a].stage.Done? {
      ChargedNow(env, s, before, acts, t, t', t.pcs[a].job);
    }
  }

  lemma JobStage(env: Env, s: State, before: seq<Action>, acts: seq<Action>, t: State, t': State, act: Action)
    requires Extends(before, acts) && OriginInv(env, s, before) && t == Run(env, s, before) && t' == Run(env, s, acts)
    requires act == acts[|before|] && t' == Act(env, t, act) && InJob(act) && t' != t
    ensures act.a < |t'.pcs| && StageFrom(env, s, acts, t'.pcs[act.a]) && OneMoreEvent(env, s, acts, t, t')
  {
    if act.Precheck? {
      PrecheckStage(env, s, before, acts, t, t', act);
    } else if act.Route? {
      RouteStage(env, s, before, acts, t, t', act);
    } else if act.Verify? {
      VerifyStage(env, s, before, acts, t, t', act);
    } else if act.Send? {
      SendStage(env, s, before, acts, t, t', act);
    } else {
      DebitShape(t, t', act.a, act.txHash, act.reply);
      DebitStage(env, s, before, acts, t, t', act.a);
    }
  }

  lemma JobCombines(env: Env, s: State, before: seq<Action>, acts: seq<Action>, t: State, t': State, a: nat)
    requires Extends(before, acts) && OriginInv(env, s, before) && t == Run(env, s, before) && t' == Run(env, s, acts)
    requires || t' == t
             || (&& OnlyStage(t, a, t') && StageFrom(env, s, acts, t'.pcs[a]) && OneMoreEvent(env, s, acts, t, t'))
    ensures OriginInv(env, s, acts)
  {
    Combine(env, s, before, acts, t, t', if t' == t then |t.pcs| else a);
  }

  lemma JobOrigins(env: Env, s: State, before: seq<Action>, acts: seq<Action>, t: State, t': State, act: Action)
    requires Extends(before, acts) && OriginInv(env, s, before) && t == Run(env, s, before) && t' == Run(env, s, acts)
    requires act == acts[|before|] && t' == Act(env, t, act) && InJob(act)
    ensures OriginInv(env, s, acts)
  {
    JobShape(env, t, act);
    if t' != t {
      JobStage(env, s, before, acts, t, t', act);
    }
    JobCombines(env, s, before, acts, t, t', act.a);
  }

  /**
   Over every run, in strict mode or not, every row was requested, covered and
   unexpired when it was made and is due after the delay; every job was
   requested, and is done only when it was debited or its key was; and every
   entry of the log was sent by one step, for a requested and covered job, to
   the job's destination, for the worth of its principal or the signed amount,
   from the user's clone when there is one.
   */
  lemma {:induction false} RunOrigins(env: Env, s: State, acts: seq<Action>)
    requires Initial(s)
    ensures OriginInv(env, s, acts)
    decreases |acts|
  {
    if acts != [] {
      var before := acts[..|acts| - 1];
      var t, t', act := Run(env, s, before), Run(env, s, acts), acts[|before|];
      RunOrigins(env, s, before);
      LastStep(env, s, before, acts);
      if InJob(act) {
        JobOrigins(env, s, before, acts, t, t', act);
      } else if Outside(act) {
        OutsideOrigins(env, s, before, acts, t, t', act);
      } else {
        SweeperOrigins(env, s, before, acts, t, t', act);
      }
    }
  }

  /** No row is claimed, broadcast or expired before its request time plus the delay. */
  lemma ClaimedWhenDue(env: Env, s: State, acts: seq<Action>, id: nat)
    requires Initial(s) && id in Run(env, s, acts).rows
    requires var status := Run(env, s, acts).rows[id].status; status != Pending && status != Cancelled
    ensures var t := Run(env, s, acts);
            exists k :: 0 <= k < |acts| && Creates(env, Run(env, s, acts[..k]), acts[k], id, t.rows[id])
                        && Run(env, s, acts[..k]).now + env.delay <= t.now
  {
    var t := Run(env, s, acts);
    RunOrigins(env, s, acts);
    RunClaims(env, s, acts);
    assert RowFrom(env, s, acts, id, t.rows[id]) && Released(t, id);
  }
}
