/**
 When a withdrawal gets through: exactly when a request makes a row, a cancel
 takes it away, and an attempt with no failing call reaches the chain.
 */
module WithdrawalSteps {
  import opened Int64
  import opened Withdrawals
  import Ledger
  import Solvency

  // ---- Rows ----

  /** Some pending row asks for the same user, destination and amount. */
  ghost predicate AlreadyPending(t: State, act: Action)
    requires act.RequestElevation?
  {
    exists id <- t.rows ::
      && t.rows[id].status == Pending && t.rows[id].user == act.user && t.rows[id].dest == act.dest
      && t.rows[id].amount == act.amount
  }

  /** A request with a new id makes its pending row exactly when it is large, new, covered and not expired. */
  lemma RequestedIff(env: Env, t: State, act: Action)
    requires act.RequestElevation? && act.id !in t.rows
    ensures var t' := Act(env, t, act);
            if && 0 < env.threshold < act.amount && !AlreadyPending(t, act)
               && Solvency.Sufficient(t.db, act.user, Wrap(act.amount + act.fee))
               && (act.sig.raw != [] ==> 0 < act.sig.deadline && t.now <= act.sig.deadline)
            then && act.id in t'.rows && t'.rows[act.id].status == Pending && JobOf(act.id, t'.rows[act.id]) ==
                 Job(act.user, act.dest, act.amount, act.fee, act.sig, act.key, Ledger.Some(act.id))
                 && t'.rows[act.id].releaseAfter == t.now + env.delay
            else t' == t
  {
    var row := Row(act.user, act.dest, act.amount, act.fee, t.now + env.delay, act.key, act.sig, Pending);
    assert PendingTwin(t, row, act.id) <==> AlreadyPending(t, act);
  }

  /** A row becomes cancelled in a step exactly when its own user cancels it while it is pending. */
  lemma CancelledIff(env: Env, t: State, act: Action, id: nat)
    requires id in t.rows && t.rows[id].status != Cancelled
    ensures var t' := Act(env, t, act);
            && id in t'.rows
            && (t'.rows[id].status == Cancelled
                <==> act.Cancel? && act.id == id && act.user == t.rows[id].user && t.rows[id].status == Pending)
  {
    if InJob(act) {
      JobShape(env, t, act);
    } else if !Outside(act) {
      SweeperNeverCancels(env, t, act, id);
    }
  }

  /** The row is there and not cancelled. */
  predicate Standing(t: State, id: nat) {
    id in t.rows && t.rows[id].status != Cancelled
  }

  lemma SweeperNeverCancels(env: Env, t: State, act: Action, id: nat)
    requires !Outside(act) && !InJob(act) && Standing(t, id)
    ensures Standing(Act(env, t, act), id)
  {
    if act.Finish? {
      FinishNeverCancels(env, t, act, id);
    } else if act.Liveness? {
      LivenessNeverCancels(env, t, act, id);
    }
  }

  lemma FinishNeverCancels(env: Env, t: State, act: Action, id: nat)
    requires act.Finish? && Standing(t, id)
    ensures Standing(Act(env, t, act), id)
  {
  }

  lemma LivenessNeverCancels(env: Env, t: State, act: Action, id: nat)
    requires act.Liveness? && Standing(t, id)
    ensures Standing(Act(env, t, act), id)
  {
  }

  // ---- Attempts ----

  /** Principal and fee are covered, no lookup finds the key, and the principal is worth something. */
  predicate Covered(t: State, job: Job, rate: int, lookupOk: bool) {
    && !(lookupOk && Ledger.KeyUsed(t.db, job.key)) && rate > 0
    && Solvency.Sufficient(t.db, job.user, Wrap(job.amount + job.fee)) && Wrap(job.amount * 1_000_000 / rate) > 0
  }

  /** The agent is about to withdraw. */
  predicate Executes(t: State, a: nat, job: Job) {
    IsBusy(t, a) && t.pcs[a].stage.Executing? && t.pcs[a].job == job && job.amount > 0
  }

  function AtStage(t: State, a: nat, stage: Stage): State
    requires IsBusy(t, a)
  {
    t.(pcs := t.pcs[a := Busy(stage, t.pcs[a].job, t.pcs[a].due)])
  }

  lemma PrecheckedIff(env: Env, t: State, a: nat, job: Job, rate: int, lookupOk: bool)
    requires Executes(t, a, job)
    ensures var t' := Act(env, t, Precheck(a, rate, lookupOk, true));
            if Covered(t, job, rate, lookupOk) then t' == AtStage(t, a, Prechecked(Wrap(job.amount * 1_000_000 / rate)))
            else && IsBusy(t', a) && (t'.pcs[a].stage.Done? || t'.pcs[a].stage.Failed?) && t'.log == t.log
                 && (t'.pcs[a].stage.Done? <==> lookupOk && Ledger.KeyUsed(t.db, job.key))
  {
    if rate > 0 {
      Solvency.WithdrawExact(job.amount, rate);
    }
  }

  /** The job failed or is done: neither a route nor what follows it does anything. */
  lemma NoRoute(env: Env, t: State, a: nat, act: Action)
    requires IsBusy(t, a) && (t.pcs[a].stage.Done? || t.pcs[a].stage.Failed?)
    requires act == Route(a, true) || act == Verify(a, true) || act == Send(a, true)
    ensures Act(env, t, act) == t
  {
  }

  /** What a job without a signature sends. */
  function UnsignedEvent(t: State, job: Job, usdc: int): Event {
    if job.user in t.clones then PlatformRelay(job.user, t.clones[job.user], job.dest, usdc)
    else SharedTransfer(job.user, job.dest, usdc)
  }

  /** The platform may move the user's funds. */
  predicate PlatformMay(env: Env, t: State, user: string) {
    !env.strict && (user in t.clones && t.clones[user] in t.owners ==> t.owners[t.clones[user]] == env.vault)
  }

  lemma UnsignedRouted(env: Env, t: State, a: nat, usdc: int)
    requires IsBusy(t, a) && t.pcs[a].stage == Prechecked(usdc) && t.pcs[a].job.sig.raw == []
    ensures var t', job := Act(env, t, Route(a, true)), t.pcs[a].job;
            && IsBusy(t', a)
            && (t'.pcs[a].stage.Sent? <==> PlatformMay(env, t, job.user))
            && t'.log == (if PlatformMay(env, t, job.user) then t.log + [UnsignedEvent(t, job, usdc)] else t.log)
  {
  }

  /**
   An attempt without a signature reaches the chain exactly when it is covered
   and the platform may move the funds, and then with exactly this event.
   */
  lemma UnsignedSentIff(env: Env, t: State, a: nat, job: Job, rate: int, lookupOk: bool)
    requires Executes(t, a, job) && job.sig.raw == []
    ensures var t' := Act(env, Act(env, t, Precheck(a, rate, lookupOk, true)), Route(a, true));
            if Covered(t, job, rate, lookupOk) && PlatformMay(env, t, job.user)
            then IsBusy(t', a) && t'.pcs[a].stage.Sent?
                 && t'.log == t.log + [UnsignedEvent(t, job, Wrap(job.amount * 1_000_000 / rate))]
            else t'.log == t.log
  {
    var t1 := Act(env, t, Precheck(a, rate, lookupOk, true));
    PrecheckedIff(env, t, a, job, rate, lookupOk);
    if Covered(t, job, rate, lookupOk) {
      UnsignedRouted(env, t1, a, Wrap(job.amount * 1_000_000 / rate));
    } else {
      NoRoute(env, t1, a, Route(a, true));
    }
  }

  // ---- Signed attempts ----

  /** What the user signed, as it stands on the chain: the converted amount and current nonce where none was given. */
  function SignedRelay(t: State, job: Job, usdc: int): Relay
    requires job.user in t.clones
  {
    var clone := t.clones[job.user];
    Relay(clone, job.dest, if job.sig.amountBase > 0 then job.sig.amountBase else usdc,
          if job.sig.nonce > 0 then job.sig.nonce else NonceOf(t, clone), job.sig.deadline, job.sig.raw)
  }

  /** The signature has not expired, and the user's clone has an owner. */
  predicate OwnerReadable(t: State, job: Job) {
    0 < job.sig.deadline && t.now <= job.sig.deadline && job.user in t.clones && t.clones[job.user] in t.owners
  }

  /** ... who signed exactly that relay. */
  predicate OwnerSigned(env: Env, t: State, job: Job, usdc: int) {
    OwnerReadable(t, job) && Authorised(env, SignedRelay(t, job, usdc), t.owners[t.clones[job.user]])
  }

  lemma SignedRouted(env: Env, t: State, a: nat, usdc: int)
    requires IsBusy(t, a) && t.pcs[a].stage == Prechecked(usdc) && t.pcs[a].job.sig.raw != []
    ensures var t', job := Act(env, t, Route(a, true)), t.pcs[a].job;
            if OwnerReadable(t, job) then
              var clone := t.clones[job.user];
              t' == AtStage(t, a, OwnerRead(usdc, clone, t.owners[clone], t.now))
            else IsBusy(t', a) && t'.pcs[a].stage.Failed? && t'.log == t.log
  {
  }

  lemma SignedVerified(env: Env, t: State, a: nat, usdc: int)
    requires IsBusy(t, a) && OwnerReadable(t, t.pcs[a].job)
    ensures var job, clone := t.pcs[a].job, t.clones[t.pcs[a].job.user];
            var t' := Act(env, AtStage(t, a, OwnerRead(usdc, clone, t.owners[clone], t.now)), Verify(a, true));
            if OwnerSigned(env, t, job, usdc) then
              t' == AtStage(t, a, Built(SignedRelay(t, job, usdc), t.owners[clone], t.now))
            else IsBusy(t', a) && t'.pcs[a].stage.Failed? && t'.log == t.log
  {
    var job, clone := t.pcs[a].job, t.clones[t.pcs[a].job.user];
    var t1 := AtStage(t, a, OwnerRead(usdc, clone, t.owners[clone], t.now));
    assert RelayOf(t1, job, usdc, clone) == SignedRelay(t, job, usdc);
  }

  lemma RelaySent(env: Env, t: State, a: nat)
    requires IsBusy(t, a) && t.pcs[a].stage.Built?
    ensures var t', st := Act(env, t, Send(a, true)), t.pcs[a].stage;
            && t'.log == t.log + [UserRelay(t.pcs[a].job.user, st.relay, st.owner, st.at)]
            && IsBusy(t', a) && t'.pcs[a].stage.Sent?
  {
  }

  /** The two steps after the owner was read. */
  lemma CheckedAndSentIff(env: Env, t: State, a: nat, usdc: int)
    requires IsBusy(t, a) && OwnerReadable(t, t.pcs[a].job)
    ensures var job, clone := t.pcs[a].job, t.clones[t.pcs[a].job.user];
            var t1 := AtStage(t, a, OwnerRead(usdc, clone, t.owners[clone], t.now));
            var t' := Act(env, Act(env, t1, Verify(a, true)), Send(a, true));
            if OwnerSigned(env, t, job, usdc)
            then IsBusy(t', a) && t'.pcs[a].stage.Sent?
                 && t'.log == t.log + [UserRelay(job.user, SignedRelay(t, job, usdc), t.owners[clone], t.now)]
            else t'.log == t.log
  {
    var job, clone := t.pcs[a].job, t.clones[t.pcs[a].job.user];
    var t1 := AtStage(t, a, OwnerRead(usdc, clone, t.owners[clone], t.now));
    var t2 := Act(env, t1, Verify(a, true));
    SignedVerified(env, t, a, usdc);
    if OwnerSigned(env, t, job, usdc) {
      RelaySent(env, t2, a);
    } else {
      NoRoute(env, t2, a, Send(a, true));
    }
  }

  /** The two steps up to the owner read. */
  lemma OwnerReadIff(env: Env, t: State, a: nat, job: Job, rate: int, lookupOk: bool)
    requires Executes(t, a, job) && job.sig.raw != []
    ensures var t' := Act(env, Act(env, t, Precheck(a, rate, lookupOk, true)), Route(a, true));
            if Covered(t, job, rate, lookupOk) && OwnerReadable(t, job) then
              var clone := t.clones[job.user];
              t' == AtStage(t, a, OwnerRead(Wrap(job.amount * 1_000_000 / rate), clone, t.owners[clone], t.now))
            else IsBusy(t', a) && (t'.pcs[a].stage.Done? || t'.pcs[a].stage.Failed?) && t'.log == t.log
  {
    var t1 := Act(env, t, Precheck(a, rate, lookupOk, true));
    PrecheckedIff(env, t, a, job, rate, lookupOk);
    if Covered(t, job, rate, lookupOk) {
      SignedRouted(env, t1, a, Wrap(job.amount * 1_000_000 / rate));
    } else {
      NoRoute(env, t1, a, Route(a, true));
    }
  }

  /**
   A signed attempt, from the balance check to the relay, reaches the chain
   exactly when it is covered and the clone's owner signed the relay, in strict
   mode or not, and then with exactly that relay.
   */
  lemma SignedSentIff(env: Env, t: State, a: nat, job: Job, rate: int, lookupOk: bool, u: State)
    requires Executes(t, a, job) && job.sig.raw != []
    requires u == Act(env, Act(env, t, Precheck(a, rate, lookupOk, true)), Route(a, true))
    ensures var t' := Act(env, Act(env, u, Verify(a, true)), Send(a, true));
            if Covered(t, job, rate, lookupOk) && OwnerSigned(env, t, job, Wrap(job.amount * 1_000_000 / rate))
            then && IsBusy(t', a) && t'.pcs[a].stage.Sent?
                 && (var relay := SignedRelay(t, job, Wrap(job.amount * 1_000_000 / rate));
                     t'.log == t.log + [UserRelay(job.user, relay, t.owners[relay.clone], t.now)])
            else t'.log == t.log
  {
    OwnerReadIff(env, t, a, job, rate, lookupOk);
    if Covered(t, job, rate, lookupOk) && OwnerReadable(t, job) {
      CheckedAndSentIff(env, t, a, Wrap(job.amount * 1_000_000 / rate));
    } else {
      NoRoute(env, u, a, Verify(a, true));
      NoRoute(env, u, a, Send(a, true));
    }
  }
}
