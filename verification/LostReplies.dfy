/**
 Debits whose outcome never reaches the sweeper: the row goes back to pending
 and is attempted again, and only its key keeps the second debit from landing.
 */
module LostReplies {
  import opened Int64
  import opened Withdrawals
  import opened DeadEnds
  import Acceptance
  import Ledger
  import Solvency

  /** The debit of a request's elevation. */
  function DebitOf(req: Action, txHash: string): Ledger.Request
    requires req.RequestElevation?
  {
    Ledger.WithdrawExternal(req.user, Ledger.AVAILABLE, "NGN", "withdrawal", req.amount, req.fee, txHash, req.key)
  }

  /** The ledger can take the debit. */
  predicate Takes(db: Ledger.Db, r: Ledger.Request) {
    Ledger.Apply(db, r).1.Committed?
  }

  /** An attempt at a claimed, unsigned row under a new key can go all the way. */
  ghost predicate Ready(env: Env, s: State, req: Action, rate: int, txHash: string) {
    && req.RequestElevation? && req.sig.raw == [] && !Ledger.KeyUsed(s.db, req.key)
    && !env.strict && req.user !in s.clones
    && rate > 0 && Solvency.WithdrawUsdc(req.amount, rate) > 0 && Takes(s.db, DebitOf(req, txHash))
    && |s.pcs| > 0 && s.pcs[0] == Busy(Claimed, ReqJob(req), [])
    && req.id in s.rows && s.rows[req.id].sig.raw == []
  }

  function ReqJob(req: Action): Job
    requires req.RequestElevation?
  {
    Job(req.user, req.dest, req.amount, req.fee, req.sig, req.key, Ledger.Some(req.id))
  }

  function AttemptActs(rate: int, txHash: string, reply: Reply): seq<Action> {
    [Liveness(0, true, true, true), Precheck(0, rate, true, true), Route(0, true), Debit(0, txHash, reply)]
  }

  /** The broadcast and the debit are done; what the agent knows of them depends on the reply. */
  function Attempted(s: State, req: Action, rate: int, txHash: string, heard: bool): State
    requires req.RequestElevation? && rate > 0 && |s.pcs| > 0 && Takes(s.db, DebitOf(req, txHash))
  {
    var (d, o) := Ledger.Apply(s.db, DebitOf(req, txHash));
    s.(log := s.log + [SharedTransfer(req.user, req.dest, Solvency.WithdrawUsdc(req.amount, rate))],
       db := d, debits := s.debits + [DebitRecord(req.id, o.txn)],
       pcs := s.pcs[0 := Busy(if heard then Done else Failed, ReqJob(req), [])])
  }

  /** What the ledger takes the balance check lets through. */
  lemma TakesIsSufficient(db: Ledger.Db, req: Action, txHash: string)
    requires req.RequestElevation? && Takes(db, DebitOf(req, txHash))
    ensures Solvency.Sufficient(db, req.user, Wrap(req.amount + req.fee))
  {
    assert Ledger.PlanOf(db, DebitOf(req, txHash)) == Ledger.PlanWithdraw(db, DebitOf(req, txHash));
  }

  function Staged(s: State, req: Action, stage: Stage): State
    requires req.RequestElevation? && |s.pcs| > 0
  {
    s.(pcs := s.pcs[0 := Busy(stage, ReqJob(req), [])])
  }

  lemma LiveStep(env: Env, s: State, req: Action)
    requires req.RequestElevation? && |s.pcs| > 0 && s.pcs[0] == Busy(Claimed, ReqJob(req), [])
    requires req.id in s.rows && s.rows[req.id].sig.raw == []
    ensures Act(env, s, Liveness(0, true, true, true)) == Staged(s, req, Executing)
  {
  }

  lemma PrecheckStep(env: Env, s: State, req: Action, rate: int)
    requires req.RequestElevation? && |s.pcs| > 0 && !Ledger.KeyUsed(s.db, req.key) && rate > 0
    requires Solvency.Sufficient(s.db, req.user, Wrap(req.amount + req.fee))
    requires Solvency.WithdrawUsdc(req.amount, rate) > 0
    ensures Act(env, Staged(s, req, Executing), Precheck(0, rate, true, true)) ==
            Staged(s, req, Prechecked(Solvency.WithdrawUsdc(req.amount, rate)))
  {
  }

  lemma RouteStep(env: Env, s: State, req: Action, usdc: int)
    requires req.RequestElevation? && req.sig.raw == [] && !env.strict && req.user !in s.clones && |s.pcs| > 0
    ensures Act(env, Staged(s, req, Prechecked(usdc)), Route(0, true)) ==
            Staged(s, req, Sent).(log := s.log + [SharedTransfer(req.user, req.dest, usdc)])
  {
  }

  lemma DebitIs(env: Env, s: State, txHash: string, reply: Reply)
    requires |s.pcs| > 0 && s.pcs[0].Busy? && s.pcs[0].stage.Sent?
    ensures Act(env, s, Debit(0, txHash, reply)) == DoDebit(s, 0, txHash, reply)
  {
  }

  lemma DebitStep(env: Env, s: State, req: Action, rate: int, txHash: string, reply: Reply, t: State)
    requires Ready(env, s, req, rate, txHash) && !reply.NotDone?
    requires var paid := SharedTransfer(req.user, req.dest, Solvency.WithdrawUsdc(req.amount, rate));
             t == Staged(s, req, Sent).(log := s.log + [paid])
    ensures Act(env, t, Debit(0, txHash, reply)) == Attempted(s, req, rate, txHash, reply.Answered?)
  {
    DebitIs(env, t, txHash, reply);
    assert DebitRequest(t.pcs[0].job, txHash) == DebitOf(req, txHash);
  }

  lemma AttemptReached(env: Env, s0: State, acts: seq<Action>, s: State, req: Action, rate: int, txHash: string,
                       reply: Reply)
    requires Run(env, s0, acts) == s && Ready(env, s, req, rate, txHash) && !reply.NotDone?
    ensures Run(env, s0, acts + AttemptActs(rate, txHash, reply)) == Attempted(s, req, rate, txHash, reply.Answered?)
  {
    var usdc := Solvency.WithdrawUsdc(req.amount, rate);
    var live, pre, route := Liveness(0, true, true, true), Precheck(0, rate, true, true), Route(0, true);
    var s3 := Staged(s, req, Sent).(log := s.log + [SharedTransfer(req.user, req.dest, usdc)]);
    LiveStep(env, s, req);
    TakesIsSufficient(s.db, req, txHash);
    PrecheckStep(env, s, req, rate);
    RouteStep(env, s, req, usdc);
    DebitStep(env, s, req, rate, txHash, reply, s3);
    RunNext(env, s0, acts, s, live, acts + [live], Staged(s, req, Executing));
    RunNext(env, s0, acts + [live], Staged(s, req, Executing), pre, acts + [live, pre],
            Staged(s, req, Prechecked(usdc)));
    RunNext(env, s0, acts + [live, pre], Staged(s, req, Prechecked(usdc)), route, acts + [live, pre, route], s3);
    RunNext(env, s0, acts + [live, pre, route], s3, Debit(0, txHash, reply), acts + AttemptActs(rate, txHash, reply),
            Attempted(s, req, rate, txHash, reply.Answered?));
  }

  // ---- The row comes back ----

  predicate ClaimedRow(s: State, req: Action, row: Row)
    requires req.RequestElevation?
  {
    row.status == Broadcasting && row.releaseAfter <= s.now && JobOf(req.id, row) == ReqJob(req)
  }

  lemma ReleaseSteps(env: Env, s: State, req: Action, row: Row)
    requires req.RequestElevation? && |s.pcs| > 0 && s.pcs[0] == Busy(Failed, ReqJob(req), [])
    requires s.rows == map[req.id := row] && ClaimedRow(s, req, row)
    ensures var t := s.(rows := map[req.id := row.(status := Pending)]);
            && Act(env, s, Finish(0, true)) == SetPc(t, 0, Sweeping([]))
            && Act(env, SetPc(t, 0, Sweeping([])), Claim(0, true)) == SetPc(t, 0, Idle)
  {
  }

  lemma ReclaimSteps(env: Env, s: State, req: Action, row: Row)
    requires req.RequestElevation? && |s.pcs| > 0
    requires s.rows == map[req.id := row] && ClaimedRow(s, req, row)
    ensures var t := s.(rows := map[req.id := row.(status := Pending)]);
            && Act(env, SetPc(t, 0, Idle), Sweep(0, [req.id])) == SetPc(t, 0, Sweeping([req.id]))
            && Act(env, SetPc(t, 0, Sweeping([req.id])), Claim(0, true)) == Staged(s, req, Claimed)
  {
    var t := s.(rows := map[req.id := row.(status := Pending)]);
    SweepStep(env, SetPc(t, 0, Idle), req.id);
    ClaimStepIs(env, SetPc(t, 0, Sweeping([req.id])), req.id);
  }

  function ReclaimActs(req: Action): seq<Action>
    requires req.RequestElevation?
  {
    [Finish(0, true), Claim(0, true), Sweep(0, [req.id]), Claim(0, true)]
  }

  lemma Reclaimed(env: Env, s0: State, acts: seq<Action>, s: State, req: Action, row: Row)
    requires Run(env, s0, acts) == s && req.RequestElevation? && |s.pcs| > 0
    requires s.pcs[0] == Busy(Failed, ReqJob(req), [])
    requires s.rows == map[req.id := row] && ClaimedRow(s, req, row)
    ensures Run(env, s0, acts + ReclaimActs(req)) == Staged(s, req, Claimed)
  {
    var t := s.(rows := map[req.id := row.(status := Pending)]);
    var finish, claim, sweep := Finish(0, true), Claim(0, true), Sweep(0, [req.id]);
    ReleaseSteps(env, s, req, row);
    ReclaimSteps(env, s, req, row);
    RunNext(env, s0, acts, s, finish, acts + [finish], SetPc(t, 0, Sweeping([])));
    RunNext(env, s0, acts + [finish], SetPc(t, 0, Sweeping([])), claim, acts + [finish, claim], SetPc(t, 0, Idle));
    RunNext(env, s0, acts + [finish, claim], SetPc(t, 0, Idle), sweep, acts + [finish, claim, sweep],
            SetPc(t, 0, Sweeping([req.id])));
    RunNext(env, s0, acts + [finish, claim, sweep], SetPc(t, 0, Sweeping([req.id])), claim, acts + ReclaimActs(req),
            Staged(s, req, Claimed));
  }

  // ---- One debit ----

  /** The request is accepted, its withdrawal can be sent without a signature, and the ledger takes its debit. */
  ghost predicate Paid(env: Env, s: State, req: Action, rate: int, txHash: string) {
    && Accepted(env, s, req) && req.sig.raw == [] && !Ledger.KeyUsed(s.db, req.key) && !env.strict
    && req.user !in s.clones && rate > 0 && Solvency.WithdrawUsdc(req.amount, rate) > 0
    && Takes(s.db, DebitOf(req, txHash)) && Ledger.WellTyped(DebitOf(req, txHash))
  }

  function PaidActs(env: Env, req: Action, rate: int, txHash: string): seq<Action>
    requires req.RequestElevation?
  {
    ClaimActs(env, req) + AttemptActs(rate, txHash, Answered) + [Finish(0, true)]
  }

  lemma TakenTxn(env: Env, s: State, req: Action, txHash: string)
    requires req.RequestElevation? && Takes(s.db, DebitOf(req, txHash)) && Ledger.WellTyped(DebitOf(req, txHash))
    ensures Ledger.Apply(s.db, DebitOf(req, txHash)).1.txn == WithdrawalTxn(RowFor(env, s, req), txHash)
  {
    Acceptance.WithdrawCommitsIff(s.db, DebitOf(req, txHash));
  }

  lemma AttemptLeaves(env: Env, s: State, req: Action, rate: int, txHash: string, t: State)
    requires Paid(env, s, req, rate, txHash) && t == Attempted(AtClaim(env, s, req), req, rate, txHash, true)
    ensures |t.pcs| > 0 && Holds(t.pcs[0]) == Ledger.Some(req.id) && t.pcs[0].stage.Done?
    ensures t.debits == [DebitRecord(req.id, Ledger.Apply(s.db, DebitOf(req, txHash)).1.txn)]
    ensures t.log == [SharedTransfer(req.user, req.dest, Solvency.WithdrawUsdc(req.amount, rate))]
    ensures t.rows == map[req.id := RowFor(env, s, req).(status := Broadcasting)] && t.now == s.now + env.delay
    ensures t.db == Ledger.Apply(s.db, DebitOf(req, txHash)).0
  {
  }

  lemma FinishDone(env: Env, s: State)
    requires |s.pcs| > 0 && s.pcs[0].Busy? && s.pcs[0].stage.Done?
    ensures Act(env, s, Finish(0, true)) == DoFinish(s, 0, true)
  {
  }

  /**
   An accepted elevation that nothing gets in the way of: it is claimed after
   its delay, sent to its destination for its worth at the rate, debited
   exactly once for principal and fee, and marked broadcast.
   */
  lemma PaidAndBroadcast(env: Env, s: State, req: Action, rate: int, txHash: string)
    requires Paid(env, s, req, rate, txHash)
    ensures var t := Run(env, s, PaidActs(env, req, rate, txHash));
            && req.id in t.rows && t.rows[req.id] == RowFor(env, s, req).(status := Broadcast)
            && t.debits == [DebitRecord(req.id, WithdrawalTxn(RowFor(env, s, req), txHash))]
            && t.log == [SharedTransfer(req.user, req.dest, Wrap(req.amount * 1_000_000 / rate))]
            && t.db == Ledger.Apply(s.db, DebitOf(req, txHash)).0 && t.now == s.now + env.delay
  {
    var acts := ClaimActs(env, req) + AttemptActs(rate, txHash, Answered);
    var t := Attempted(AtClaim(env, s, req), req, rate, txHash, true);
    ClaimReached(env, s, req);
    AttemptReached(env, s, ClaimActs(env, req), AtClaim(env, s, req), req, rate, txHash, Answered);
    AttemptLeaves(env, s, req, rate, txHash, t);
    TakenTxn(env, s, req, txHash);
    FinishDone(env, t);
    RunNext(env, s, acts, t, Finish(0, true), PaidActs(env, req, rate, txHash), DoFinish(t, 0, true));
    RunClaims(env, s, acts);
    DoneBroadcastIff(t, 0, true, req.id);
    Solvency.WithdrawExact(req.amount, rate);
  }

  // ---- Two debits ----

  /** The same debit without a key. */
  function UnkeyedDebit(req: Action, txHash: string): Ledger.Request
    requires req.RequestElevation?
  {
    Ledger.WithdrawExternal(req.user, Ledger.AVAILABLE, "NGN", "withdrawal", req.amount, req.fee, txHash, "")
  }

  /** The request is accepted, its withdrawal can be sent without a signature, and the ledger can pay for it twice. */
  ghost predicate PaidTwice(env: Env, s: State, req: Action, rate: int, txHash: string) {
    && Accepted(env, s, req) && req.sig.raw == [] && !env.strict && req.user !in s.clones
    && rate > 0 && Solvency.WithdrawUsdc(req.amount, rate) > 0
    && Takes(s.db, UnkeyedDebit(req, txHash))
    && Takes(Ledger.Apply(s.db, UnkeyedDebit(req, txHash)).0, UnkeyedDebit(req, txHash))
  }

  function LostActs(env: Env, req: Action, rate: int, txHash: string): seq<Action>
    requires req.RequestElevation?
  {
    ClaimActs(env, req) + AttemptActs(rate, txHash, Unheard)
  }

  function TwiceActs(env: Env, req: Action, rate: int, txHash: string): seq<Action>
    requires req.RequestElevation?
  {
    LostActs(env, req, rate, txHash) + ReclaimActs(req) + AttemptActs(rate, txHash, Answered)
  }

  lemma LostReached(env: Env, s: State, req: Action, rate: int, txHash: string, s1: State, s2: State)
    requires PaidTwice(env, s, req, rate, txHash) && req.key == ""
    requires s1 == AtClaim(env, s, req) && s2 == Attempted(s1, req, rate, txHash, false)
    ensures Run(env, s, LostActs(env, req, rate, txHash)) == s2
  {
    ClaimReached(env, s, req);
    AttemptReached(env, s, ClaimActs(env, req), s1, req, rate, txHash, Unheard);
  }

  /** The reply to the first debit is lost, the row comes back, and the second debit lands as well. */
  lemma UnkeyedDebitedTwice(env: Env, s: State, req: Action, rate: int, txHash: string)
    requires PaidTwice(env, s, req, rate, txHash) && req.key == ""
    ensures !AtMostOnce(Run(env, s, TwiceActs(env, req, rate, txHash)), req.id)
  {
    var s1 := AtClaim(env, s, req);
    var s2 := Attempted(s1, req, rate, txHash, false);
    var s3 := Staged(s2, req, Claimed);
    LostReached(env, s, req, rate, txHash, s1, s2);
    Reclaimed(env, s, LostActs(env, req, rate, txHash), s2, req, RowFor(env, s, req).(status := Broadcasting));
    AttemptReached(env, s, LostActs(env, req, rate, txHash) + ReclaimActs(req), s3, req, rate, txHash, Answered);
    TwoRecords(s1, req, rate, txHash);
  }

  lemma TwoRecords(s: State, req: Action, rate: int, txHash: string)
    requires req.RequestElevation? && rate > 0 && |s.pcs| > 0 && Takes(s.db, DebitOf(req, txHash))
    requires Takes(Ledger.Apply(s.db, DebitOf(req, txHash)).0, DebitOf(req, txHash))
    ensures var t := Staged(Attempted(s, req, rate, txHash, false), req, Claimed);
            !AtMostOnce(Attempted(t, req, rate, txHash, true), req.id)
  {
    var t := Attempted(Staged(Attempted(s, req, rate, txHash, false), req, Claimed), req, rate, txHash, true);
    var n := |s.debits|;
    assert t.debits[n].id == t.debits[n + 1].id == req.id;
  }

  /** The request's row is there from the first step on, with its key. */
  lemma RowKeepsKey(env: Env, s: State, req: Action, acts: seq<Action>)
    requires Accepted(env, s, req) && acts != [] && acts[0] == req
    ensures req.id in Run(env, s, acts).rows && Run(env, s, acts).rows[req.id].key == req.key
  {
    RequestStep(env, s, req);
    RunNext(env, s, [], s, req, acts[..1], s.(rows := map[req.id := RowFor(env, s, req)]));
    TerminalForEver(env, s, acts, 1, req.id);
  }

  /** Whatever happens after the request, its row is debited at most once. */
  ghost predicate NeverTwice(env: Env, s: State, req: Action)
    requires req.RequestElevation?
  {
    forall acts: seq<Action> :: acts != [] && acts[0] == req ==> AtMostOnce(Run(env, s, acts), req.id)
  }

  /**
   With replies that can be lost, an elevation that the system can send and
   the ledger can pay twice is debited at most once in every run exactly when
   its request carried a key.
   */
  lemma NeverTwiceIff(env: Env, s: State, req: Action, rate: int, txHash: string)
    requires PaidTwice(env, s, req, rate, txHash)
    ensures NeverTwice(env, s, req) <==> req.key != ""
  {
    if req.key != "" {
      forall acts: seq<Action> | acts != [] && acts[0] == req ensures AtMostOnce(Run(env, s, acts), req.id) {
        RowKeepsKey(env, s, req, acts);
        KeyedDebitedAtMostOnce(env, s, acts);
      }
    } else {
      UnkeyedDebitedTwice(env, s, req, rate, txHash);
      assert TwiceActs(env, req, rate, txHash)[0] == req;
    }
  }
}
