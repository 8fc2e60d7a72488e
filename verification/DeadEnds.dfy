/**
 Where elevations end up without a broadcast: rows left claimed by nobody, and
 signed intents that are expired while they could still be relayed.
 */
module DeadEnds {
  import opened Int64
  import Ledger
  import opened Withdrawals
  import Solvency

  // ---- Rows claimed by nobody ----

  predicate Held(s: State, id: nat) {
    exists a :: 0 <= a < |s.pcs| && Holds(s.pcs[a]) == Ledger.Some(id)
  }

  /** Claimed for broadcast, and no agent is at work on it. */
  predicate Stuck(s: State, id: nat) {
    id in s.rows && s.rows[id].status == Broadcasting && !Held(s, id)
  }

  /** Agent a moved, and neither it nor its change touches the row. */
  lemma AgentLeavesStuck(s: State, t: State, a: nat, id: nat)
    requires Stuck(s, id) && a < |s.pcs| == |t.pcs| && t.pcs == s.pcs[a := t.pcs[a]]
    requires id in t.rows && t.rows[id] == s.rows[id] && Holds(t.pcs[a]) != Ledger.Some(id)
    ensures Stuck(t, id)
  {
    forall b | 0 <= b < |t.pcs| ensures Holds(t.pcs[b]) != Ledger.Some(id) {
      assert b != a ==> t.pcs[b] == s.pcs[b];
    }
  }

  lemma JobLeavesStuck(env: Env, s: State, act: Action, id: nat)
    requires Stuck(s, id) && InJob(act)
    ensures Stuck(Act(env, s, act), id)
  {
    JobShape(env, s, act);
    var t := Act(env, s, act);
    if t != s {
      assert Holds(t.pcs[act.a]) == Holds(s.pcs[act.a]);
      AgentLeavesStuck(s, t, act.a, id);
    }
  }

  lemma OutsideLeavesStuck(env: Env, s: State, act: Action, id: nat)
    requires Stuck(s, id) && Outside(act)
    ensures Stuck(Act(env, s, act), id)
  {
    assert Act(env, s, act).pcs == s.pcs;
  }

  lemma ClaimLeavesStuck(s: State, a: nat, ok: bool, id: nat)
    requires Stuck(s, id) && a < |s.pcs| && s.pcs[a].Sweeping?
    ensures Stuck(DoClaim(s, a, ok), id)
  {
    AgentLeavesStuck(s, DoClaim(s, a, ok), a, id);
  }

  lemma LivenessLeavesStuck(s: State, a: nat, cloneOk: bool, nonceOk: bool, markOk: bool, id: nat)
    requires Stuck(s, id) && a < |s.pcs| && s.pcs[a].Busy? && s.pcs[a].stage.Claimed? && s.pcs[a].job.row.Some?
    ensures Stuck(DoLiveness(s, a, cloneOk, nonceOk, markOk), id)
  {
    assert Holds(s.pcs[a]) != Ledger.Some(id);
    AgentLeavesStuck(s, DoLiveness(s, a, cloneOk, nonceOk, markOk), a, id);
  }

  lemma FinishLeavesStuck(s: State, a: nat, ok: bool, id: nat)
    requires Stuck(s, id) && a < |s.pcs| && s.pcs[a].Busy? && (s.pcs[a].stage.Done? || s.pcs[a].stage.Failed?)
    ensures Stuck(DoFinish(s, a, ok), id)
  {
    assert Holds(s.pcs[a]) != Ledger.Some(id);
    AgentLeavesStuck(s, DoFinish(s, a, ok), a, id);
  }

  lemma SweeperLeavesStuck(env: Env, s: State, act: Action, id: nat)
    requires Stuck(s, id) && !Outside(act) && !InJob(act)
    ensures Stuck(Act(env, s, act), id)
  {
    var t := Act(env, s, act);
    if t != s {
      if act.Claim? {
        ClaimLeavesStuck(s, act.a, act.ok, id);
      } else if act.Liveness? {
        LivenessLeavesStuck(s, act.a, act.cloneOk, act.nonceOk, act.markOk, id);
      } else if act.Finish? {
        FinishLeavesStuck(s, act.a, act.ok, id);
      } else {
        AgentLeavesStuck(s, t, act.a, id);
      }
    }
  }

  /**
   A row left claimed by nobody, whether its agent crashed, its broadcast
   could not be recorded or its release was refused, stays so in every
   continuation of every run: no sweep, cancel or request gets it back.
   */
  lemma {:induction false} StuckForEver(env: Env, s: State, acts: seq<Action>, k: nat, id: nat)
    requires Initial(s) && k <= |acts| && Stuck(Run(env, s, acts[..k]), id)
    ensures Stuck(Run(env, s, acts), id)
    decreases |acts|
  {
    if k == |acts| {
      assert acts[..k] == acts;
    } else {
      var before, act := acts[..|acts| - 1], acts[|acts| - 1];
      assert before[..k] == acts[..k];
      StuckForEver(env, s, before, k, id);
      RunClaims(env, s, before);
      if InJob(act) {
        JobLeavesStuck(env, Run(env, s, before), act, id);
      } else if Outside(act) {
        OutsideLeavesStuck(env, Run(env, s, before), act, id);
      } else {
        SweeperLeavesStuck(env, Run(env, s, before), act, id);
      }
    }
  }

  /**
   When a claimed row's withdrawal has failed, the row is pending again
   exactly when the release call succeeds and its content was not requested
   anew in the meantime; otherwise it is stuck.
   */
  lemma FailedReturnsIff(s: State, a: nat, ok: bool, id: nat)
    requires ClaimInv(s) && a < |s.pcs| && Holds(s.pcs[a]) == Ledger.Some(id) && s.pcs[a].stage.Failed?
    ensures var t := DoFinish(s, a, ok);
            && (t.rows[id].status == Pending <==> ok && !PendingTwin(s, s.rows[id], id))
            && (t.rows[id].status != Pending ==> Stuck(t, id))
  {
    assert HoldsClaim(s, s.pcs[a]);
    var t := DoFinish(s, a, ok);
    forall b | 0 <= b < |t.pcs| ensures Holds(t.pcs[b]) != Ledger.Some(id) {
      if b != a {
        assert b < a ==> Holds(s.pcs[b]).Some? ==> Holds(s.pcs[b]) != Holds(s.pcs[a]);
      }
    }
  }

  /**
   When a claimed row's withdrawal is done, the row is marked broadcast, and
   nothing else about it changes, exactly when the update succeeds; otherwise
   it is stuck.
   */
  lemma DoneBroadcastIff(s: State, a: nat, ok: bool, id: nat)
    requires ClaimInv(s) && a < |s.pcs| && Holds(s.pcs[a]) == Ledger.Some(id) && s.pcs[a].stage.Done?
    ensures var t := DoFinish(s, a, ok);
            && id in t.rows && t.rows[id] == s.rows[id].(status := t.rows[id].status)
            && (t.rows[id].status == Broadcast <==> ok)
            && (!ok ==> Stuck(t, id))
            && t.db == s.db && t.debits == s.debits && t.log == s.log && t.now == s.now
  {
    assert HoldsClaim(s, s.pcs[a]);
    var t := DoFinish(s, a, ok);
    forall b | 0 <= b < |t.pcs| ensures Holds(t.pcs[b]) != Ledger.Some(id) {
      if b != a {
        assert b < a ==> Holds(s.pcs[b]).Some? ==> Holds(s.pcs[b]) != Holds(s.pcs[a]);
      }
    }
  }

  // ---- Runs ----

  /** One more action at the end of a run. */
  lemma RunNext(env: Env, s: State, acts: seq<Action>, t: State, act: Action, acts': seq<Action>, t': State)
    requires Run(env, s, acts) == t && acts' == acts + [act] && t' == Act(env, t, act)
    ensures Run(env, s, acts') == t'
  {
    assert acts'[..|acts|] == acts;
  }

  /** Request `req` is accepted as the first elevation of a system with an idle agent. */
  ghost predicate Accepted(env: Env, s: State, req: Action) {
    && Initial(s) && |s.pcs| > 0 && req.RequestElevation?
    && env.threshold > 0 && req.amount > env.threshold
    && Solvency.Sufficient(s.db, req.user, Wrap(req.amount + req.fee))
    && (req.sig.raw != [] ==> FreshSig(req.sig, s.now))
  }

  function RowFor(env: Env, s: State, req: Action): Row
    requires req.RequestElevation?
  {
    Row(req.user, req.dest, req.amount, req.fee, s.now + env.delay, req.key, req.sig, Pending)
  }

  function ClaimActs(env: Env, req: Action): seq<Action>
    requires req.RequestElevation?
  {
    [req, Tick(env.delay), Sweep(0, [req.id]), Claim(0, true)]
  }

  /** The row has waited out its delay and agent 0 has claimed it. */
  function AtClaim(env: Env, s: State, req: Action): State
    requires req.RequestElevation? && |s.pcs| > 0
  {
    var row := RowFor(env, s, req);
    s.(now := s.now + env.delay, rows := map[req.id := row.(status := Broadcasting)],
       pcs := s.pcs[0 := Busy(Claimed, JobOf(req.id, row), [])])
  }

  lemma RequestStep(env: Env, s: State, req: Action)
    requires Accepted(env, s, req)
    ensures Act(env, s, req) == s.(rows := map[req.id := RowFor(env, s, req)])
  {
    assert !PendingTwin(s, RowFor(env, s, req), req.id);
    assert s.rows[req.id := RowFor(env, s, req)] == map[req.id := RowFor(env, s, req)];
  }

  lemma SweepStep(env: Env, s: State, id: nat)
    requires |s.pcs| > 0 && s.pcs[0].Idle? && id in s.rows && s.rows[id].status == Pending
    requires s.rows[id].releaseAfter <= s.now
    ensures Act(env, s, Sweep(0, [id])) == SetPc(s, 0, Sweeping([id]))
  {
    assert forall k <- [id] :: k == id;
  }

  lemma ClaimStepIs(env: Env, s: State, id: nat)
    requires |s.pcs| > 0 && s.pcs[0] == Sweeping([id]) && id in s.rows && s.rows[id].status == Pending
    ensures Act(env, s, Claim(0, true)) ==
            SetPc(SetStatus(s, id, Broadcasting), 0, Busy(Claimed, JobOf(id, s.rows[id]), []))
  {
    assert [id][1..] == [];
  }

  lemma Waited(env: Env, s: State, req: Action, t: State)
    requires Accepted(env, s, req) && t == s.(rows := map[req.id := RowFor(env, s, req)], now := s.now + env.delay)
    ensures Run(env, s, [req, Tick(env.delay)]) == t
  {
    var s1 := s.(rows := map[req.id := RowFor(env, s, req)]);
    RequestStep(env, s, req);
    RunNext(env, s, [], s, req, [req], s1);
    RunNext(env, s, [req], s1, Tick(env.delay), [req, Tick(env.delay)], t);
  }

  lemma ClaimSteps(env: Env, s: State, req: Action, s2: State, s3: State, t: State)
    requires Accepted(env, s, req) && s2 == s.(rows := map[req.id := RowFor(env, s, req)], now := s.now + env.delay)
    requires s3 == SetPc(s2, 0, Sweeping([req.id])) && t == AtClaim(env, s, req)
    ensures Act(env, s2, Sweep(0, [req.id])) == s3 && Act(env, s3, Claim(0, true)) == t
  {
    assert s.pcs[0].Idle?;
    SweepStep(env, s2, req.id);
    ClaimStepIs(env, s3, req.id);
  }

  lemma ClaimReached(env: Env, s: State, req: Action)
    requires Accepted(env, s, req)
    ensures Run(env, s, ClaimActs(env, req)) == AtClaim(env, s, req)
  {
    var s2 := s.(rows := map[req.id := RowFor(env, s, req)], now := s.now + env.delay);
    var s3 := SetPc(s2, 0, Sweeping([req.id]));
    var waited := [req, Tick(env.delay)];
    Waited(env, s, req, s2);
    ClaimSteps(env, s, req, s2, s3, AtClaim(env, s, req));
    RunNext(env, s, waited, s2, Sweep(0, [req.id]), waited + [Sweep(0, [req.id])], s3);
    RunNext(env, s, waited + [Sweep(0, [req.id])], s3, Claim(0, true), ClaimActs(env, req), AtClaim(env, s, req));
  }

  // ---- A run that leaves a row stuck ----

  /** The same request under another id. */
  function Again(req: Action, id: nat): Action
    requires req.RequestElevation?
  {
    RequestElevation(id, req.user, req.dest, req.amount, req.fee, req.sig, req.key)
  }

  function StuckActs(env: Env, req: Action, id: nat): seq<Action>
    requires req.RequestElevation?
  {
    ClaimActs(env, req) + [Again(req, id), Liveness(0, true, true, true), Precheck(0, 1, true, false), Finish(0, true)]
  }

  /** The content is requested again while its first row is claimed. */
  lemma SecondRequest(env: Env, s: State, req: Action, id: nat, t: State)
    requires Accepted(env, s, req) && req.sig.raw == [] && id != req.id
    requires t == AtClaim(env, s, req).(rows := AtClaim(env, s, req).rows[id := RowFor(env, AtClaim(env, s, req), req)])
    ensures Act(env, AtClaim(env, s, req), Again(req, id)) == t
  {
  }

  lemma FailureSteps(env: Env, s: State)
    requires |s.pcs| > 0 && s.pcs[0].Busy? && s.pcs[0].stage.Claimed? && s.pcs[0].job.row.Some?
    requires s.pcs[0].job.row.value in s.rows && s.rows[s.pcs[0].job.row.value].sig.raw == []
    requires !Ledger.KeyUsed(s.db, s.pcs[0].job.key)
    ensures Act(env, s, Liveness(0, true, true, true)) == Advance(s, 0, Executing)
    ensures Act(env, Advance(s, 0, Executing), Precheck(0, 1, true, false)) == Advance(s, 0, Failed)
  {
  }

  /** Agent 0 holds the failed first row while the second one is pending. */
  function AtFailure(env: Env, s: State, req: Action, id: nat): State
    requires req.RequestElevation? && |s.pcs| > 0
  {
    var t := AtClaim(env, s, req);
    Advance(t.(rows := t.rows[id := RowFor(env, t, req)]), 0, Failed)
  }

  lemma FailureReached(env: Env, s: State, req: Action, id: nat, acts: seq<Action>)
    requires Accepted(env, s, req) && req.sig.raw == [] && id != req.id && !Ledger.KeyUsed(s.db, req.key)
    requires acts == ClaimActs(env, req) + [Again(req, id), Liveness(0, true, true, true), Precheck(0, 1, true, false)]
    ensures Run(env, s, acts) == AtFailure(env, s, req, id)
  {
    var s4 := AtClaim(env, s, req);
    var s5 := s4.(rows := s4.rows[id := RowFor(env, s4, req)]);
    var claimed := ClaimActs(env, req);
    var again, live := Again(req, id), Liveness(0, true, true, true);
    ClaimReached(env, s, req);
    SecondRequest(env, s, req, id, s5);
    RunNext(env, s, claimed, s4, again, claimed + [again], s5);
    FailureSteps(env, s5);
    var s6 := Advance(s5, 0, Executing);
    RunNext(env, s, claimed + [again], s5, live, claimed + [again, live], s6);
    RunNext(env, s, claimed + [again, live], s6, Precheck(0, 1, true, false), acts, AtFailure(env, s, req, id));
  }

  lemma TwinPending(env: Env, s: State, req: Action, id: nat, t: State)
    requires req.RequestElevation? && |s.pcs| > 0 && id != req.id && t == AtFailure(env, s, req, id)
    ensures |t.pcs| > 0 && Holds(t.pcs[0]) == Ledger.Some(req.id) && t.pcs[0].stage.Failed?
    ensures req.id in t.rows && PendingTwin(t, t.rows[req.id], req.id)
  {
    assert t.rows[id].status == Pending && t.rows[id].SameContent(t.rows[req.id]);
  }

  lemma FinishIs(env: Env, s: State)
    requires |s.pcs| > 0 && s.pcs[0].Busy? && s.pcs[0].stage.Failed?
    ensures Act(env, s, Finish(0, true)) == DoFinish(s, 0, true)
  {
  }

  /** A release that meets the same content pending again leaves the row claimed by nobody. */
  lemma ReleaseMeetsTwin(env: Env, s: State, req: Action, id: nat)
    requires Accepted(env, s, req) && req.sig.raw == [] && id != req.id && !Ledger.KeyUsed(s.db, req.key)
    ensures Stuck(Run(env, s, StuckActs(env, req, id)), req.id)
  {
    var acts := ClaimActs(env, req) + [Again(req, id), Liveness(0, true, true, true), Precheck(0, 1, true, false)];
    FailureReached(env, s, req, id, acts);
    RunClaims(env, s, acts);
    FailureSticks(env, s, req, id, AtFailure(env, s, req, id));
    FinishIs(env, AtFailure(env, s, req, id));
    RunNext(env, s, acts, AtFailure(env, s, req, id), Finish(0, true), StuckActs(env, req, id),
            DoFinish(AtFailure(env, s, req, id), 0, true));
  }

  lemma FailureSticks(env: Env, s: State, req: Action, id: nat, t: State)
    requires req.RequestElevation? && |s.pcs| > 0 && id != req.id && t == AtFailure(env, s, req, id) && ClaimInv(t)
    ensures t.pcs[0].Busy? && t.pcs[0].stage.Failed? && Stuck(DoFinish(t, 0, true), req.id)
  {
    TwinPending(env, s, req, id, t);
    FailedReturnsIff(t, 0, true, req.id);
  }

  // ---- Signed intents ----

  lemma OthersNeverExpire(env: Env, s: State, act: Action, t: State, id: nat)
    requires t == Act(env, s, act) && !act.Liveness? && id in s.rows && id in t.rows && s.rows[id].status != Expired
    ensures t.rows[id].status != Expired
  {
    if InJob(act) {
      JobShape(env, s, act);
    }
  }

  /**
   A step expires a row only as its holder's liveness check, on a passed
   deadline or a nonce it could not confirm; and the intent was still live
   exactly when its deadline was ahead, its nonce current and the read failed.
   */
  lemma ExpiryIsLiveness(env: Env, s: State, act: Action, t: State, id: nat)
    requires ClaimInv(s) && t == Act(env, s, act)
    requires id in s.rows && id in t.rows && s.rows[id].status != Expired && t.rows[id].status == Expired
    ensures act.Liveness? && IsBusy(s, act.a) && Holds(s.pcs[act.a]) == Ledger.Some(id)
    ensures DeadlinePassed(s, s.rows[id]) || NonceGone(s, s.rows[id], act.nonceOk)
    ensures var r := s.rows[id];
            !Dead(s, r) <==>
            !DeadlinePassed(s, r) && !act.nonceOk && r.user in s.clones && NonceOf(s, s.clones[r.user]) == r.sig.nonce
  {
    if !act.Liveness? {
      OthersNeverExpire(env, s, act, t, id);
    } else {
      assert HoldsClaim(s, s.pcs[act.a]);
    }
  }

  /** In every run whose nonce reads succeed, a row that expires could no longer be relayed. */
  lemma ExpiredWasDead(env: Env, s: State, acts: seq<Action>, k: nat, id: nat)
    requires Initial(s) && k < |acts| && forall i :: 0 <= i < |acts| && acts[i].Liveness? ==> acts[i].nonceOk
    requires id in Run(env, s, acts[..k]).rows && Run(env, s, acts[..k]).rows[id].status != Expired
    requires id in Run(env, s, acts[..k + 1]).rows && Run(env, s, acts[..k + 1]).rows[id].status == Expired
    ensures Dead(Run(env, s, acts[..k]), Run(env, s, acts[..k]).rows[id])
  {
    var t := Run(env, s, acts[..k]);
    RunClaims(env, s, acts[..k]);
    assert acts[..k + 1][..k] == acts[..k];
    ExpiryIsLiveness(env, t, acts[k], Run(env, s, acts[..k + 1]), id);
  }

  /** A live signed intent is expired exactly when its nonce matters and could not be read. */
  lemma LiveExpiresIff(s: State, a: nat, cloneOk: bool, nonceOk: bool, markOk: bool, id: nat)
    requires ClaimInv(s) && a < |s.pcs| && Holds(s.pcs[a]) == Ledger.Some(id) && s.pcs[a].stage.Claimed?
    requires !Dead(s, s.rows[id])
    ensures DoLiveness(s, a, cloneOk, nonceOk, markOk).rows[id].status == Expired <==>
            var r := s.rows[id];
            r.sig.raw != [] && r.sig.nonce > 0 && r.user in s.clones && cloneOk && !nonceOk && markOk
  {
    assert HoldsClaim(s, s.pcs[a]);
  }

  /** An intent that is dead is expired unless the clone lookup it needs, or the update itself, fails. */
  lemma DeadExpiresIff(s: State, a: nat, cloneOk: bool, nonceOk: bool, markOk: bool, id: nat)
    requires ClaimInv(s) && a < |s.pcs| && Holds(s.pcs[a]) == Ledger.Some(id) && s.pcs[a].stage.Claimed?
    requires Dead(s, s.rows[id])
    ensures DoLiveness(s, a, cloneOk, nonceOk, markOk).rows[id].status == Expired <==>
            markOk && (0 < s.rows[id].sig.deadline < s.now || cloneOk)
  {
    assert HoldsClaim(s, s.pcs[a]);
  }

  /** The withdrawal goes on exactly when nothing was signed, or the deadline is ahead and a signed nonce confirmed. */
  lemma GoesOnIff(s: State, a: nat, cloneOk: bool, nonceOk: bool, markOk: bool, id: nat)
    requires ClaimInv(s) && a < |s.pcs| && Holds(s.pcs[a]) == Ledger.Some(id) && s.pcs[a].stage.Claimed?
    ensures var t, sig := DoLiveness(s, a, cloneOk, nonceOk, markOk), s.rows[id].sig;
            && IsBusy(t, a) && t.pcs[a].stage.Executing? <==>
            || sig.raw == []
            || (&& !(0 < sig.deadline < s.now)
                && (sig.nonce > 0 ==>
                    && cloneOk
                    && (s.rows[id].user in s.clones ==>
                        nonceOk && NonceOf(s, s.clones[s.rows[id].user]) == sig.nonce)))
  {
    assert HoldsClaim(s, s.pcs[a]);
  }

  lemma UnreadNonce(env: Env, s: State, req: Action, t: State)
    requires req.RequestElevation? && |s.pcs| > 0 && req.sig.raw != [] && req.sig.deadline >= s.now + env.delay
    requires req.user in s.clones && req.sig.nonce > 0 && NonceOf(s, s.clones[req.user]) == req.sig.nonce
    requires t == AtClaim(env, s, req)
    ensures !Dead(t, t.rows[req.id]) && DoLiveness(t, 0, true, false, true).rows[req.id].status == Expired
    ensures Act(env, t, Liveness(0, true, false, true)) == DoLiveness(t, 0, true, false, true)
  {
  }

  /** One failed read of the nonce ends an intent whose deadline is ahead and whose nonce is current. */
  lemma FailedReadExpires(env: Env, s: State, req: Action)
    requires Accepted(env, s, req) && req.sig.raw != [] && req.sig.deadline >= s.now + env.delay
    requires req.user in s.clones && req.sig.nonce > 0 && NonceOf(s, s.clones[req.user]) == req.sig.nonce
    ensures var before := AtClaim(env, s, req);
            Run(env, s, ClaimActs(env, req)) == before && !Dead(before, before.rows[req.id])
    ensures var after := Run(env, s, ClaimActs(env, req) + [Liveness(0, true, false, true)]);
            req.id in after.rows && after.rows[req.id].status == Expired
  {
    var t := AtClaim(env, s, req);
    ClaimReached(env, s, req);
    UnreadNonce(env, s, req, t);
    RunNext(env, s, ClaimActs(env, req), t, Liveness(0, true, false, true),
            ClaimActs(env, req) + [Liveness(0, true, false, true)],
            DoLiveness(t, 0, true, false, true));
  }
}
