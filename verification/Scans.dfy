/** Undisturbed scans: what they take up, and runs of them that are written out. */
module Scans {
  import opened Indexer
  import LogScan

  const SCAN: seq<Action> := [Poll(true), Refresh(true), Fetch(true)]

  lemma Unroll(env: Env, s: State, act: Action, rest: seq<Action>, s': State)
    requires s' == Act(env, s, act)
    ensures Execute(env, s, [act] + rest) == Execute(env, s', rest)
  {
    assert ([act] + rest)[1..] == rest;
  }

  // ---- Three calls in a row ----

  /** There are confirmed blocks at or above the cursor. */
  predicate HasWindow(env: Env, s: State) {
    s.proc.cursor + env.minConf <= Head(s)
  }

  function AtWindow(s: State, phase: Phase): State {
    s.(proc := s.proc.(cloneUser := Routes(s.clones), phase := phase))
  }

  lemma PollStep(env: Env, s: State)
    requires s.proc.cursor > 0 && s.proc.phase.Waiting?
    ensures Act(env, s, Poll(true)) ==
            if HasWindow(env, s) then InPhase(s, Polled(s.proc.cursor, Head(s) - env.minConf)) else s
  {
  }

  lemma RefreshStep(env: Env, s: State, from: nat, last: nat)
    ensures Act(env, InPhase(s, Polled(from, last)), Refresh(true)) == AtWindow(s, Routed(from, last))
  {
  }

  lemma FetchStep(env: Env, s: State, from: nat, last: nat)
    ensures Act(env, AtWindow(s, Routed(from, last)), Fetch(true)) == AtWindow(s, Fetched(s.chain, from, last))
  {
  }

  lemma IdleSteps(env: Env, s: State)
    requires s.proc.phase.Waiting?
    ensures Act(env, s, Refresh(true)) == s && Act(env, s, Fetch(true)) == s
  {
  }

  lemma ScanRoutes(env: Env, s: State, from: nat, last: nat, rest: seq<Action>)
    requires s.proc.cursor > 0 && s.proc.phase.Waiting? && HasWindow(env, s)
    requires from == s.proc.cursor && last == Head(s) - env.minConf
    ensures Execute(env, s, [Poll(true)] + ([Refresh(true)] + rest)) ==
            Execute(env, AtWindow(s, Routed(from, last)), rest)
  {
    PollStep(env, s);
    RefreshStep(env, s, from, last);
    Unroll(env, s, Poll(true), [Refresh(true)] + rest, InPhase(s, Polled(from, last)));
    Unroll(env, InPhase(s, Polled(from, last)), Refresh(true), rest, AtWindow(s, Routed(from, last)));
  }

  lemma WindowOpens(env: Env, s: State, from: nat, last: nat, rest: seq<Action>)
    requires s.proc.cursor > 0 && s.proc.phase.Waiting? && HasWindow(env, s)
    requires from == s.proc.cursor && last == Head(s) - env.minConf
    ensures Execute(env, s, SCAN + rest) == Execute(env, AtWindow(s, Fetched(s.chain, from, last)), rest)
  {
    assert SCAN + rest == [Poll(true)] + ([Refresh(true)] + ([Fetch(true)] + rest));
    ScanRoutes(env, s, from, last, [Fetch(true)] + rest);
    FetchStep(env, s, from, last);
    Unroll(env, AtWindow(s, Routed(from, last)), Fetch(true), rest, AtWindow(s, Fetched(s.chain, from, last)));
  }

  lemma ScanIdles(env: Env, s: State, rest: seq<Action>)
    requires s.proc.cursor > 0 && s.proc.phase.Waiting? && !HasWindow(env, s)
    ensures Execute(env, s, SCAN + rest) == Execute(env, s, rest)
  {
    assert SCAN + rest == [Poll(true)] + ([Refresh(true)] + ([Fetch(true)] + rest));
    PollStep(env, s);
    IdleSteps(env, s);
    Unroll(env, s, Poll(true), [Refresh(true)] + ([Fetch(true)] + rest), s);
    Unroll(env, s, Refresh(true), [Fetch(true)] + rest, s);
    Unroll(env, s, Fetch(true), rest, s);
  }

  // ---- What a scan takes up ----

  lemma FetchedIff(chain: Chain, from: nat, last: nat, t: TokenTransfer)
    requires WellFormed(chain) && last < |chain|
    ensures Job(t, Fresh) in Fetched(chain, from, last).jobs <==> OnChain(chain, t) && from <= t.block <= last
  {
    var logs := TransfersAt(chain);
    var ts := LogScan.Range(logs, from, last);
    LogScan.RangeIff(logs, from, last, t);
    if t in ts {
      var i :| 0 <= i < |ts| && ts[i] == t;
      assert JobsOf(ts)[i] == Job(t, Fresh);
      var n: nat :| from <= n <= last && t in logs(n);
      assert t in chain[n].transfers;
    }
    if OnChain(chain, t) && from <= t.block <= last {
      assert t in logs(t.block);
    }
  }

  /** The process is in a batch that holds the transfer, not yet worked on. */
  predicate TakesUp(s: State, t: TokenTransfer) {
    s.proc.phase.Processing? && Job(t, Fresh) in s.proc.phase.jobs
  }

  lemma WindowTakesUp(s: State, from: nat, last: nat, t: TokenTransfer, u: State)
    requires WellFormed(s.chain) && last < |s.chain| && u == AtWindow(s, Fetched(s.chain, from, last))
    ensures TakesUp(u, t) <==> OnChain(s.chain, t) && from <= t.block <= last
    ensures u.proc.cloneUser == Routes(s.clones)
  {
    FetchedIff(s.chain, from, last, t);
  }

  /**
   A scan none of whose calls fails takes up exactly the confirmed transfers
   from the cursor on, however many blocks have come in, with every clone that
   is known by then in its routing table.
   */
  lemma TakesUpIff(env: Env, s: State, t: TokenTransfer)
    requires WellFormed(s.chain) && s.proc.cursor > 0 && s.proc.phase.Waiting?
    ensures var u := Execute(env, s, SCAN);
            && (TakesUp(u, t) <==> Confirmed(env, s.chain, t) && s.proc.cursor <= t.block)
            && (TakesUp(u, t) ==>
                forall a <- s.clones :: a in u.proc.cloneUser && u.proc.cloneUser[a] == s.clones[a].user)
  {
    assert SCAN + [] == SCAN;
    if HasWindow(env, s) {
      var from, last := s.proc.cursor, Head(s) - env.minConf;
      var u := AtWindow(s, Fetched(s.chain, from, last));
      WindowOpens(env, s, from, last, []);
      assert Execute(env, u, []) == u;
      WindowTakesUp(s, from, last, t, u);
      assert t.block <= last <==> t.block + env.minConf < |s.chain|;
    } else {
      ScanIdles(env, s, []);
    }
  }

  // ---- A scan of one block ----

  function Empty(n: nat): Chain {
    seq(n, _ => Block([], 0))
  }

  /** The process waits at block n, whose transfers are all there is to scan. */
  predicate Waits(env: Env, s: State, n: nat, ts: seq<TokenTransfer>) {
    && 0 < n == s.proc.cursor && s.proc.phase.Waiting? && |s.chain| == n + 1 + env.minConf
    && s.chain[n] == Block(ts, 0) && ts != [] && forall i :: 0 <= i < |ts| ==> ts[i].block == n
  }

  function InBatch(s: State, n: nat, jobs: seq<Job>): State {
    AtWindow(s, Processing(n, n, jobs, n + 1))
  }

  lemma BatchIs(chain: Chain, n: nat, ts: seq<TokenTransfer>)
    requires n < |chain| && chain[n] == Block(ts, 0) && ts != [] && forall i :: 0 <= i < |ts| ==> ts[i].block == n
    ensures Fetched(chain, n, n) == Processing(n, n, JobsOf(ts), n + 1)
  {
    assert LogScan.Range(TransfersAt(chain), n + 1, n) == [];
    assert LogScan.Range(TransfersAt(chain), n, n) == ts;
    assert LogScan.Range(VaultLogsAt(chain), n, n) == [];
    var blocks := BlocksOf(ts);
    assert blocks + [] == blocks;
    assert blocks[0] in blocks && forall b <- blocks :: b == n;
  }

  /** Three calls take a process that waits at a block to its batch. */
  lemma ScanOpens(env: Env, s: State, n: nat, ts: seq<TokenTransfer>, rest: seq<Action>)
    requires Waits(env, s, n, ts)
    ensures Execute(env, s, SCAN + rest) == Execute(env, InBatch(s, n, JobsOf(ts)), rest)
  {
    WindowOpens(env, s, n, n, rest);
    BatchIs(s.chain, n, ts);
  }
}
