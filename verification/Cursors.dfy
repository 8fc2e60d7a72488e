/** The indexer's cursors: in memory, stored, and the base that scans count from. */
module Cursors {
  import opened Indexer
  import opened IndexerInvariant
  import opened Scans

  /** The actions of one process. */
  predicate NoRestart(acts: seq<Action>) {
    forall i :: 0 <= i < |acts| ==> !acts[i].Restart?
  }

  /** Only a baseline, taken without a cursor, moves the base; only a restart moves the cursor back. */
  lemma CursorStep(env: Env, s: State, act: Action)
    requires !act.Restart?
    ensures var s' := Act(env, s, act); s'.proc.cursor >= s.proc.cursor && (s.proc.cursor > 0 ==> s'.base == s.base)
  {
  }

  /** Within one process the cursor never moves back. */
  lemma {:induction false} CursorNeverDecreases(env: Env, s: State, acts: seq<Action>)
    requires NoRestart(acts)
    ensures Execute(env, s, acts).proc.cursor >= s.proc.cursor
    decreases |acts|
  {
    if acts != [] {
      assert !acts[0].Restart?;
      CursorStep(env, s, acts[0]);
      CursorNeverDecreases(env, Act(env, s, acts[0]), acts[1..]);
    }
  }

  // ---- The stored cursor ----

  /** The stored cursor is no further than the one in memory, nor is the one about to be stored. */
  predicate Behind(s: State) {
    s.stored <= s.proc.cursor && (s.proc.phase.Saving? ==> s.proc.phase.next <= s.proc.cursor)
  }

  lemma BehindStep(env: Env, s: State, act: Action)
    requires Behind(s) && !act.Restart?
    ensures Behind(Act(env, s, act))
  {
  }

  lemma {:induction false} BehindRun(env: Env, s: State, acts: seq<Action>)
    requires Behind(s) && NoRestart(acts)
    ensures Behind(Execute(env, s, acts))
    decreases |acts|
  {
    if acts != [] {
      BehindStep(env, s, acts[0]);
      BehindRun(env, Act(env, s, acts[0]), acts[1..]);
    }
  }

  /** Whatever the process does, it never stores a cursor beyond its own. */
  ghost predicate StaysBehind(env: Env, s: State) {
    forall acts: seq<Action> ::
      NoRestart(acts) ==> Execute(env, s, acts).stored <= Execute(env, s, acts).proc.cursor
  }

  /**
   The stored cursor never passes the one in memory, from a restart to the
   next, exactly when the restart could read it or it was no further than the
   configured start block.
   */
  lemma StoredBehindCursorIff(env: Env, s: State, ok: bool)
    ensures StaysBehind(env, DoRestart(env, s, ok)) <==> ok || s.stored <= env.startBlock
  {
    var s' := DoRestart(env, s, ok);
    if ok || s.stored <= env.startBlock {
      forall acts: seq<Action> | NoRestart(acts)
        ensures Execute(env, s', acts).stored <= Execute(env, s', acts).proc.cursor
      {
        BehindRun(env, s', acts);
      }
    } else {
      assert NoRestart([]) && Execute(env, s', []) == s';
    }
  }

  /** What the end of a batch with new events leaves in memory, once it is stored. */
  lemma SavedScan(env: Env, s: State, u: State)
    requires s.proc.phase.Processing? && AllDone(s.proc.phase.jobs) && s.proc.phase.next > s.proc.cursor
    requires u == Act(env, Act(env, s, Finish), Save(true))
    ensures u.proc.phase.Waiting? && u.proc.cursor == u.stored == s.proc.phase.next
  {
  }

  /** A process that dies after a batch was stored is followed by one that goes on where it was. */
  lemma RestartResumes(env: Env, s: State, u: State)
    requires s.proc.phase.Processing? && AllDone(s.proc.phase.jobs) && s.proc.phase.next > s.proc.cursor
    requires u == Act(env, Act(env, s, Finish), Save(true))
    ensures Act(env, u, Restart(true)).proc.cursor == u.proc.cursor == s.proc.phase.next
  {
    SavedScan(env, s, u);
  }

  // ---- The base ----

  lemma {:induction false} BaseStays(env: Env, s: State, acts: seq<Action>)
    requires s.proc.cursor > 0 && NoRestart(acts)
    ensures Execute(env, s, acts).base == s.base
    decreases |acts|
  {
    if acts != [] {
      assert !acts[0].Restart?;
      CursorStep(env, s, acts[0]);
      BaseStays(env, Act(env, s, acts[0]), acts[1..]);
    }
  }

  /** The base stays where it is, whatever the new process does. */
  ghost predicate KeepsBase(env: Env, s: State, base: nat) {
    forall acts: seq<Action> :: NoRestart(acts) ==> Execute(env, s, acts).base == base
  }

  /** A process that starts without a cursor takes the head of the day as its baseline. */
  lemma BaselineMoves(env: Env, s: State) returns (acts: seq<Action>)
    requires WellFormed(s.chain) && s.proc.cursor == 0 && s.proc.phase.Waiting? && s.base <= Head(s)
    ensures NoRestart(acts)
    ensures Execute(env, s, acts).base > Head(s)
  {
    var chain := s.chain + Empty(env.minConf + 1);
    assert forall t :: OnChain(chain, t) ==> OnChain(s.chain, t);
    assert Extends(env, s.chain, chain);
    acts := [Mine(chain), Poll(true)];
    var s1 := Act(env, s, acts[0]);
    assert acts[1..] == [acts[1]] && acts[1..][1..] == [];
    assert Execute(env, s, acts) == Execute(env, s1, [acts[1]]) == Act(env, s1, acts[1]);
  }

  /**
   A restart keeps counting from the old base exactly when a start block is
   configured or the stored cursor could be read and is set; otherwise the
   blocks between the old base and the next head are never scanned.
   */
  lemma RestartKeepsBaseIff(env: Env, s: State, ok: bool)
    requires Inv(env, s)
    ensures KeepsBase(env, DoRestart(env, s, ok), s.base) <==> env.startBlock > 0 || (ok && s.stored > 0)
  {
    var s' := DoRestart(env, s, ok);
    if env.startBlock > 0 || (ok && s.stored > 0) {
      forall acts: seq<Action> | NoRestart(acts) ensures Execute(env, s', acts).base == s.base {
        BaseStays(env, s', acts);
      }
    } else {
      var acts := BaselineMoves(env, s');
      assert Execute(env, s', acts).base != s.base;
    }
  }

  // ---- Windows without events ----

  /**
   A scan moves its cursor past the whole window exactly when the last block
   had an event, and leaves it where it was exactly when none had.
   */
  lemma WindowPassedIff(from: nat, last: nat, blocks: seq<nat>)
    requires from <= last && forall b <- blocks :: from <= b <= last
    ensures NextCursor(from, blocks) == last + 1 <==> last in blocks
    ensures NextCursor(from, blocks) == from <==> blocks == []
  {
    if blocks != [] {
      assert blocks[0] in blocks;
    }
  }
}
