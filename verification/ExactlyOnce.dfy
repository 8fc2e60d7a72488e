/** What follows over whole runs of the deposit indexer. */
module ExactlyOnce {
  import opened Ledger
  import opened Indexer
  import opened IndexerInvariant
  import Conservation

  // ---- Exactly once ----

  /** Row i is the credit of t, it posted one entry for its amount, and no other row has its key. */
  ghost predicate OnlyCredit(env: Env, s: State, t: TokenTransfer, i: nat) {
    var txns := s.books.db.txns;
    && i < |txns| && Pays(env, s.clones, s.past, t, txns[i]) && Conservation.Booked(s.books.db, i)
    && forall j :: 0 <= j < |txns| && txns[j].key == txns[i].key ==> j == i
  }

  /** Both transfers are credited under one key: same transaction, and both into clones or both into the vault. */
  predicate SharesKey(env: Env, clones: map<string, Clone>, t: TokenTransfer, t': TokenTransfer) {
    t.tx == t'.tx && (t.to == env.vault <==> t'.to == env.vault) && (t'.to == env.vault || t'.to in clones)
  }

  /** No other transfer of t's transaction is credited under t's key. */
  ghost predicate Alone(env: Env, s: State, t: TokenTransfer) {
    forall t' :: OnChain(s.chain, t') && SharesKey(env, s.clones, t, t') ==> t' == t
  }

  function KeyOf(env: Env, t: TokenTransfer): string {
    if t.to == env.vault then VaultKey(t.tx) else CloneKey(t.tx)
  }

  /** A row with t's key pays some transfer of the chain that shares the key. */
  lemma KeyPays(env: Env, s: State, t: TokenTransfer, i: nat) returns (t': TokenTransfer)
    requires Inv(env, s) && i < |s.books.db.txns| && s.books.db.txns[i].key == KeyOf(env, t)
    requires t.to == env.vault || t.to in s.clones
    ensures Confirmed(env, s.chain, t') && Pays(env, s.clones, s.past, t', s.books.db.txns[i])
    ensures SharesKey(env, s.clones, t, t')
  {
    var txn := s.books.db.txns[i];
    assert Ours(txn.key);
    t' :| Confirmed(env, s.chain, t') && Pays(env, s.clones, s.past, t', txn);
    KeysDistinct(t.tx, t'.tx);
    KeysDistinct(t'.tx, t.tx);
  }

  /**
   After every run of scans, crashes, restarts, reorganisations and operator
   attributions, a due transfer between the base and the cursor has exactly
   one credit, for its own value and for its clone's user or, in the shared
   vault, a user its sender was linked to, unless its handler reported an
   error or its flag waits for an operator. The transfer must be the only one
   credited under its key.
   */
  lemma CreditedExactlyOnce(env: Env, s0: State, acts: seq<Action>, t: TokenTransfer)
    requires Init(env, s0)
    requires var s := Execute(env, s0, acts);
             && OnChain(s.chain, t) && s.base <= t.block < s.proc.cursor && Due(env, s.clones, t)
             && t !in s.books.ignored && t !in s.books.lost && Alone(env, s, t)
    ensures var s := Execute(env, s0, acts);
            (exists i :: OnlyCredit(env, s, t, i)) || (t.to == env.vault && Flagged(s.books, (t.tx, t.log)))
  {
    var s := Execute(env, s0, acts);
    InitInv(env, s0);
    RunInv(env, s0, acts);
    assert Settled(env, s.books, t);
    if HasKey(s.books.db, KeyOf(env, t)) {
      var i :| 0 <= i < |s.books.db.txns| && s.books.db.txns[i].key == KeyOf(env, t);
      var t' := KeyPays(env, s, t, i);
      assert t' == t;
      assert Ours(KeyOf(env, t));
      KeyNonEmpty(t);
      assert OnlyCredit(env, s, t, i);
    }
  }

  lemma KeyNonEmpty(t: TokenTransfer)
    ensures CloneKey(t.tx) != "" && VaultKey(t.tx) != ""
  {
    KeysDistinct(t.tx, t.tx);
  }

  /** Nothing inside the confirmation window is ever credited or flagged. */
  lemma NothingUnconfirmed(env: Env, s0: State, acts: seq<Action>, i: nat)
    requires Init(env, s0)
    requires var s := Execute(env, s0, acts); i < |s.books.db.txns| && Ours(s.books.db.txns[i].key)
    ensures var s := Execute(env, s0, acts);
            exists t ::
              && OnChain(s.chain, t) && t.block <= Head(s) - env.minConf
              && Pays(env, s.clones, s.past, t, s.books.db.txns[i])
  {
    InitInv(env, s0);
    RunInv(env, s0, acts);
    var s := Execute(env, s0, acts);
    assert Sourced(env, s.chain, s.clones, s.past, s.books.db.txns[i]);
  }

  /**
   Credits are keyed by transaction: two transfers of one transaction that are
   routed alike can never both have a credit of their own.
   */
  lemma SharedTransactionSharesCredit(env: Env, s: State, t: TokenTransfer, t': TokenTransfer, i: nat, j: nat)
    requires Inv(env, s) && SharesKey(env, s.clones, t, t')
    requires i < |s.books.db.txns| && s.books.db.txns[i].key == KeyOf(env, t)
    requires j < |s.books.db.txns| && s.books.db.txns[j].key == KeyOf(env, t')
    ensures i == j
  {
    KeyNonEmpty(t);
  }

  // ---- One credit per transaction ----

  /** Due clone deposits below the cursor whose handlers reported no error. */
  ghost predicate Payable(env: Env, s: State, t: TokenTransfer) {
    && OnChain(s.chain, t) && s.base <= t.block < s.proc.cursor && Due(env, s.clones, t) && t.to != env.vault
    && t !in s.books.ignored && t !in s.books.lost
  }

  /** `row` gives every transfer a credit under its key that no other has. */
  ghost predicate OwnCredits(env: Env, s: State, ts: set<TokenTransfer>, row: map<TokenTransfer, nat>) {
    && row.Keys == ts
    && (forall t <- ts :: row[t] < |s.books.db.txns| && s.books.db.txns[row[t]].key == KeyOf(env, t))
    && (forall t <- ts, t' <- ts :: t != t' ==> row[t] != row[t'])
  }

  function RowOf(txns: seq<Txn>, key: string): nat {
    if txns == [] || txns[0].key == key then 0 else 1 + RowOf(txns[1..], key)
  }

  lemma {:induction false} RowFound(txns: seq<Txn>, key: string, i: nat)
    requires i < |txns| && txns[i].key == key
    ensures RowOf(txns, key) < |txns| && txns[RowOf(txns, key)].key == key
  {
    if txns[0].key != key {
      RowFound(txns[1..], key, i - 1);
    }
  }

  lemma PayableRow(env: Env, s: State, t: TokenTransfer)
    requires Inv(env, s) && Payable(env, s, t)
    ensures var i := RowOf(s.books.db.txns, KeyOf(env, t));
            i < |s.books.db.txns| && s.books.db.txns[i].key == KeyOf(env, t)
  {
    var txns := s.books.db.txns;
    assert Settled(env, s.books, t);
    var i :| 0 <= i < |txns| && txns[i].key == KeyOf(env, t);
    RowFound(txns, KeyOf(env, t), i);
  }

  lemma OwnCreditsDistinct(env: Env, s: State, ts: set<TokenTransfer>, row: map<TokenTransfer, nat>, t: TokenTransfer,
                           t': TokenTransfer)
    requires Inv(env, s) && OwnCredits(env, s, ts, row) && t in ts && t' in ts && Payable(env, s, t)
    requires Payable(env, s, t')
    requires t.tx == t'.tx
    ensures t == t'
  {
    SharedTransactionSharesCredit(env, s, t, t', row[t], row[t']);
  }

  /** The credits of payable deposits in different transactions. */
  lemma FirstRows(env: Env, s: State, ts: set<TokenTransfer>) returns (row: map<TokenTransfer, nat>)
    requires Inv(env, s) && (forall t <- ts :: Payable(env, s, t))
    requires forall t <- ts, t' <- ts :: t.tx == t'.tx ==> t == t'
    ensures OwnCredits(env, s, ts, row)
  {
    row := map t | t in ts :: RowOf(s.books.db.txns, KeyOf(env, t));
    forall t | t in ts ensures row[t] < |s.books.db.txns| && s.books.db.txns[row[t]].key == KeyOf(env, t) {
      PayableRow(env, s, t);
    }
    forall t, t' | t in ts && t' in ts && t != t' ensures row[t] != row[t'] {
      KeysDistinct(t.tx, t'.tx);
    }
  }

  /** A set of payable deposits all have credits of their own exactly when no two of them are in one transaction. */
  lemma OwnCreditsIff(env: Env, s: State, ts: set<TokenTransfer>)
    requires Inv(env, s) && forall t <- ts :: Payable(env, s, t)
    ensures (exists row :: OwnCredits(env, s, ts, row)) <==> (forall t <- ts, t' <- ts :: t.tx == t'.tx ==> t == t')
  {
    if row :| OwnCredits(env, s, ts, row) {
      forall t, t' | t in ts && t' in ts && t.tx == t'.tx ensures t == t' {
        OwnCreditsDistinct(env, s, ts, row, t, t');
      }
    }
    if forall t <- ts, t' <- ts :: t.tx == t'.tx ==> t == t' {
      var row := FirstRows(env, s, ts);
    }
  }

  // ---- The past is the run's ----

  /** At some point of the run the rate was in force. */
  ghost predicate HadRate(env: Env, s: State, acts: seq<Action>, rate: int) {
    exists k :: 0 <= k <= |acts| && Execute(env, s, acts[..k]).rate == rate
  }

  predicate LinkedTo(links: map<string, string>, link: Link) {
    link.0 in links && links[link.0] == link.1
  }

  /** At some point of the run the wallet was linked to the user. */
  ghost predicate HadLink(env: Env, s: State, acts: seq<Action>, link: Link) {
    exists k :: 0 <= k <= |acts| && LinkedTo(Execute(env, s, acts[..k]).links, link)
  }

  /** A step remembers at most the rate and the links it leaves. */
  lemma PastStep(env: Env, s: State, act: Action, s': State)
    requires s' == Act(env, s, act)
    ensures forall rate <- s'.past.rates :: rate in s.past.rates || rate == s'.rate
    ensures forall link <- s'.past.linked :: link in s.past.linked || LinkedTo(s'.links, link)
  {
  }

  /** What happened k steps into the rest of a run happened one step later in the run. */
  lemma OneLater(env: Env, s: State, acts: seq<Action>, k: nat)
    requires acts != [] && k <= |acts| - 1
    ensures Execute(env, s, acts[..k + 1]) == Execute(env, Act(env, s, acts[0]), acts[1..][..k])
  {
    assert acts[..k + 1][1..] == acts[1..][..k];
  }

  lemma RateLater(env: Env, s: State, acts: seq<Action>, rate: int)
    requires acts != [] && HadRate(env, Act(env, s, acts[0]), acts[1..], rate)
    ensures HadRate(env, s, acts, rate)
  {
    var s' := Act(env, s, acts[0]);
    var k :| 0 <= k <= |acts[1..]| && Execute(env, s', acts[1..][..k]).rate == rate;
    OneLater(env, s, acts, k);
  }

  lemma LinkLater(env: Env, s: State, acts: seq<Action>, link: Link)
    requires acts != [] && HadLink(env, Act(env, s, acts[0]), acts[1..], link)
    ensures HadLink(env, s, acts, link)
  {
    var s' := Act(env, s, acts[0]);
    var k :| 0 <= k <= |acts[1..]| && LinkedTo(Execute(env, s', acts[1..][..k]).links, link);
    OneLater(env, s, acts, k);
  }

  lemma {:induction false} RatesOfRun(env: Env, s: State, acts: seq<Action>, rate: int)
    requires rate in Execute(env, s, acts).past.rates
    ensures rate in s.past.rates || HadRate(env, s, acts, rate)
    decreases |acts|
  {
    if acts != [] {
      var s' := Act(env, s, acts[0]);
      PastStep(env, s, acts[0], s');
      RatesOfRun(env, s', acts[1..], rate);
      if rate in s'.past.rates && rate !in s.past.rates {
        assert acts[1..][..0] == [];
        assert Execute(env, s', acts[1..][..0]).rate == rate;
      }
      if HadRate(env, s', acts[1..], rate) {
        RateLater(env, s, acts, rate);
      }
    }
  }

  lemma {:induction false} LinksOfRun(env: Env, s: State, acts: seq<Action>, link: Link)
    requires link in Execute(env, s, acts).past.linked
    ensures link in s.past.linked || HadLink(env, s, acts, link)
    decreases |acts|
  {
    if acts != [] {
      var s' := Act(env, s, acts[0]);
      PastStep(env, s, acts[0], s');
      LinksOfRun(env, s', acts[1..], link);
      if link in s'.past.linked && link !in s.past.linked {
        assert acts[1..][..0] == [];
        assert LinkedTo(Execute(env, s', acts[1..][..0]).links, link);
      }
      if HadLink(env, s', acts[1..], link) {
        LinkLater(env, s, acts, link);
      }
    }
  }

  /** The rates and links that credits refer to were all in force at some point of the run. */
  lemma PastIsTheRuns(env: Env, s0: State, acts: seq<Action>)
    requires Init(env, s0)
    ensures forall rate <- Execute(env, s0, acts).past.rates :: HadRate(env, s0, acts, rate)
    ensures forall link <- Execute(env, s0, acts).past.linked :: HadLink(env, s0, acts, link)
  {
    assert acts[..0] == [];
    forall rate | rate in Execute(env, s0, acts).past.rates ensures HadRate(env, s0, acts, rate) {
      RatesOfRun(env, s0, acts, rate);
      assert rate in s0.past.rates ==> Execute(env, s0, acts[..0]).rate == rate;
    }
    forall link | link in Execute(env, s0, acts).past.linked ensures HadLink(env, s0, acts, link) {
      LinksOfRun(env, s0, acts, link);
      assert link in s0.past.linked ==> LinkedTo(Execute(env, s0, acts[..0]).links, link);
    }
  }
}
