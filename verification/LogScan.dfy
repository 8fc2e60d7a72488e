/**
 The chunked log scan of `FilterTokenTransfers` and `FilterVaultDeposits`: a
 walk in slices of at most ten blocks returns what one query over the whole
 range would.
 */
module LogScan {
  import opened Int64

  const SLICE: int := 10

  /** The node: the logs of each block in order, and the ranges it fails on. */
  datatype Node<!L> = Node(logs: nat -> seq<L>, down: (nat, nat) -> bool)

  datatype Reply<+T> = Logs(logs: seq<T>) | Failed

  /** All logs of blocks from..last in chain order. */
  function Range<L>(logs: nat -> seq<L>, from: nat, last: int): seq<L>
    decreases last - from
  {
    if from > last then [] else logs(from) + Range(logs, from + 1, last)
  }

  /** One eth_getLogs request; a reversed range is refused. */
  function FilterLogs<L>(node: Node<L>, from: nat, last: nat): Reply<L> {
    if last < from || node.down(from, last) then Failed else Logs(Range(node.logs, from, last))
  }

  /** The decoder keeps a log's event or skips a malformed log. */
  function Decode<L, T>(logs: seq<L>, decode: L -> seq<T>): seq<T> {
    if logs == [] then [] else decode(logs[0]) + Decode(logs[1..], decode)
  }

  lemma {:induction false} DecodeAppend<L, T>(xs: seq<L>, ys: seq<L>, decode: L -> seq<T>)
    ensures Decode(xs + ys, decode) == Decode(xs, decode) + Decode(ys, decode)
  {
    if xs == [] {
      assert xs + ys == ys;
    } else {
      assert (xs + ys)[1..] == xs[1..] + ys;
      DecodeAppend(xs[1..], ys, decode);
    }
  }

  lemma {:induction false} RangeSplit<L>(logs: nat -> seq<L>, from: nat, mid: int, last: int)
    requires from <= mid + 1 && mid <= last
    ensures Range(logs, from, last) == Range(logs, from, mid) + Range(logs, mid + 1, last)
    decreases mid + 1 - from
  {
    if from <= mid {
      RangeSplit(logs, from + 1, mid, last);
    }
  }

  lemma {:induction false} RangeIff<L>(logs: nat -> seq<L>, from: nat, last: int, l: L)
    ensures l in Range(logs, from, last) <==> (exists n: nat :: from <= n <= last && l in logs(n))
    decreases last - from + 1
  {
    if from <= last {
      RangeIff(logs, from + 1, last, l);
    }
  }

  /** The uint64 sum start + 9. */
  function Advance(start: nat): nat {
    if start + SLICE - 1 < TWO64 then start + SLICE - 1 else start + SLICE - 1 - TWO64
  }

  /** The slice that starts at `from` ends at `End`, where the 64-bit sum may wrap. */
  function End(from: nat, last: nat): nat {
    var end := Advance(from);
    if end > last then last else end
  }

  /** No query spans more than ten blocks, and a slice that is not cut short spans exactly ten. */
  lemma SliceSpan(from: nat, last: nat)
    requires from <= last < TWO64 && from + 10 <= TWO64
    ensures from <= End(from, last) <= last && End(from, last) - from + 1 <= 10
    ensures End(from, last) < last ==> End(from, last) - from + 1 == 10
  {
  }

  /** Some slice of the walk from..last fails: its query fails, or its end wraps around below its start. */
  predicate Interrupted<L>(node: Node<L>, from: nat, last: nat)
    decreases last - from
  {
    && from <= last
    && (|| End(from, last) < from
        || node.down(from, End(from, last))
        || Interrupted(node, End(from, last) + 1, last))
  }

  /** A slice that starts at `s` stops the walk. */
  predicate Breaks<L>(node: Node<L>, s: nat, last: nat) {
    s <= last && (s + SLICE > TWO64 || node.down(s, End(s, last)))
  }

  lemma {:induction false} FindBreak<L>(node: Node<L>, from: nat, last: nat) returns (k: nat)
    requires last < TWO64 && Interrupted(node, from, last)
    ensures Breaks(node, from + SLICE * k, last)
    decreases last - from
  {
    if Breaks(node, from, last) {
      return 0;
    }
    var n := FindBreak(node, End(from, last) + 1, last);
    return n + 1;
  }

  lemma {:induction false} BreakInterrupts<L>(node: Node<L>, from: nat, last: nat, k: nat)
    requires last < TWO64 && Breaks(node, from + SLICE * k, last)
    ensures Interrupted(node, from, last)
    decreases k
  {
    if k > 0 && !Breaks(node, from, last) {
      assert from + SLICE + SLICE * (k - 1) == from + SLICE * k;
      BreakInterrupts(node, from + SLICE, last, k - 1);
    }
  }

  /** The walk fails exactly when a slice that starts at from, from + 10, ... fails or wraps around. */
  lemma InterruptedIff<L>(node: Node<L>, from: nat, last: nat)
    requires last < TWO64
    ensures Interrupted(node, from, last) <==> (exists k: nat :: Breaks(node, from + SLICE * k, last))
  {
    if Interrupted(node, from, last) {
      var k := FindBreak(node, from, last);
    }
    if k: nat :| Breaks(node, from + SLICE * k, last) {
      BreakInterrupts(node, from, last, k);
    }
  }

  /** What one query over from..last decodes to. */
  function OneQuery<L, T>(logs: nat -> seq<L>, from: nat, last: int, decode: L -> seq<T>): seq<T> {
    Decode(Range(logs, from, last), decode)
  }

  lemma OneQueryMore<L, T>(logs: nat -> seq<L>, from: nat, start: nat, last: int, decode: L -> seq<T>)
    requires from <= start && start - 1 <= last
    ensures OneQuery(logs, from, last, decode) ==
            OneQuery(logs, from, start - 1, decode) + Decode(Range(logs, start, last), decode)
  {
    RangeSplit(logs, from, start - 1, last);
    DecodeAppend(Range(logs, from, start - 1), Range(logs, start, last), decode);
  }

  /** The inner loop: each log's event is appended to what the walk has so far. */
  method AppendDecoded<L, T>(out: seq<T>, logs: seq<L>, decode: L -> seq<T>) returns (r: seq<T>)
    ensures r == out + Decode(logs, decode)
  {
    r := out;
    for i := 0 to |logs|
      invariant r == out + Decode(logs[..i], decode)
    {
      assert logs[..i + 1] == logs[..i] + [logs[i]];
      DecodeAppend(logs[..i], [logs[i]], decode);
      DecodeOne(logs[i], decode);
      r := r + decode(logs[i]);
    }
    assert logs[..|logs|] == logs;
  }

  /**
   Walk the inclusive range in slices. The result is the decoding of exactly
   the logs of blocks from..last in chain order, each block once, unless some
   slice fails.
   */
  method Scan<L, T>(node: Node<L>, fromBlock: nat, toBlock: nat, decode: L -> seq<T>) returns (r: Reply<T>)
    requires fromBlock < TWO64 && toBlock < TWO64
    ensures r == if Interrupted(node, fromBlock, toBlock) then Failed
                 else Logs(OneQuery(node.logs, fromBlock, toBlock, decode))
  {
    var out: seq<T> := [];
    var start := fromBlock;
    while start <= toBlock
      invariant fromBlock <= start && (start <= toBlock || start == fromBlock)
      invariant out == OneQuery(node.logs, fromBlock, start - 1, decode)
      invariant Interrupted(node, fromBlock, toBlock) == Interrupted(node, start, toBlock)
      decreases toBlock - start
    {
      var end := Advance(start);
      if end > toBlock {
        end := toBlock;
      }
      var reply := FilterLogs(node, start, end);
      if reply.Failed? {
        return Failed;
      }
      OneQueryMore(node.logs, fromBlock, start, end, decode);
      out := AppendDecoded(out, reply.logs, decode);
      if end >= toBlock {
        break;
      }
      start := end + 1;
    }
    r := Logs(out);
  }

  lemma DecodeOne<L, T>(l: L, decode: L -> seq<T>)
    ensures Decode([l], decode) == decode(l)
  {
    assert [l][1..] == [];
  }
}
