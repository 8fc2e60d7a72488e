/** The per-key token bucket of the rate limiter, over any interleaving of keys. */
module TokenBucket {
  import opened Arithmetic

  datatype Bucket = Bucket(tokens: int, lastUpdate: int)

  /** One request: the key and the two clock readings `allow` may take, in nanoseconds. */
  datatype Request = Request(key: string, created: int, now: int)

  /** Whole intervals since the last update become tokens, never more than the burst. */
  function Refilled(b: Bucket, now: int, interval: int, burst: int): Bucket
    requires interval > 0 && b.lastUpdate <= now
  {
    var refill := (now - b.lastUpdate) / interval;
    if refill > 0 then Bucket(Min(b.tokens + refill, burst), b.lastUpdate + refill * interval) else b
  }

  function Min(x: int, y: int): int {
    if x < y then x else y
  }

  function Spend(b: Bucket, now: int): (Bucket, bool) {
    if b.tokens > 0 then (Bucket(b.tokens - 1, now), true) else (b, false)
  }

  class RateLimiter {
    const interval: int
    const burst: int
    var tokens: map<string, Bucket>

    /** No bucket is younger than the clock. */
    ghost predicate Valid(clock: int)
      reads this
    {
      interval > 0 && UpTo(tokens, clock)
    }

    constructor (interval: int, burst: int)
      requires interval > 0
      ensures this.interval == interval && this.burst == burst && tokens == map[]
    {
      this.interval, this.burst := interval, burst;
      tokens := map[];
    }

    method Allow(key: string, created: int, now: int) returns (ok: bool)
      requires Valid(created) && created <= now
      modifies this
      ensures Valid(now)
      ensures (tokens, ok) == Serve(old(tokens), Request(key, created, now), interval, burst)
    {
      if key !in tokens {
        tokens := tokens[key := Bucket(burst, created)];
      }
      var bucket := tokens[key];
      var refill := (now - bucket.lastUpdate) / interval;
      RefillWithin(bucket, now, interval);
      if refill > 0 {
        bucket := Bucket(Min(bucket.tokens + refill, burst), bucket.lastUpdate + refill * interval);
      }
      ok := bucket.tokens > 0;
      if ok {
        bucket := Bucket(bucket.tokens - 1, now);
      }
      tokens := tokens[key := bucket];
      assert tokens == old(tokens)[key := bucket];
    }
  }

  ghost predicate UpTo(m: map<string, Bucket>, clock: int) {
    forall k <- m :: m[k].lastUpdate <= clock
  }

  /** The bucket a request finds. */
  function Found(m: map<string, Bucket>, r: Request, burst: int): Bucket {
    if r.key in m then m[r.key] else Bucket(burst, r.created)
  }

  function Serve(m: map<string, Bucket>, r: Request, interval: int, burst: int): (map<string, Bucket>, bool)
    requires interval > 0 && Found(m, r, burst).lastUpdate <= r.now
  {
    var (b, ok) := Spend(Refilled(Found(m, r, burst), r.now, interval, burst), r.now);
    (m[r.key := b], ok)
  }

  lemma RefillWithin(b: Bucket, now: int, interval: int)
    requires interval > 0 && b.lastUpdate <= now
    ensures var refill := (now - b.lastUpdate) / interval;
            refill >= 0 && b.lastUpdate + refill * interval <= now < b.lastUpdate + refill * interval + interval
  {
  }

  // ---- Runs ----

  /** Clock readings never run backwards: the limiter's mutex orders them. */
  predicate Ordered(rs: seq<Request>, clock: int)
    decreases |rs|
  {
    rs == [] || (clock <= rs[0].created <= rs[0].now && Ordered(rs[1..], rs[0].now))
  }

  /** How every request of a run is answered. */
  function Answers(m: map<string, Bucket>, rs: seq<Request>, interval: int, burst: int, clock: int): (oks: seq<bool>)
    requires interval > 0 && Ordered(rs, clock) && UpTo(m, clock)
    ensures |oks| == |rs|
    decreases |rs|
  {
    if rs == [] then []
    else
      RefillWithin(Found(m, rs[0], burst), rs[0].now, interval);
      var (m', ok) := Serve(m, rs[0], interval, burst);
      [ok] + Answers(m', rs[1..], interval, burst, rs[0].now)
  }

  predicate Counts(r: Request, ok: bool, key: string, t0: int, t1: int) {
    ok && r.key == key && t0 <= r.now <= t1
  }

  /** The requests for `key` allowed between t0 and t1. */
  function Allowed(rs: seq<Request>, oks: seq<bool>, key: string, t0: int, t1: int): nat
    requires |rs| == |oks|
    decreases |rs|
  {
    if rs == [] then 0
    else (if Counts(rs[0], oks[0], key, t0, t1) then 1 else 0) + Allowed(rs[1..], oks[1..], key, t0, t1)
  }

  lemma {:induction false} NoneAfter(rs: seq<Request>, oks: seq<bool>, key: string, t0: int, t1: int, clock: int)
    requires |rs| == |oks| && Ordered(rs, clock) && t1 < clock
    ensures Allowed(rs, oks, key, t0, t1) == 0
    decreases |rs|
  {
    if rs != [] {
      NoneAfter(rs[1..], oks[1..], key, t0, t1, rs[0].now);
    }
  }

  /** The first request's answer, then the rest of the run. */
  lemma AllowedStep(m: map<string, Bucket>, rs: seq<Request>, interval: int, burst: int, clock: int,
                    key: string, t0: int, t1: int)
    requires interval > 0 && Ordered(rs, clock) && UpTo(m, clock) && rs != []
    ensures Found(m, rs[0], burst).lastUpdate <= rs[0].now
    ensures var (m', ok) := Serve(m, rs[0], interval, burst);
            && UpTo(m', rs[0].now)
            && Allowed(rs, Answers(m, rs, interval, burst, clock), key, t0, t1) ==
               (if Counts(rs[0], ok, key, t0, t1) then 1 else 0) +
               Allowed(rs[1..], Answers(m', rs[1..], interval, burst, rs[0].now), key, t0, t1)
  {
    RefillWithin(Found(m, rs[0], burst), rs[0].now, interval);
    var (m', ok) := Serve(m, rs[0], interval, burst);
    assert Answers(m, rs, interval, burst, clock)[1..] == Answers(m', rs[1..], interval, burst, rs[0].now);
  }

  /** From a bucket on, a key gets its tokens and one per interval since the bucket's last update. */
  lemma {:induction false} AllowedFrom(m: map<string, Bucket>, rs: seq<Request>, interval: int, burst: int, clock: int,
                                       key: string, t0: int, t1: int)
    requires interval > 0 && Ordered(rs, clock) && UpTo(m, clock) && clock <= t1
    requires key in m && 0 <= m[key].tokens
    ensures Allowed(rs, Answers(m, rs, interval, burst, clock), key, t0, t1) <=
            m[key].tokens + (t1 - m[key].lastUpdate) / interval
    decreases |rs|
  {
    var b := m[key];
    FloorMono(0, t1 - b.lastUpdate, interval);
    if rs != [] {
      var r, rest := rs[0], rs[1..];
      AllowedStep(m, rs, interval, burst, clock, key, t0, t1);
      var (m', ok) := Serve(m, r, interval, burst);
      if r.now > t1 {
        NoneAfter(rest, Answers(m', rest, interval, burst, r.now), key, t0, t1, r.now);
      } else if r.key != key {
        AllowedFrom(m', rest, interval, burst, r.now, key, t0, t1);
      } else if ok {
        AllowedFrom(m', rest, interval, burst, r.now, key, t0, t1);
        SpentWithin(b, r.now, interval, burst, t1);
      } else {
        Denied(b, r.now, interval, burst);
        if burst <= 0 {
          NoneEver(m', rest, interval, burst, r.now, key, t0, t1);
        } else {
          AllowedFrom(m', rest, interval, burst, r.now, key, t0, t1);
        }
      }
    }
  }

  /** Spending at `now` leaves no more to come than the bucket had. */
  lemma SpentWithin(b: Bucket, now: int, interval: int, burst: int, t1: int)
    requires interval > 0 && b.lastUpdate <= now <= t1 && Spend(Refilled(b, now, interval, burst), now).1
    ensures var b' := Spend(Refilled(b, now, interval, burst), now).0;
            1 + b'.tokens + (t1 - b'.lastUpdate) / interval <= b.tokens + (t1 - b.lastUpdate) / interval
  {
    FloorMono(0, now - b.lastUpdate, interval);
    FloorsAdd(now - b.lastUpdate, t1 - now, interval);
  }

  /** A denial changes nothing, unless the burst is not positive and nothing is ever allowed again. */
  lemma Denied(b: Bucket, now: int, interval: int, burst: int)
    requires interval > 0 && b.lastUpdate <= now && 0 <= b.tokens && !Spend(Refilled(b, now, interval, burst), now).1
    ensures burst > 0 ==> Refilled(b, now, interval, burst) == b && now - b.lastUpdate < interval && b.tokens == 0
    ensures burst <= 0 ==> Refilled(b, now, interval, burst).tokens <= 0
  {
    RefillWithin(b, now, interval);
  }

  lemma {:induction false} NoneEver(m: map<string, Bucket>, rs: seq<Request>, interval: int, burst: int, clock: int,
                                    key: string, t0: int, t1: int)
    requires interval > 0 && Ordered(rs, clock) && UpTo(m, clock) && burst <= 0 && (key in m ==> m[key].tokens <= 0)
    ensures Allowed(rs, Answers(m, rs, interval, burst, clock), key, t0, t1) == 0
    decreases |rs|
  {
    if rs != [] {
      var oks := Answers(m, rs, interval, burst, clock);
      RefillWithin(Found(m, rs[0], burst), rs[0].now, interval);
      var (m', ok) := Serve(m, rs[0], interval, burst);
      assert oks[1..] == Answers(m', rs[1..], interval, burst, rs[0].now);
      NoneEver(m', rs[1..], interval, burst, rs[0].now, key, t0, t1);
    }
  }

  ghost predicate AtMost(m: map<string, Bucket>, burst: int) {
    forall k <- m :: 0 <= m[k].tokens <= burst
  }

  /** Buckets hold between nothing and the burst. */
  lemma ServeKeeps(m: map<string, Bucket>, r: Request, interval: int, burst: int)
    requires interval > 0 && burst >= 0 && AtMost(m, burst) && UpTo(m, r.created) && r.created <= r.now
    ensures var m' := Serve(m, r, interval, burst).0; AtMost(m', burst) && UpTo(m', r.now)
  {
    RefillWithin(Found(m, r, burst), r.now, interval);
  }

  /**
   In every window of every run, whatever other keys do, a key is allowed at
   most the burst plus one request per whole interval the window lasts.
   */
  lemma {:induction false} WindowBound(m: map<string, Bucket>, rs: seq<Request>, interval: int, burst: int, clock: int,
                                       key: string, t0: int, t1: int)
    requires interval > 0 && burst >= 0 && Ordered(rs, clock) && UpTo(m, clock) && AtMost(m, burst) && t0 <= t1
    ensures Allowed(rs, Answers(m, rs, interval, burst, clock), key, t0, t1) <= burst + (t1 - t0) / interval
    decreases |rs|
  {
    FloorMono(0, t1 - t0, interval);
    if rs != [] {
      var r, oks := rs[0], Answers(m, rs, interval, burst, clock);
      ServeKeeps(m, r, interval, burst);
      var (m', ok) := Serve(m, r, interval, burst);
      assert oks[1..] == Answers(m', rs[1..], interval, burst, r.now);
      if Counts(r, ok, key, t0, t1) {
        AllowedFrom(m', rs[1..], interval, burst, r.now, key, t0, t1);
        FloorMono(t1 - r.now, t1 - t0, interval);
      } else {
        WindowBound(m', rs[1..], interval, burst, r.now, key, t0, t1);
      }
    }
  }

  /**
   A request is denied only within one interval of an allowed request for the
   same key (or of the last update of the bucket the run started with).
   */
  lemma {:induction false} DeniedSoonAfterAllowed(m: map<string, Bucket>, rs: seq<Request>, interval: int, burst: int,
                                                  clock: int, j: nat)
    requires interval > 0 && burst > 0 && Ordered(rs, clock) && UpTo(m, clock) && AtMost(m, burst)
    requires j < |rs| && !Answers(m, rs, interval, burst, clock)[j]
    ensures var oks := Answers(m, rs, interval, burst, clock);
            || (exists i :: 0 <= i < j && oks[i] && rs[i].key == rs[j].key && rs[j].now - rs[i].now < interval)
            || (rs[j].key in m && m[rs[j].key].tokens == 0 && rs[j].now - m[rs[j].key].lastUpdate < interval)
    decreases |rs|
  {
    var r, oks := rs[0], Answers(m, rs, interval, burst, clock);
    ServeKeeps(m, r, interval, burst);
    var (m', ok) := Serve(m, r, interval, burst);
    var rest := Answers(m', rs[1..], interval, burst, r.now);
    assert oks == [ok] + rest;
    if !ok {
      Denied(Found(m, r, burst), r.now, interval, burst);
    }
    if j > 0 {
      DeniedSoonAfterAllowed(m', rs[1..], interval, burst, r.now, j - 1);
      assert rs[1..][j - 1] == rs[j];
      if i :| 0 <= i < j - 1 && rest[i] && rs[1..][i].key == rs[j].key && rs[j].now - rs[1..][i].now < interval {
        assert oks[i + 1] && rs[i + 1] == rs[1..][i];
      } else if rs[j].key == r.key && ok {
        assert oks[0] && rs[j].now - rs[0].now < interval;
      }
    }
  }

  // ---- What is never refused ----

  /** How many of the first j requests are for `key`. */
  function Earlier(rs: seq<Request>, key: string, j: nat): nat
    requires j <= |rs|
  {
    if j == 0 then 0 else Earlier(rs, key, j - 1) + if rs[j - 1].key == key then 1 else 0
  }

  lemma {:induction false} EarlierTail(rs: seq<Request>, key: string, j: nat)
    requires 0 < j <= |rs|
    ensures Earlier(rs, key, j) == Earlier(rs[1..], key, j - 1) + if rs[0].key == key then 1 else 0
  {
    if j > 1 {
      EarlierTail(rs, key, j - 1);
    }
  }

  /** A bucket that holds n tokens serves the next n requests for its key, however fast they come. */
  lemma {:induction false} TokensServe(m: map<string, Bucket>, rs: seq<Request>, interval: int, burst: int,
                                       clock: int, j: nat)
    requires interval > 0 && Ordered(rs, clock) && UpTo(m, clock) && j < |rs|
    requires rs[j].key in m && Earlier(rs, rs[j].key, j) < m[rs[j].key].tokens <= burst
    ensures Answers(m, rs, interval, burst, clock)[j]
    decreases |rs|
  {
    var r, key := rs[0], rs[j].key;
    RefillWithin(Found(m, r, burst), r.now, interval);
    var (m', ok) := Serve(m, r, interval, burst);
    assert Answers(m, rs, interval, burst, clock) == [ok] + Answers(m', rs[1..], interval, burst, r.now);
    if j > 0 {
      assert rs[1..][j - 1] == rs[j];
      EarlierTail(rs, key, j);
      TokensServe(m', rs[1..], interval, burst, r.now, j - 1);
    }
  }

  /**
   A bucket left alone until request i serves, from then on, its tokens and one
   more per whole interval it rested, up to the burst, however fast they are
   asked for.
   */
  lemma {:induction false} RestedServes(m: map<string, Bucket>, rs: seq<Request>, interval: int, burst: int,
                                        clock: int, i: nat, j: nat)
    requires interval > 0 && Ordered(rs, clock) && UpTo(m, clock) && i <= j < |rs|
    requires rs[i].key == rs[j].key && rs[j].key in m && Earlier(rs, rs[j].key, i) == 0 && m[rs[j].key].tokens <= burst
    requires var b := m[rs[j].key];
             Earlier(rs, rs[j].key, j) < Min(b.tokens + (rs[i].now - b.lastUpdate) / interval, burst)
    ensures Answers(m, rs, interval, burst, clock)[j]
    decreases |rs|
  {
    var r, key := rs[0], rs[j].key;
    RefillWithin(Found(m, r, burst), r.now, interval);
    var (m', ok) := Serve(m, r, interval, burst);
    assert Answers(m, rs, interval, burst, clock) == [ok] + Answers(m', rs[1..], interval, burst, r.now);
    if i > 0 {
      EarlierTail(rs, key, i);
    }
    if j > 0 {
      assert rs[1..][j - 1] == rs[j];
      EarlierTail(rs, key, j);
      if i > 0 {
        RestedServes(m', rs[1..], interval, burst, r.now, i - 1, j - 1);
      } else {
        TokensServe(m', rs[1..], interval, burst, r.now, j - 1);
      }
    }
  }

  /** The first `burst` requests for a key that is new are all allowed. */
  lemma {:induction false} FirstBurstAllowed(m: map<string, Bucket>, rs: seq<Request>, interval: int, burst: int,
                                             clock: int, j: nat)
    requires interval > 0 && Ordered(rs, clock) && UpTo(m, clock) && j < |rs|
    requires rs[j].key !in m && Earlier(rs, rs[j].key, j) < burst
    ensures Answers(m, rs, interval, burst, clock)[j]
    decreases |rs|
  {
    var r, key := rs[0], rs[j].key;
    RefillWithin(Found(m, r, burst), r.now, interval);
    var (m', ok) := Serve(m, r, interval, burst);
    assert Answers(m, rs, interval, burst, clock) == [ok] + Answers(m', rs[1..], interval, burst, r.now);
    if j > 0 {
      assert rs[1..][j - 1] == rs[j];
      EarlierTail(rs, key, j);
      if r.key == key {
        TokensServe(m', rs[1..], interval, burst, r.now, j - 1);
      } else {
        FirstBurstAllowed(m', rs[1..], interval, burst, r.now, j - 1);
      }
    }
  }
}
