/** The sliding-window rate limiter of the API gateway, for the requests of one key: a sorted set that is
    trimmed on every request and expires as a whole decides like a limiter that keeps every request. */
module RateLimiter {
  import opened Basics

  datatype Config = Config(windowMs: nat, max: int)

  /** The sorted set of a key: the scores in order, and when Redis may drop the key. */
  datatype Zset = Zset(scores: seq<int>, expiresAt: Option<int>)

  /** A request at a time of the gateway's clock; `dropped` says whether Redis has expired the key by then. */
  datatype Request = Request(now: nat, dropped: bool)

  datatype Reply = Accepted(remaining: int) | TooMany(resetTime: int)

  /** The members of a sequence of times that are later than `lo`. */
  function After(ts: seq<int>, lo: int): (r: seq<int>)
    ensures |r| <= |ts|
  {
    if ts == [] then [] else
      var n := |ts| - 1;
      if ts[n] > lo then After(ts[..n], lo) + [ts[n]] else After(ts[..n], lo)
  }

  function Decide(count: int, now: int, c: Config): Reply {
    if count >= c.max then TooMany(now + c.windowMs)
    else Accepted(if c.max - count - 1 > 0 then c.max - count - 1 else 0)
  }

  function ScoresLeft(z: Zset, r: Request, c: Config): seq<int> {
    if r.dropped then [] else After(z.scores, r.now - c.windowMs)
  }

  function ReplyOf(z: Zset, r: Request, c: Config): Reply {
    Decide(|ScoresLeft(z, r, c)|, r.now, c)
  }

  /** The set after a request: trimmed, and when accepted extended and given a new time to live; a time to
      live of zero deletes it. */
  function Next(z: Zset, r: Request, c: Config): Zset {
    var left := ScoresLeft(z, r, c);
    var ttl := if r.dropped then None else z.expiresAt;
    if ReplyOf(z, r, c).Accepted? then Extended(left, r.now, c)
    else Zset(left, if left == [] then None else ttl)
  }

  function Extended(left: seq<int>, now: int, c: Config): Zset {
    if c.windowMs == 0 then Zset([], None) else Zset(left + [now], Some(now + c.windowMs))
  }

  class RateLimitInterceptor {
    const config: Config
    var scores: seq<int>
    var expiresAt: Option<int>

    constructor (config: Config)
      ensures this.config == config && Z() == Zset([], None)
    {
      this.config, scores, expiresAt := config, [], None;
    }

    function Z(): Zset
      reads this
    {
      Zset(scores, expiresAt)
    }

    /** ZREMRANGEBYSCORE key 0 windowStart; an empty sorted set does not exist. */
    method RemoveUpTo(windowStart: int)
      requires forall i :: 0 <= i < |scores| ==> scores[i] >= 0
      modifies this
      ensures scores == After(old(scores), windowStart)
      ensures expiresAt == if scores == [] then None else old(expiresAt)
      ensures forall i :: 0 <= i < |scores| ==> scores[i] >= 0
    {
      var kept: seq<int> := [];
      for i := 0 to |scores|
        invariant kept == After(scores[..i], windowStart)
        invariant forall j :: 0 <= j < |kept| ==> kept[j] >= 0
      {
        assert scores[..i + 1][..i] == scores[..i];
        if !(0 <= scores[i] <= windowStart) {
          kept := kept + [scores[i]];
        }
      }
      assert scores[..|scores|] == scores;
      scores := kept;
      if |kept| == 0 {
        expiresAt := None;
      }
    }

    /** The oldest entry is read without its score, so that the reply has one element at most and the
        reset time is always a whole window away. */
    method Intercept(r: Request) returns (reply: Reply, retryAfter: int)
      requires forall i :: 0 <= i < |scores| ==> scores[i] >= 0
      modifies this
      ensures reply == ReplyOf(old(Z()), r, config)
      ensures reply.TooMany? ==> 1000 * (retryAfter - 1) < reply.resetTime - r.now <= 1000 * retryAfter
      ensures Z() == Next(old(Z()), r, config)
      ensures forall i :: 0 <= i < |scores| ==> scores[i] >= 0
    {
      if r.dropped {
        scores, expiresAt := [], None;
      }
      var windowStart := r.now - config.windowMs;
      RemoveUpTo(windowStart);
      assert scores == ScoresLeft(old(Z()), r, config);
      var count := |scores|;
      var remaining := if config.max - count - 1 > 0 then config.max - count - 1 else 0;
      if count >= config.max {
        var oldestEntry := if count > 0 then scores[..1] else [];
        assert |oldestEntry| <= 1;
        var resetTime := r.now + config.windowMs;
        return TooMany(resetTime), (resetTime - r.now + 999) / 1000;
      }
      scores := scores + [r.now];
      PExpire(r.now);
      return Accepted(remaining), 0;
    }

    /** PEXPIRE key windowMs; a time to live of zero deletes the key. */
    method PExpire(now: nat)
      modifies this
      ensures config.windowMs == 0 ==> Z() == Zset([], None)
      ensures config.windowMs > 0 ==> Z() == Zset(old(scores), Some(now + config.windowMs))
    {
      if config.windowMs == 0 {
        scores, expiresAt := [], None;
      } else {
        expiresAt := Some(now + config.windowMs);
      }
    }
  }

  // ----- the limiter that keeps the whole history

  function FullReply(log: seq<int>, now: int, c: Config): Reply {
    Decide(|After(log, now - c.windowMs)|, now, c)
  }

  function FullNext(log: seq<int>, now: int, c: Config): seq<int> {
    if FullReply(log, now, c).Accepted? then log + [now] else log
  }

  // ----- runs

  function Zsets(rs: seq<Request>, c: Config): Zset {
    if rs == [] then Zset([], None) else Next(Zsets(rs[..|rs| - 1], c), rs[|rs| - 1], c)
  }

  function Log(rs: seq<Request>, c: Config): seq<int> {
    if rs == [] then [] else FullNext(Log(rs[..|rs| - 1], c), rs[|rs| - 1].now, c)
  }

  function LastTime(rs: seq<Request>): int {
    if rs == [] then 0 else rs[|rs| - 1].now
  }

  /** The clock does not run backwards, and Redis has dropped the key only if its time to live was over. */
  predicate Timely(z: Zset, last: int, r: Request) {
    last <= r.now && (r.dropped ==> z.expiresAt.Some? && z.expiresAt.value <= r.now)
  }

  /** One request at a time, by a clock that does not run backwards; Redis drops the key only when its
      time to live is over (it may also still hold it then). */
  predicate Sequential(rs: seq<Request>, c: Config) {
    rs != [] ==>
      var n := |rs| - 1;
      var z := Zsets(rs[..n], c);
      Sequential(rs[..n], c) && Timely(z, LastTime(rs[..n]), rs[n])
  }

  predicate Sorted(ts: seq<int>) {
    forall i, j :: 0 <= i < j < |ts| ==> ts[i] <= ts[j]
  }

  predicate Bounded(ts: seq<int>, last: int) {
    forall i :: 0 <= i < |ts| ==> 0 <= ts[i] <= last
  }

  lemma {:induction false} AfterAfter(ts: seq<int>, lo: int, lo': int)
    requires lo <= lo'
    ensures After(After(ts, lo), lo') == After(ts, lo')
  {
    if ts != [] {
      var n := |ts| - 1;
      AfterAfter(ts[..n], lo, lo');
      var rest := After(ts[..n], lo);
      if ts[n] > lo {
        assert (rest + [ts[n]])[..|rest|] == rest;
      }
    }
  }

  lemma {:induction false} AfterAll(ts: seq<int>, lo: int)
    requires forall i :: 0 <= i < |ts| ==> ts[i] <= lo
    ensures After(ts, lo) == []
  {
    if ts != [] { AfterAll(ts[..|ts| - 1], lo); }
  }

  lemma {:induction false} AfterNone(ts: seq<int>, lo: int)
    requires forall i :: 0 <= i < |ts| ==> ts[i] > lo
    ensures After(ts, lo) == ts
  {
    if ts != [] { AfterNone(ts[..|ts| - 1], lo); }
  }

  lemma AfterSnoc(ts: seq<int>, t: int, lo: int)
    ensures After(ts + [t], lo) == if t > lo then After(ts, lo) + [t] else After(ts, lo)
  {
    assert (ts + [t])[..|ts|] == ts;
  }

  /** The set holds what the log holds after some cut-off that is no later than the start of the last
      window, and its time to live runs from the last accepted request. */
  ghost predicate Simulates(z: Zset, log: seq<int>, last: int, cut: int, c: Config) {
    && Sorted(log) && Bounded(log, last)
    && cut <= last - c.windowMs
    && z.scores == After(log, cut)
    && (z.expiresAt.Some? ==> log != [] && z.expiresAt.value == log[|log| - 1] + c.windowMs)
  }

  lemma LeftIsRecent(z: Zset, log: seq<int>, last: int, cut: int, r: Request, c: Config)
    requires Simulates(z, log, last, cut, c) && Timely(z, last, r)
    ensures ScoresLeft(z, r, c) == After(log, r.now - c.windowMs)
  {
    if r.dropped {
      AfterAll(log, r.now - c.windowMs);
    } else {
      AfterAfter(log, cut, r.now - c.windowMs);
    }
  }

  lemma SortedSnoc(ts: seq<int>, last: int, t: nat)
    requires Sorted(ts) && Bounded(ts, last) && last <= t
    ensures Sorted(ts + [t]) && Bounded(ts + [t], t)
  {
  }

  lemma AcceptSimulates(log: seq<int>, last: int, now: nat, c: Config)
    requires Sorted(log) && Bounded(log, last) && last <= now
    ensures Simulates(Extended(After(log, now - c.windowMs), now, c), log + [now], now, now - c.windowMs, c)
  {
    SortedSnoc(log, last, now);
    AfterSnoc(log, now, now - c.windowMs);
    if c.windowMs == 0 {
      AfterAll(log, now);
    }
  }

  lemma StepSimulates(z: Zset, log: seq<int>, last: int, cut: int, r: Request, c: Config)
    requires Simulates(z, log, last, cut, c) && Timely(z, last, r)
    ensures ReplyOf(z, r, c) == FullReply(log, r.now, c)
    ensures Simulates(Next(z, r, c), FullNext(log, r.now, c), r.now, r.now - c.windowMs, c)
  {
    LeftIsRecent(z, log, last, cut, r, c);
    AcceptSimulates(log, last, r.now, c);
  }

  lemma Unroll(before: seq<Request>, r: Request, c: Config)
    ensures Zsets(before + [r], c) == Next(Zsets(before, c), r, c)
    ensures Log(before + [r], c) == FullNext(Log(before, c), r.now, c)
    ensures LastTime(before + [r]) == r.now
    ensures Sequential(before + [r], c) ==> Sequential(before, c) && Timely(Zsets(before, c), LastTime(before), r)
  {
    assert (before + [r])[..|before|] == before;
  }

  ghost predicate InStep(rs: seq<Request>, c: Config) {
    Simulates(Zsets(rs, c), Log(rs, c), LastTime(rs), LastTime(rs) - c.windowMs, c)
  }

  lemma InStepFrom(rs: seq<Request>, z: Zset, log: seq<int>, last: int, r: Request, c: Config)
    requires Zsets(rs, c) == Next(z, r, c) && Log(rs, c) == FullNext(log, r.now, c) && LastTime(rs) == r.now
    requires Simulates(z, log, last, last - c.windowMs, c) && Timely(z, last, r)
    ensures InStep(rs, c) && ReplyOf(z, r, c) == FullReply(log, r.now, c)
  {
    StepSimulates(z, log, last, last - c.windowMs, r, c);
  }

  lemma NextInStep(before: seq<Request>, r: Request, c: Config)
    requires InStep(before, c) && Timely(Zsets(before, c), LastTime(before), r)
    ensures InStep(before + [r], c)
    ensures ReplyOf(Zsets(before, c), r, c) == FullReply(Log(before, c), r.now, c)
  {
    Unroll(before, r, c);
    InStepFrom(before + [r], Zsets(before, c), Log(before, c), LastTime(before), r, c);
  }

  lemma StartsInStep(c: Config)
    ensures InStep([], c)
  {
  }

  lemma {:induction false} RunSimulates(rs: seq<Request>, c: Config)
    requires Sequential(rs, c)
    ensures InStep(rs, c)
  {
    hide InStep, Zsets, Timely, LastTime;
    if rs == [] {
      StartsInStep(c);
    } else {
      var n := |rs| - 1;
      RunSimulates(rs[..n], c);
      NextInStep(rs[..n], rs[n], c);
      assert rs == rs[..n] + [rs[n]];
    }
  }

  /** After any run, the next request gets the reply that the limiter with the whole history gives. */
  lemma {:induction false} SameDecisions(rs: seq<Request>, r: Request, c: Config)
    requires Sequential(rs + [r], c)
    ensures ReplyOf(Zsets(rs, c), r, c) == FullReply(Log(rs, c), r.now, c)
  {
    Unroll(rs, r, c);
    RunSimulates(rs, c);
    NextInStep(rs, r, c);
  }

  // ----- what the limit means

  /** The number of times in the half-open interval from `lo`, exclusive, to `hi`, inclusive. */
  function Within(ts: seq<int>, lo: int, hi: int): nat {
    if ts == [] then 0 else Within(ts[..|ts| - 1], lo, hi) + if lo < ts[|ts| - 1] <= hi then 1 else 0
  }

  lemma {:induction false} WithinIsAfter(ts: seq<int>, lo: int, lo': int, hi: int)
    requires lo' <= lo
    ensures Within(ts, lo, hi) <= |After(ts, lo')|
  {
    if ts != [] { WithinIsAfter(ts[..|ts| - 1], lo, lo', hi); }
  }

  lemma {:induction false} WithinNone(ts: seq<int>, lo: int, hi: int)
    requires forall i :: 0 <= i < |ts| ==> ts[i] <= lo
    ensures Within(ts, lo, hi) == 0
  {
    if ts != [] { WithinNone(ts[..|ts| - 1], lo, hi); }
  }

  lemma WithinSnoc(ts: seq<int>, t: int, lo: int, hi: int)
    ensures Within(ts + [t], lo, hi) == Within(ts, lo, hi) + if lo < t <= hi then 1 else 0
  {
    assert (ts + [t])[..|ts|] == ts;
  }

  /** A request that was accepted at `now` is the last in every interval that reaches to it. */
  lemma AcceptedFits(log: seq<int>, now: int, t: int, c: Config)
    requires FullReply(log, now, c).Accepted? && now <= t
    ensures Within(log + [now], t - c.windowMs, t) <= c.max
  {
    WithinSnoc(log, now, t - c.windowMs, t);
    WithinIsAfter(log, t - c.windowMs, now - c.windowMs, t);
  }

  /** Every half-open interval as long as the window, wherever it ends, contains at most `max` accepted
      requests. */
  lemma {:induction false} WindowHoldsAtMostMax(rs: seq<Request>, c: Config, t: int)
    requires Sequential(rs, c)
    ensures Within(Log(rs, c), t - c.windowMs, t) <= if c.max > 0 then c.max else 0
  {
    if rs != [] {
      var n := |rs| - 1;
      WindowHoldsAtMostMax(rs[..n], c, t);
      var log, now := Log(rs[..n], c), rs[n].now;
      if FullReply(log, now, c).Accepted? {
        WithinSnoc(log, now, t - c.windowMs, t);
        if now <= t {
          AcceptedFits(log, now, t, c);
        }
      }
    }
  }

  // ----- the announced reset time

  lemma {:induction false} WithinIsAllAfter(ts: seq<int>, lo: int, hi: int)
    requires forall i :: 0 <= i < |ts| ==> ts[i] <= hi
    ensures Within(ts, lo, hi) == |After(ts, lo)|
  {
    if ts != [] { WithinIsAllAfter(ts[..|ts| - 1], lo, hi); }
  }

  lemma {:induction false} AfterSorted(ts: seq<int>, lo: int)
    requires Sorted(ts)
    ensures Sorted(After(ts, lo)) && forall i :: 0 <= i < |After(ts, lo)| ==>
            After(ts, lo)[i] > lo && After(ts, lo)[i] in ts
  {
    if ts != [] { AfterSorted(ts[..|ts| - 1], lo); }
  }

  lemma LogIsInOrder(rs: seq<Request>, c: Config)
    requires Sequential(rs, c)
    ensures Sorted(Log(rs, c)) && Bounded(Log(rs, c), LastTime(rs))
  {
    RunSimulates(rs, c);
  }

  /** The accepted requests that still count at `now`. */
  function Recent(rs: seq<Request>, now: int, c: Config): seq<int> {
    After(Log(rs, c), now - c.windowMs)
  }

  lemma RecentOfRefusal(rs: seq<Request>, now: int, c: Config)
    requires Sequential(rs, c) && LastTime(rs) <= now && FullReply(Log(rs, c), now, c).TooMany? && c.max > 0
    ensures |Recent(rs, now, c)| == c.max && Sorted(Recent(rs, now, c))
    ensures now - c.windowMs < Recent(rs, now, c)[0] <= now
  {
    hide Sequential, Log, After, Within;
    LogIsInOrder(rs, c);
    WindowHoldsAtMostMax(rs, c, now);
    WithinIsAllAfter(Log(rs, c), now - c.windowMs, now);
    AfterSorted(Log(rs, c), now - c.windowMs);
  }

  /** After a refusal the limiter accepts again exactly when the oldest request that counted has left the
      window. */
  lemma {:induction false} AcceptsAgainIff(rs: seq<Request>, now: int, later: int, c: Config)
    requires Sequential(rs, c) && LastTime(rs) <= now <= later
    requires FullReply(Log(rs, c), now, c).TooMany? && c.max > 0
    ensures |Recent(rs, now, c)| == c.max
    ensures FullReply(Log(rs, c), later, c).Accepted? <==> Recent(rs, now, c)[0] + c.windowMs <= later
  {
    hide After, Sequential, Log;
    var recent := Recent(rs, now, c);
    RecentOfRefusal(rs, now, c);
    AfterAfter(Log(rs, c), now - c.windowMs, later - c.windowMs);
    if recent[0] + c.windowMs <= later {
      AfterShrinks(recent, later - c.windowMs);
    } else {
      AfterNone(recent, later - c.windowMs);
    }
  }

  /** The reset time that a refusal announces is when the limiter accepts again. */
  ghost predicate ResetTimeIsRight(log: seq<int>, now: int, c: Config) {
    forall later | later >= now ::
      var refusal := FullReply(log, now, c);
      FullReply(log, later, c).Accepted? <==> refusal.TooMany? && refusal.resetTime <= later
  }

  /** It is the right one if and only if every request that counted came at the time of the refusal. */
  lemma {:induction false} ResetTimeIsRightIff(rs: seq<Request>, now: int, c: Config)
    requires Sequential(rs, c) && LastTime(rs) <= now
    requires FullReply(Log(rs, c), now, c).TooMany? && c.max > 0
    ensures |Recent(rs, now, c)| == c.max
    ensures ResetTimeIsRight(Log(rs, c), now, c) <==> Recent(rs, now, c)[0] == now
  {
    hide Sequential, Log, Recent;
    RecentOfRefusal(rs, now, c);
    var log, oldest := Log(rs, c), Recent(rs, now, c)[0];
    forall later | later >= now ensures FullReply(log, later, c).Accepted? <==> oldest + c.windowMs <= later {
      AcceptsAgainIff(rs, now, later, c);
    }
    assert FullReply(log, oldest + c.windowMs, c).Accepted?;
  }

  /** Without a positive maximum, no announced time is right. */
  lemma NoMaximumRefusesForever(log: seq<int>, now: int, c: Config)
    requires c.max <= 0
    ensures FullReply(log, now, c).TooMany? && !ResetTimeIsRight(log, now, c)
  {
    assert FullReply(log, now + c.windowMs, c).TooMany?;
  }

  /** A refusal that announces a time five milliseconds too late. */
  lemma {:induction false} ResetTimeTooLate()
    ensures var c, rs := Config(10, 1), [Request(0, false)];
            && Sequential(rs, c) && FullReply(Log(rs, c), 5, c) == TooMany(15)
            && FullReply(Log(rs, c), 10, c).Accepted?
  {
    var c, r := Config(10, 1), Request(0, false);
    Unroll([], r, c);
    assert [r][..0] == [] && [r] == [] + [r];
    assert Log([], c) == [] && After([], -10) == [];
    AfterSnoc([], 0, -5);
    AfterSnoc([], 0, 0);
  }

  lemma {:induction false} AfterShrinks(ts: seq<int>, lo: int)
    requires ts != [] && ts[0] <= lo
    ensures |After(ts, lo)| < |ts|
  {
    if |ts| > 1 { AfterShrinks(ts[..|ts| - 1], lo); }
  }

  // ----- the announced number of remaining requests

  /** k requests at one time. */
  function Again(now: nat, k: nat): (rs: seq<Request>)
    ensures |rs| == k
  {
    if k == 0 then [] else Again(now, k - 1) + [Request(now, false)]
  }

  /** The set and the log agree, and `used` accepted requests count in the window that ends now. */
  predicate Counts(rs: seq<Request>, now: nat, used: int, c: Config) {
    Sequential(rs, c) && LastTime(rs) <= now && |Recent(rs, now, c)| == used
  }

  lemma RequestAtOnce(rs: seq<Request>, now: nat, used: int, c: Config)
    requires Counts(rs, now, used, c)
    ensures Sequential(rs + [Request(now, false)], c)
    ensures ReplyOf(Zsets(rs, c), Request(now, false), c) ==
            if used >= c.max then TooMany(now + c.windowMs) else Accepted(c.max - used - 1)
    ensures used < c.max && c.windowMs > 0 ==> Counts(rs + [Request(now, false)], now, used + 1, c)
  {
    hide Zsets, Log, After;
    var next := rs + [Request(now, false)];
    assert next[..|rs|] == rs;
    SameDecisions(rs, Request(now, false), c);
    Unroll(rs, Request(now, false), c);
    AfterSnoc(Log(rs, c), now, now - c.windowMs);
  }

  lemma {:induction false} RequestsAtOnce(rs: seq<Request>, now: nat, used: int, k: nat, c: Config)
    requires Counts(rs, now, used, c) && used + k <= c.max && c.windowMs > 0
    ensures Counts(rs + Again(now, k), now, used + k, c)
  {
    hide Counts, Sequential, Log, After, Zsets, ReplyOf;
    if k == 0 {
      assert rs + Again(now, 0) == rs;
    } else {
      RequestsAtOnce(rs, now, used, k - 1, c);
      RequestAtOnce(rs + Again(now, k - 1), now, used + k - 1, c);
      assert rs + Again(now, k) == rs + Again(now, k - 1) + [Request(now, false)];
    }
  }

  lemma AcceptedCounts(rs: seq<Request>, r: Request, c: Config)
    requires Sequential(rs + [r], c) && ReplyOf(Zsets(rs, c), r, c).Accepted? && c.windowMs > 0
    ensures ReplyOf(Zsets(rs, c), r, c).remaining >= 0
    ensures Counts(rs + [r], r.now, c.max - ReplyOf(Zsets(rs, c), r, c).remaining, c)
  {
    hide Zsets, Log, After;
    SameDecisions(rs, r, c);
    Unroll(rs, r, c);
    AfterSnoc(Log(rs, c), r.now, r.now - c.windowMs);
  }

  /** A reply that announces n remaining requests means it: n more at the same time are accepted, counting
      down to 0, and the next one is refused. */
  lemma {:induction false} RemainingIsRight(rs: seq<Request>, r: Request, n: int, k: nat, c: Config)
    requires Sequential(rs + [r], c) && ReplyOf(Zsets(rs, c), r, c) == Accepted(n) && c.windowMs > 0
    requires k <= n
    ensures ReplyOf(Zsets(rs + [r] + Again(r.now, k), c), Request(r.now, false), c) ==
            if k < n then Accepted(n - k - 1) else TooMany(r.now + c.windowMs)
  {
    hide Zsets, Counts, ReplyOf;
    AcceptedCounts(rs, r, c);
    RequestsAtOnce(rs + [r], r.now, c.max - n, k, c);
    RequestAtOnce(rs + [r] + Again(r.now, k), r.now, c.max - n + k, c);
  }

  /** It is the maximum less the accepted requests in the window that ends now, this one included. */
  lemma {:induction false} RemainingIsRest(rs: seq<Request>, r: Request, n: int, c: Config)
    requires Sequential(rs + [r], c) && ReplyOf(Zsets(rs, c), r, c) == Accepted(n) && c.windowMs > 0
    ensures n == c.max - Within(Log(rs + [r], c), r.now - c.windowMs, r.now)
  {
    hide Zsets, ReplyOf, Sequential, Log, After, Within;
    AcceptedCounts(rs, r, c);
    LogIsInOrder(rs + [r], c);
    Unroll(rs, r, c);
    WithinIsAllAfter(Log(rs + [r], c), r.now - c.windowMs, r.now);
  }

  /** With an empty window nothing counts, so that a positive maximum is never reached. */
  lemma {:induction false} EmptyWindowNeverRefuses(rs: seq<Request>, r: Request, c: Config)
    requires Sequential(rs + [r], c) && c.windowMs == 0 && c.max > 0
    ensures ReplyOf(Zsets(rs, c), r, c) == Accepted(c.max - 1)
  {
    hide Zsets, Log;
    SameDecisions(rs, r, c);
    Unroll(rs, r, c);
    LogIsInOrder(rs, c);
    AfterAll(Log(rs, c), r.now);
  }

  /** An accepted request is remembered, and its key may be dropped a whole window later, no sooner. */
  lemma {:induction false} KeyLastsAWindow(rs: seq<Request>, r: Request, c: Config)
    requires ReplyOf(Zsets(rs, c), r, c).Accepted? && c.windowMs > 0
    ensures var z := Zsets(rs + [r], c);
            z.scores != [] && z.scores[|z.scores| - 1] == r.now && z.expiresAt == Some(r.now + c.windowMs)
  {
    hide Zsets, After;
    Unroll(rs, r, c);
  }

  /** Five requests a minute: the first leaves four. */
  lemma {:induction false} FirstOfFive()
    ensures ReplyOf(Zsets([], Config(60_000, 5)), Request(0, false), Config(60_000, 5)) == Accepted(4)
  {
  }
}
