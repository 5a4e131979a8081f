/** The per-client token-bucket limiter with lazy eviction of idle buckets. */
module RateLimits {
  import opened Results
  import opened Sets

  datatype Config = Config(rps: real, burst: nat, idleTtl: real, sweepInterval: real) {
    /** What the middleware guarantees its limiter: a positive rate and at least one token. */
    predicate Valid() { rps > 0.0 && burst >= 1 && idleTtl >= sweepInterval > 0.0 }
  }

  datatype Bucket = Bucket(tokens: real, lastRefill: real, lastAccess: real)

  /** `lastSweep` is None before the first sweep. */
  datatype Limiter = Limiter(buckets: map<string, Bucket>, lastSweep: Option<real>)

  const FRESH := Limiter(map[], None)

  datatype Reply = Admitted | Denied(retry: real)

  const NANOS := 1000000000.0

  /** A duration cut off to whole nanoseconds. */
  function Truncated(seconds: real): real {
    (seconds * NANOS).Floor as real / NANOS
  }

  function Scaled(x: real, rate: real): real { x * rate }

  function Capped(burst: nat, tokens: real): real {
    if tokens > burst as real then burst as real else tokens
  }

  // ---- one request

  function SweepDue(cfg: Config, l: Limiter, now: real): bool {
    l.lastSweep.None? || now - l.lastSweep.value >= cfg.sweepInterval
  }

  function Swept(cfg: Config, l: Limiter, now: real): Limiter {
    if !SweepDue(cfg, l, now) then l
    else Limiter(map k | k in l.buckets && now - l.buckets[k].lastAccess < cfg.idleTtl :: l.buckets[k], Some(now))
  }

  /** A client's tokens at an instant: what the bucket holds plus the refill, or a full bucket if there is none. */
  function Tokens(cfg: Config, l: Limiter, key: string, now: real): real {
    if key !in l.buckets then cfg.burst as real
    else
      var b := l.buckets[key];
      if now > b.lastRefill then Capped(cfg.burst, b.tokens + Scaled(now - b.lastRefill, cfg.rps)) else b.tokens
  }

  function ReplyFor(cfg: Config, tokens: real): Reply
    requires cfg.rps > 0.0
  {
    if tokens >= 1.0 then Admitted else Denied(Truncated((1.0 - tokens) / cfg.rps))
  }

  /** The limiter after a request; `evict` says whether idle buckets are swept first. */
  function Next(cfg: Config, evict: bool, l: Limiter, key: string, now: real): Limiter {
    var swept := if evict then Swept(cfg, l, now) else l;
    var tokens := Tokens(cfg, swept, key, now);
    var refilled := if key in swept.buckets && swept.buckets[key].lastRefill > now then swept.buckets[key].lastRefill else now;
    swept.(buckets := swept.buckets[key := Bucket(if tokens >= 1.0 then tokens - 1.0 else tokens, refilled, now)])
  }

  function Answer(cfg: Config, evict: bool, l: Limiter, key: string, now: real): Reply
    requires cfg.rps > 0.0
  {
    ReplyFor(cfg, Tokens(cfg, if evict then Swept(cfg, l, now) else l, key, now))
  }

  class RateLimiter {
    const cfg: Config
    var buckets: map<string, Bucket>
    var lastSweep: Option<real>

    constructor (rps: real, burst: int)
      requires rps > 0.0
      ensures View() == FRESH && cfg == Config(rps, if burst < 1 then 1 else burst, 600.0, 60.0) && cfg.Valid()
    {
      cfg := Config(rps, if burst < 1 then 1 else burst, 600.0, 60.0);
      buckets, lastSweep := map[], None;
    }

    function View(): Limiter
      reads this
    {
      Limiter(buckets, lastSweep)
    }

    method Allow(key: string, now: real) returns (reply: Reply)
      requires cfg.Valid()
      modifies this
      ensures View() == Next(cfg, true, old(View()), key, now) && reply == Answer(cfg, true, old(View()), key, now)
    {
      SweepLocked(now);
      if key !in buckets {
        buckets := buckets[key := Bucket(cfg.burst as real, now, now)];
      }
      var b := buckets[key];
      var elapsed := now - b.lastRefill;
      if elapsed > 0.0 {
        var tokens := b.tokens + Scaled(elapsed, cfg.rps);
        b := b.(tokens := if tokens > cfg.burst as real then cfg.burst as real else tokens, lastRefill := now);
      }
      b := b.(lastAccess := now);
      if b.tokens >= 1.0 {
        buckets := buckets[key := b.(tokens := b.tokens - 1.0)];
        return Admitted;
      }
      buckets := buckets[key := b];
      return Denied(Truncated((1.0 - b.tokens) / cfg.rps));
    }

    /** Deletes idle buckets one by one, in no particular order. */
    method SweepLocked(now: real)
      modifies this
      ensures View() == Swept(cfg, old(View()), now)
    {
      if lastSweep.Some? && now - lastSweep.value < cfg.sweepInterval {
        return;
      }
      lastSweep := Some(now);
      var todo := buckets.Keys;
      ghost var before := buckets;
      while todo != {}
        invariant lastSweep == Some(now) && todo <= before.Keys
        invariant buckets == map k | k in before && (k in todo || now - before[k].lastAccess < cfg.idleTtl) :: before[k]
        decreases todo
      {
        var k := Pick(todo);
        if now - buckets[k].lastAccess >= cfg.idleTtl {
          buckets := buckets - {k};
        }
        todo := todo - {k};
      }
    }
  }

  // ---- runs

  datatype Request = Request(key: string, at: real)

  ghost predicate Monotone(reqs: seq<Request>) {
    forall i, j :: 0 <= i < j < |reqs| ==> reqs[i].at <= reqs[j].at
  }

  /** states[k] is the limiter before request k. */
  ghost predicate IsRun(cfg: Config, evict: bool, reqs: seq<Request>, states: seq<Limiter>) {
    && cfg.Valid() && |states| == |reqs| + 1 && states[0] == FRESH
    && forall k :: 0 <= k < |reqs| ==> Linked(cfg, evict, reqs, states, k)
  }

  ghost predicate Linked(cfg: Config, evict: bool, reqs: seq<Request>, states: seq<Limiter>, k: nat)
    requires k < |reqs| && |states| == |reqs| + 1
  {
    states[k + 1] == Next(cfg, evict, states[k], reqs[k].key, reqs[k].at)
  }

  ghost function AnswerAt(cfg: Config, evict: bool, reqs: seq<Request>, states: seq<Limiter>, k: nat): Reply
    requires cfg.Valid() && k < |reqs| && |states| == |reqs| + 1
  {
    Answer(cfg, evict, states[k], reqs[k].key, reqs[k].at)
  }

  /** At an instant: every bucket was touched before, holds between nothing and a full bucket. */
  ghost predicate Sound(cfg: Config, l: Limiter, now: real) {
    forall k :: k in l.buckets ==>
      && l.buckets[k].lastRefill == l.buckets[k].lastAccess <= now
      && 0.0 <= l.buckets[k].tokens <= cfg.burst as real
  }

  lemma ScaledGrows(a: real, b: real, rate: real)
    requires rate > 0.0 && a <= b
    ensures Scaled(a, rate) <= Scaled(b, rate)
  {
  }

  lemma ScaledAdds(a: real, b: real, rate: real)
    ensures Scaled(a + b, rate) == Scaled(a, rate) + Scaled(b, rate) && Scaled(0.0, rate) == 0.0
  {
  }

  lemma TokensInRange(cfg: Config, l: Limiter, key: string, now: real)
    requires cfg.Valid() && Sound(cfg, l, now)
    ensures 0.0 <= Tokens(cfg, l, key, now) <= cfg.burst as real
  {
    if key in l.buckets {
      ScaledGrows(0.0, now - l.buckets[key].lastRefill, cfg.rps);
      ScaledAdds(0.0, 0.0, cfg.rps);
    }
  }

  /** Refilling in two steps is refilling in one. */
  lemma TokensLater(cfg: Config, l: Limiter, key: string, now: real, later: real)
    requires cfg.Valid() && Sound(cfg, l, now) && now <= later
    ensures Tokens(cfg, l, key, later) == Capped(cfg.burst, Tokens(cfg, l, key, now) + Scaled(later - now, cfg.rps))
  {
    ScaledGrows(0.0, later - now, cfg.rps);
    ScaledAdds(0.0, 0.0, cfg.rps);
    if key in l.buckets {
      var b := l.buckets[key];
      ScaledAdds(now - b.lastRefill, later - now, cfg.rps);
      ScaledGrows(0.0, now - b.lastRefill, cfg.rps);
      assert later - b.lastRefill == (now - b.lastRefill) + (later - now);
    }
  }

  lemma NextSound(cfg: Config, evict: bool, l: Limiter, key: string, now: real)
    requires cfg.Valid() && Sound(cfg, l, now)
    ensures Sound(cfg, Next(cfg, evict, l, key, now), now)
  {
    var swept := if evict then Swept(cfg, l, now) else l;
    assert Sound(cfg, swept, now);
    TokensInRange(cfg, swept, key, now);
  }

  /** After a request: its own key has paid, the others hold what they held. */
  lemma NextTokens(cfg: Config, evict: bool, l: Limiter, key: string, now: real, k: string)
    requires cfg.Valid() && Sound(cfg, l, now)
    ensures var swept := if evict then Swept(cfg, l, now) else l;
      var t := Tokens(cfg, swept, k, now);
      Tokens(cfg, Next(cfg, evict, l, key, now), k, now) == if k == key && t >= 1.0 then t - 1.0 else t
  {
  }

  /** What a client finds in its bucket at an instant, in the numbers of the limiter; one idle for idleTTL is swept. */
  ghost predicate Holds(cfg: Config, l: Limiter, key: string, now: real, tokens: real) {
    var swept := l.lastSweep.None? || now - l.lastSweep.value >= cfg.sweepInterval;
    if key !in l.buckets || (swept && now - l.buckets[key].lastAccess >= cfg.idleTtl) then tokens == cfg.burst as real
    else
      var filled := l.buckets[key].tokens + (now - l.buckets[key].lastRefill) * cfg.rps;
      tokens == if filled < cfg.burst as real then filled else cfg.burst as real
  }

  /** The wait reported for a missing part of a token: whole nanoseconds, at most what it takes, by less than one. */
  ghost predicate IsWait(cfg: Config, missing: real, retry: real) {
    && (retry * 1000000000.0).Floor as real == retry * 1000000000.0
    && retry * cfg.rps <= missing < (retry + 0.000000001) * cfg.rps
  }

  lemma TruncatedIsWait(cfg: Config, missing: real)
    requires cfg.rps > 0.0
    ensures IsWait(cfg, missing, Truncated(missing / cfg.rps))
  {
    var x := missing / cfg.rps;
    var n := (x * NANOS).Floor;
    var retry := Truncated(x);
    assert retry * NANOS == n as real;
    assert x * cfg.rps == missing;
    ScaledGrows(retry, x, cfg.rps);
    ScaledLess(x, retry + 0.000000001, cfg.rps);
  }

  lemma ScaledLess(a: real, b: real, rate: real)
    requires rate > 0.0 && a < b
    ensures Scaled(a, rate) < Scaled(b, rate)
  {
  }

  lemma HeldTokens(cfg: Config, l: Limiter, key: string, now: real, tokens: real)
    requires cfg.Valid() && Sound(cfg, l, now) && Holds(cfg, l, key, now, tokens)
    ensures tokens == Tokens(cfg, Swept(cfg, l, now), key, now)
  {
    if key in l.buckets {
      ScaledAdds(0.0, 0.0, cfg.rps);
      assert Scaled(now - l.buckets[key].lastRefill, cfg.rps) == (now - l.buckets[key].lastRefill) * cfg.rps;
    }
  }

  /** A request is admitted exactly when the bucket holds a token, which it then pays; else the wait for one is told. */
  lemma AnswerIs(cfg: Config, l: Limiter, key: string, now: real, tokens: real)
    requires cfg.Valid() && Sound(cfg, l, now) && Holds(cfg, l, key, now, tokens)
    ensures var a, q := Answer(cfg, true, l, key, now), Next(cfg, true, l, key, now);
      && (a == Admitted <==> tokens >= 1.0)
      && (a.Denied? ==> IsWait(cfg, 1.0 - tokens, a.retry))
      && key in q.buckets && q.buckets[key] == Bucket(if tokens >= 1.0 then tokens - 1.0 else tokens, now, now)
  {
    HeldTokens(cfg, l, key, now, tokens);
    TruncatedIsWait(cfg, 1.0 - tokens);
  }

  // ---- when eviction cannot be noticed

  /** A bucket left alone for idleTtl has refilled to full. */
  predicate Preserving(cfg: Config) {
    Scaled(cfg.idleTtl, cfg.rps) >= cfg.burst as real
  }

  lemma EvictionKeepsTokens(cfg: Config, l: Limiter, key: string, now: real)
    requires cfg.Valid() && Preserving(cfg) && Sound(cfg, l, now)
    ensures Sound(cfg, Swept(cfg, l, now), now) && Tokens(cfg, Swept(cfg, l, now), key, now) == Tokens(cfg, l, key, now)
  {
    if key in l.buckets && now - l.buckets[key].lastAccess >= cfg.idleTtl {
      ScaledGrows(cfg.idleTtl, now - l.buckets[key].lastRefill, cfg.rps);
    }
  }

  /** Two limiters no client can tell apart from some instant on. */
  ghost predicate Agree(cfg: Config, e: Limiter, p: Limiter, now: real) {
    Sound(cfg, e, now) && Sound(cfg, p, now) && forall key :: SameTokens(cfg, e, p, key, now)
  }

  ghost predicate SameTokens(cfg: Config, e: Limiter, p: Limiter, key: string, now: real) {
    Tokens(cfg, e, key, now) == Tokens(cfg, p, key, now)
  }

  lemma AgreeLater(cfg: Config, e: Limiter, p: Limiter, now: real, later: real)
    requires cfg.Valid() && Agree(cfg, e, p, now) && now <= later
    ensures Agree(cfg, e, p, later)
  {
    forall key: string
      ensures SameTokens(cfg, e, p, key, later)
    {
      assert SameTokens(cfg, e, p, key, now);
      TokensLater(cfg, e, key, now, later);
      TokensLater(cfg, p, key, now, later);
    }
  }

  lemma AgreeNext(cfg: Config, e: Limiter, p: Limiter, key: string, now: real)
    requires cfg.Valid() && Preserving(cfg) && Agree(cfg, e, p, now)
    ensures Answer(cfg, true, e, key, now) == Answer(cfg, false, p, key, now)
    ensures Agree(cfg, Next(cfg, true, e, key, now), Next(cfg, false, p, key, now), now)
  {
    NextSound(cfg, true, e, key, now);
    NextSound(cfg, false, p, key, now);
    forall k: string
      ensures SameTokens(cfg, Swept(cfg, e, now), p, k, now)
      ensures SameTokens(cfg, Next(cfg, true, e, key, now), Next(cfg, false, p, key, now), k, now)
    {
      assert SameTokens(cfg, e, p, k, now);
      EvictionKeepsTokens(cfg, e, k, now);
      NextTokens(cfg, true, e, key, now, k);
      NextTokens(cfg, false, p, key, now, k);
    }
    assert SameTokens(cfg, Swept(cfg, e, now), p, key, now);
  }

  lemma {:induction false} RunsAgree(cfg: Config, reqs: seq<Request>, e: seq<Limiter>, p: seq<Limiter>, k: nat)
    requires Monotone(reqs) && IsRun(cfg, true, reqs, e) && IsRun(cfg, false, reqs, p) && Preserving(cfg)
    requires k < |reqs|
    ensures Agree(cfg, e[k], p[k], reqs[k].at)
  {
    if k > 0 {
      RunsAgree(cfg, reqs, e, p, k - 1);
      AgreeNext(cfg, e[k - 1], p[k - 1], reqs[k - 1].key, reqs[k - 1].at);
      assert Linked(cfg, true, reqs, e, k - 1) && Linked(cfg, false, reqs, p, k - 1);
      AgreeLater(cfg, e[k], p[k], reqs[k - 1].at, reqs[k].at);
    }
  }

  lemma SameAnswers(cfg: Config, reqs: seq<Request>, e: seq<Limiter>, p: seq<Limiter>, k: nat)
    requires Monotone(reqs) && IsRun(cfg, true, reqs, e) && IsRun(cfg, false, reqs, p) && Preserving(cfg)
    requires k < |reqs|
    ensures AnswerAt(cfg, true, reqs, e, k) == AnswerAt(cfg, false, reqs, p, k)
  {
    RunsAgree(cfg, reqs, e, p, k);
    AgreeNext(cfg, e[k], p[k], reqs[k].key, reqs[k].at);
  }

  // ---- and when it can

  /** Spend a full bucket, stay away for idleTtl, spend again. */
  function ReturningClient(cfg: Config): (reqs: seq<Request>)
    ensures |reqs| == 2 * cfg.burst
  {
    seq(2 * cfg.burst, i => Request("client", if i < cfg.burst then 0.0 else cfg.idleTtl))
  }

  function Holding(tokens: real, at: real, lastSweep: Option<real>): Limiter {
    Limiter(map["client" := Bucket(tokens, at, at)], lastSweep)
  }

  /** The run begins with the client spending a full bucket. */
  ghost predicate BurstFirst(cfg: Config, reqs: seq<Request>) {
    |reqs| >= cfg.burst && forall i :: 0 <= i < cfg.burst ==> reqs[i] == Request("client", 0.0)
  }

  lemma {:induction false} FirstVisit(cfg: Config, evict: bool, reqs: seq<Request>, states: seq<Limiter>, j: nat)
    requires IsRun(cfg, evict, reqs, states) && BurstFirst(cfg, reqs) && 0 < j <= cfg.burst
    ensures states[j] == Holding((cfg.burst - j) as real, 0.0, if evict then Some(0.0) else None)
  {
    assert Linked(cfg, evict, reqs, states, j - 1);
    if j > 1 {
      FirstVisit(cfg, evict, reqs, states, j - 1);
    }
  }

  lemma {:induction false} SecondVisitEvicting(cfg: Config, states: seq<Limiter>, i: nat)
    requires IsRun(cfg, true, ReturningClient(cfg), states) && i < cfg.burst
    ensures i == 0 ==> states[cfg.burst] == Holding(0.0, 0.0, Some(0.0))
    ensures i > 0 ==> states[cfg.burst + i] == Holding((cfg.burst - i) as real, cfg.idleTtl, Some(cfg.idleTtl))
    ensures AnswerAt(cfg, true, ReturningClient(cfg), states, cfg.burst + i) == Admitted
  {
    if i == 0 {
      FirstVisit(cfg, true, ReturningClient(cfg), states, cfg.burst);
    } else {
      SecondVisitEvicting(cfg, states, i - 1);
      assert Linked(cfg, true, ReturningClient(cfg), states, cfg.burst + i - 1);
    }
  }

  lemma {:induction false} SecondVisitPlain(cfg: Config, states: seq<Limiter>, i: nat)
    requires IsRun(cfg, false, ReturningClient(cfg), states) && i < cfg.burst && !Preserving(cfg)
    requires i as real <= Scaled(cfg.idleTtl, cfg.rps)
    ensures i == 0 ==> states[cfg.burst] == Holding(0.0, 0.0, None)
    ensures i > 0 ==> states[cfg.burst + i] == Holding(Scaled(cfg.idleTtl, cfg.rps) - i as real, cfg.idleTtl, None)
    ensures Tokens(cfg, states[cfg.burst + i], "client", cfg.idleTtl) == Scaled(cfg.idleTtl, cfg.rps) - i as real
  {
    if i == 0 {
      FirstVisit(cfg, false, ReturningClient(cfg), states, cfg.burst);
    } else {
      SecondVisitPlain(cfg, states, i - 1);
      assert Linked(cfg, false, ReturningClient(cfg), states, cfg.burst + i - 1);
    }
  }

  /** With a slower refill, the returning client is let in by the evicting limiter where a plain one denies it. */
  lemma EvictionNoticed(cfg: Config, e: seq<Limiter>, p: seq<Limiter>) returns (k: nat)
    requires cfg.Valid() && !Preserving(cfg)
    requires IsRun(cfg, true, ReturningClient(cfg), e) && IsRun(cfg, false, ReturningClient(cfg), p)
    ensures k < |ReturningClient(cfg)|
    ensures AnswerAt(cfg, true, ReturningClient(cfg), e, k) != AnswerAt(cfg, false, ReturningClient(cfg), p, k)
  {
    ScaledGrows(0.0, cfg.idleTtl, cfg.rps);
    ScaledAdds(0.0, 0.0, cfg.rps);
    var i := Scaled(cfg.idleTtl, cfg.rps).Floor;
    SecondVisitEvicting(cfg, e, i);
    SecondVisitPlain(cfg, p, i);
    k := cfg.burst + i;
  }

  ghost function States(cfg: Config, evict: bool, reqs: seq<Request>, n: nat): (states: seq<Limiter>)
    requires n <= |reqs|
    ensures |states| == n + 1
  {
    if n == 0 then [FRESH]
    else
      var before := States(cfg, evict, reqs, n - 1);
      before + [Next(cfg, evict, before[n - 1], reqs[n - 1].key, reqs[n - 1].at)]
  }

  lemma {:induction false} StatesLinked(cfg: Config, evict: bool, reqs: seq<Request>, n: nat)
    requires n <= |reqs|
    ensures var states := States(cfg, evict, reqs, n);
      && states[0] == FRESH
      && forall k :: 0 <= k < n ==> states[k + 1] == Next(cfg, evict, states[k], reqs[k].key, reqs[k].at)
  {
    if n > 0 {
      StatesLinked(cfg, evict, reqs, n - 1);
    }
  }

  lemma RunExists(cfg: Config, evict: bool, reqs: seq<Request>) returns (states: seq<Limiter>)
    requires cfg.Valid()
    ensures IsRun(cfg, evict, reqs, states)
  {
    states := States(cfg, evict, reqs, |reqs|);
    StatesLinked(cfg, evict, reqs, |reqs|);
  }

  /** No client, whatever the requests, can tell the evicting limiter from one that keeps every bucket. */
  ghost predicate Invisible(cfg: Config)
    requires cfg.Valid()
  {
    forall reqs, e, p, k: nat :: Monotone(reqs) && IsRun(cfg, true, reqs, e) && IsRun(cfg, false, reqs, p) && k < |reqs| ==>
      AnswerAt(cfg, true, reqs, e, k) == AnswerAt(cfg, false, reqs, p, k)
  }

  /** Lazy eviction is invisible exactly when an idle bucket has refilled by the time it is dropped. */
  lemma EvictionInvisibleIff(cfg: Config)
    requires cfg.Valid()
    ensures Invisible(cfg) <==> Preserving(cfg)
  {
    if Preserving(cfg) {
      forall reqs, e, p, k: nat | Monotone(reqs) && IsRun(cfg, true, reqs, e) && IsRun(cfg, false, reqs, p) && k < |reqs|
        ensures AnswerAt(cfg, true, reqs, e, k) == AnswerAt(cfg, false, reqs, p, k)
      {
        SameAnswers(cfg, reqs, e, p, k);
      }
    } else {
      var reqs := ReturningClient(cfg);
      var e := RunExists(cfg, true, reqs);
      var p := RunExists(cfg, false, reqs);
      var k := EvictionNoticed(cfg, e, p);
      assert Monotone(reqs);
    }
  }

  // ---- how much a client gets, and when

  lemma {:induction false} RunSound(cfg: Config, evict: bool, reqs: seq<Request>, states: seq<Limiter>, k: nat)
    requires Monotone(reqs) && IsRun(cfg, evict, reqs, states) && k < |reqs|
    ensures Sound(cfg, states[k], reqs[k].at) && Sound(cfg, states[k + 1], reqs[k].at)
  {
    if k > 0 {
      RunSound(cfg, evict, reqs, states, k - 1);
    }
    assert Linked(cfg, evict, reqs, states, k);
    NextSound(cfg, evict, states[k], reqs[k].key, reqs[k].at);
  }

  /** Admissions of one key among requests i..j. */
  ghost function Admissions(cfg: Config, evict: bool, reqs: seq<Request>, states: seq<Limiter>, key: string, i: nat, j: nat): nat
    requires cfg.Valid() && i <= j <= |reqs| && |states| == |reqs| + 1
    decreases j
  {
    if i == j then 0
    else
      Admissions(cfg, evict, reqs, states, key, i, j - 1)
      + (if reqs[j - 1].key == key && AnswerAt(cfg, evict, reqs, states, j - 1) == Admitted then 1 else 0)
  }

  /** What a key was admitted plus what it still holds is paid for by what it held and the refill since. */
  lemma {:induction false} AdmissionsPaid(cfg: Config, reqs: seq<Request>, p: seq<Limiter>, key: string, i: nat, j: nat)
    requires Monotone(reqs) && IsRun(cfg, false, reqs, p) && i < j <= |reqs|
    ensures Admissions(cfg, false, reqs, p, key, i, j) as real + Tokens(cfg, p[j], key, reqs[j - 1].at)
            <= Tokens(cfg, p[i], key, reqs[i].at) + Scaled(reqs[j - 1].at - reqs[i].at, cfg.rps)
    decreases j
  {
    RunSound(cfg, false, reqs, p, j - 1);
    assert Linked(cfg, false, reqs, p, j - 1);
    NextTokens(cfg, false, p[j - 1], reqs[j - 1].key, reqs[j - 1].at, key);
    if j - 1 == i {
      assert Admissions(cfg, false, reqs, p, key, i, i) == 0;
      ScaledAdds(0.0, 0.0, cfg.rps);
    } else {
      AdmissionsPaid(cfg, reqs, p, key, i, j - 1);
      RunSound(cfg, false, reqs, p, j - 2);
      TokensLater(cfg, p[j - 1], key, reqs[j - 2].at, reqs[j - 1].at);
      ScaledAdds(reqs[j - 2].at - reqs[i].at, reqs[j - 1].at - reqs[j - 2].at, cfg.rps);
    }
  }

  lemma {:induction false} SameAdmissions(cfg: Config, reqs: seq<Request>, e: seq<Limiter>, p: seq<Limiter>, key: string, i: nat, j: nat)
    requires Monotone(reqs) && IsRun(cfg, true, reqs, e) && IsRun(cfg, false, reqs, p) && Preserving(cfg)
    requires i <= j <= |reqs|
    ensures Admissions(cfg, true, reqs, e, key, i, j) == Admissions(cfg, false, reqs, p, key, i, j)
    decreases j
  {
    if i < j {
      SameAdmissions(cfg, reqs, e, p, key, i, j - 1);
      SameAnswers(cfg, reqs, e, p, j - 1);
    }
  }

  /** The requests of one key among i..j that were admitted. */
  ghost function AdmittedIn(cfg: Config, reqs: seq<Request>, e: seq<Limiter>, key: string, i: nat, j: nat): set<nat>
    requires cfg.Valid() && j <= |reqs| && |e| == |reqs| + 1
  {
    set k: nat | i <= k < j && reqs[k].key == key && AnswerAt(cfg, true, reqs, e, k) == Admitted
  }

  lemma OneMoreAdmitted(cfg: Config, reqs: seq<Request>, e: seq<Limiter>, key: string, i: nat, j: nat)
    requires cfg.Valid() && i <= j < |reqs| && |e| == |reqs| + 1
    ensures AdmittedIn(cfg, reqs, e, key, i, j + 1)
            == AdmittedIn(cfg, reqs, e, key, i, j)
               + (if reqs[j].key == key && AnswerAt(cfg, true, reqs, e, j) == Admitted then {j} else {})
  {
  }

  lemma {:induction false} AdmissionsCount(cfg: Config, reqs: seq<Request>, e: seq<Limiter>, key: string,
                                           i: nat, j: nat)
    requires cfg.Valid() && i <= j <= |reqs| && |e| == |reqs| + 1
    ensures |AdmittedIn(cfg, reqs, e, key, i, j)| == Admissions(cfg, true, reqs, e, key, i, j)
    decreases j
  {
    if i == j {
      assert AdmittedIn(cfg, reqs, e, key, i, j) == {};
      return;
    }
    AdmissionsCount(cfg, reqs, e, key, i, j - 1);
    OneMoreAdmitted(cfg, reqs, e, key, i, j - 1);
    assert j - 1 !in AdmittedIn(cfg, reqs, e, key, i, j - 1);
  }

  /** In any window one key gets at most a burst plus the refill over the window, whatever other keys do. */
  lemma WindowBound(cfg: Config, reqs: seq<Request>, e: seq<Limiter>, key: string, i: nat, j: nat)
    requires Monotone(reqs) && IsRun(cfg, true, reqs, e) && Preserving(cfg) && i < j <= |reqs|
    ensures |AdmittedIn(cfg, reqs, e, key, i, j)| as real
            <= cfg.burst as real + Scaled(reqs[j - 1].at - reqs[i].at, cfg.rps)
  {
    AdmissionsCount(cfg, reqs, e, key, i, j);
    var p := RunExists(cfg, false, reqs);
    SameAdmissions(cfg, reqs, e, p, key, i, j);
    AdmissionsPaid(cfg, reqs, p, key, i, j);
    RunSound(cfg, false, reqs, p, i);
    RunSound(cfg, false, reqs, p, j - 1);
    TokensInRange(cfg, p[i], key, reqs[i].at);
    TokensInRange(cfg, p[j], key, reqs[j - 1].at);
  }

  /** Between two requests of a key, with only other keys in between, its tokens just refill. */
  lemma {:induction false} Undisturbed(cfg: Config, reqs: seq<Request>, p: seq<Limiter>, k: nat, m: nat)
    requires Monotone(reqs) && IsRun(cfg, false, reqs, p) && k < m < |reqs|
    requires forall n :: k < n < m ==> reqs[n].key != reqs[k].key
    requires AnswerAt(cfg, false, reqs, p, k).Denied?
    ensures Tokens(cfg, p[m], reqs[k].key, reqs[m].at)
            == Capped(cfg.burst, Tokens(cfg, p[k], reqs[k].key, reqs[k].at) + Scaled(reqs[m].at - reqs[k].at, cfg.rps))
    decreases m
  {
    var key := reqs[k].key;
    RunSound(cfg, false, reqs, p, m - 1);
    assert Linked(cfg, false, reqs, p, m - 1);
    NextTokens(cfg, false, p[m - 1], reqs[m - 1].key, reqs[m - 1].at, key);
    TokensLater(cfg, p[m], key, reqs[m - 1].at, reqs[m].at);
    if m - 1 > k {
      Undisturbed(cfg, reqs, p, k, m - 1);
      ScaledAdds(reqs[m - 1].at - reqs[k].at, reqs[m].at - reqs[m - 1].at, cfg.rps);
      ScaledGrows(0.0, reqs[m].at - reqs[m - 1].at, cfg.rps);
      ScaledAdds(0.0, 0.0, cfg.rps);
    }
  }

  /** The exact wait that readmits a denied client. */
  function Needed(cfg: Config, tokens: real): real
    requires cfg.rps > 0.0
  {
    (1.0 - tokens) / cfg.rps
  }

  lemma NeededScales(cfg: Config, tokens: real, wait: real)
    requires cfg.rps > 0.0
    ensures Scaled(wait, cfg.rps) >= 1.0 - tokens <==> wait >= Needed(cfg, tokens)
  {
    assert Scaled(Needed(cfg, tokens), cfg.rps) == 1.0 - tokens;
    if wait >= Needed(cfg, tokens) {
      ScaledGrows(Needed(cfg, tokens), wait, cfg.rps);
    } else {
      ScaledGap(wait, Needed(cfg, tokens), cfg.rps);
    }
  }

  lemma ScaledGap(a: real, b: real, rate: real)
    requires rate > 0.0 && a < b
    ensures Scaled(a, rate) < Scaled(b, rate)
  {
  }

  /**
   A denied client that stays away is admitted exactly when it has waited for the missing
   fraction of a token; the reported wait falls short of that by less than a nanosecond.
   */
  lemma RetryAdmits(cfg: Config, reqs: seq<Request>, e: seq<Limiter>, k: nat, m: nat)
    requires Monotone(reqs) && IsRun(cfg, true, reqs, e) && Preserving(cfg) && k < m < |reqs|
    requires reqs[m].key == reqs[k].key && forall n :: k < n < m ==> reqs[n].key != reqs[k].key
    requires AnswerAt(cfg, true, reqs, e, k).Denied?
    ensures var tokens := Tokens(cfg, Swept(cfg, e[k], reqs[k].at), reqs[k].key, reqs[k].at);
      && (AnswerAt(cfg, true, reqs, e, m) == Admitted <==> reqs[m].at - reqs[k].at >= Needed(cfg, tokens))
      && AnswerAt(cfg, true, reqs, e, k).retry == Truncated(Needed(cfg, tokens))
  {
    var p := RunExists(cfg, false, reqs);
    SameAnswers(cfg, reqs, e, p, k);
    SameAnswers(cfg, reqs, e, p, m);
    RunsAgree(cfg, reqs, e, p, k);
    EvictionKeepsTokens(cfg, e[k], reqs[k].key, reqs[k].at);
    assert SameTokens(cfg, e[k], p[k], reqs[k].key, reqs[k].at);
    Undisturbed(cfg, reqs, p, k, m);
    NeededScales(cfg, Tokens(cfg, p[k], reqs[k].key, reqs[k].at), reqs[m].at - reqs[k].at);
  }

  lemma TruncatedWithin(x: real)
    ensures Truncated(x) <= x < Truncated(x) + 1.0 / NANOS
  {
  }

  // ---- when the reported wait is enough

  predicate Whole(x: real) { x.Floor as real == x }

  /** The limiter reads its clock, and reports waits, in whole nanoseconds. */
  ghost predicate NanoTimes(reqs: seq<Request>) {
    forall i :: 0 <= i < |reqs| ==> Whole(reqs[i].at * NANOS)
  }

  /** How many nanoseconds refill one token. */
  function NanosPerToken(cfg: Config): real
    requires cfg.rps > 0.0
  {
    NANOS / cfg.rps
  }

  lemma WholeAdds(a: real, b: real)
    requires Whole(a) && Whole(b)
    ensures Whole(a + b) && Whole(a - b)
  {
    WholeNumber(a.Floor + b.Floor, a + b);
    WholeNumber(a.Floor - b.Floor, a - b);
  }

  lemma WholeNumber(i: int, x: real)
    requires x == i as real
    ensures Whole(x)
  {
    assert x.Floor == i;
  }

  lemma {:induction false} WholeMultiple(n: nat, x: real)
    requires Whole(x)
    ensures Whole(Scaled(n as real, x))
  {
    if n == 0 {
      ScaledAdds(0.0, 0.0, x);
    } else {
      WholeMultiple(n - 1, x);
      ScaledAdds((n - 1) as real, 1.0, x);
      WholeAdds(Scaled((n - 1) as real, x), x);
    }
  }

  /** A refill, counted in nanoseconds of refilling, is the time it took. */
  lemma RefillNanos(cfg: Config, elapsed: real)
    requires cfg.rps > 0.0
    ensures Scaled(Scaled(elapsed, cfg.rps), NanosPerToken(cfg)) == elapsed * NANOS
  {
    var q := NanosPerToken(cfg);
    assert cfg.rps * q == NANOS;
    assert Scaled(Scaled(elapsed, cfg.rps), q) == elapsed * (cfg.rps * q);
  }

  /** A number of tokens that some whole number of nanoseconds refills. */
  predicate WholeTokens(cfg: Config, tokens: real)
    requires cfg.rps > 0.0
  {
    Whole(Scaled(tokens, NanosPerToken(cfg)))
  }

  lemma WholeRefilled(cfg: Config, tokens: real, elapsed: real)
    requires cfg.Valid() && Whole(NanosPerToken(cfg)) && WholeTokens(cfg, tokens) && Whole(elapsed * NANOS)
    ensures WholeTokens(cfg, Capped(cfg.burst, tokens + Scaled(elapsed, cfg.rps)))
  {
    var q := NanosPerToken(cfg);
    WholeMultiple(cfg.burst, q);
    RefillNanos(cfg, elapsed);
    ScaledAdds(tokens, Scaled(elapsed, cfg.rps), q);
    WholeAdds(Scaled(tokens, q), elapsed * NANOS);
  }

  lemma WholePaid(cfg: Config, tokens: real)
    requires cfg.Valid() && Whole(NanosPerToken(cfg)) && WholeTokens(cfg, tokens)
    ensures WholeTokens(cfg, tokens - 1.0)
  {
    ScaledAdds(tokens - 1.0, 1.0, NanosPerToken(cfg));
    WholeAdds(Scaled(tokens, NanosPerToken(cfg)), NanosPerToken(cfg));
  }

  /** Sweeping leaves a client what it had, or a full bucket. */
  lemma SweptHolds(cfg: Config, l: Limiter, key: string, now: real)
    requires cfg.Valid() && Sound(cfg, l, now)
    ensures Sound(cfg, Swept(cfg, l, now), now)
    ensures var t := Tokens(cfg, Swept(cfg, l, now), key, now);
      t >= Tokens(cfg, l, key, now) && (t == Tokens(cfg, l, key, now) || t == cfg.burst as real)
  {
    TokensInRange(cfg, l, key, now);
  }

  /** When a token takes a whole number of nanoseconds, every client always has a whole number of nanoseconds' refill. */
  lemma {:induction false} RunWhole(cfg: Config, evict: bool, reqs: seq<Request>, states: seq<Limiter>, k: nat, key: string)
    requires Monotone(reqs) && NanoTimes(reqs) && IsRun(cfg, evict, reqs, states) && Whole(NanosPerToken(cfg))
    requires k < |reqs|
    ensures WholeTokens(cfg, Tokens(cfg, states[k], key, reqs[k].at))
    ensures WholeTokens(cfg, Tokens(cfg, Swept(cfg, states[k], reqs[k].at), key, reqs[k].at))
  {
    WholeMultiple(cfg.burst, NanosPerToken(cfg));
    if k > 0 {
      RunWhole(cfg, evict, reqs, states, k - 1, key);
      NextWhole(cfg, evict, reqs, states, k - 1, key);
    }
    RunSound(cfg, evict, reqs, states, k);
    SweptHolds(cfg, states[k], key, reqs[k].at);
  }

  lemma NextWhole(cfg: Config, evict: bool, reqs: seq<Request>, states: seq<Limiter>, k: nat, key: string)
    requires Monotone(reqs) && NanoTimes(reqs) && IsRun(cfg, evict, reqs, states) && Whole(NanosPerToken(cfg))
    requires k + 1 < |reqs| && WholeTokens(cfg, Tokens(cfg, states[k], key, reqs[k].at))
    requires WholeTokens(cfg, Tokens(cfg, Swept(cfg, states[k], reqs[k].at), key, reqs[k].at))
    ensures WholeTokens(cfg, Tokens(cfg, states[k + 1], key, reqs[k + 1].at))
  {
    var at, later := reqs[k].at, reqs[k + 1].at;
    RunSound(cfg, evict, reqs, states, k);
    assert Linked(cfg, evict, reqs, states, k);
    NextTokens(cfg, evict, states[k], reqs[k].key, at, key);
    WholePaid(cfg, Tokens(cfg, if evict then Swept(cfg, states[k], at) else states[k], key, at));
    TokensLater(cfg, states[k + 1], key, at, later);
    WholeAdds(later * NANOS, at * NANOS);
    WholeRefilled(cfg, Tokens(cfg, states[k + 1], key, at), later - at);
  }

  /** What is missing to a whole token is refilled in a whole number of nanoseconds: nothing is cut off. */
  lemma WholeNeeded(cfg: Config, tokens: real)
    requires cfg.Valid() && Whole(NanosPerToken(cfg)) && WholeTokens(cfg, tokens)
    ensures Truncated(Needed(cfg, tokens)) == Needed(cfg, tokens)
  {
    var q := NanosPerToken(cfg);
    ScaledAdds(1.0 - tokens, tokens, q);
    WholeAdds(q, Scaled(tokens, q));
    NeededNanos(cfg, tokens);
  }

  lemma NeededNanos(cfg: Config, tokens: real)
    requires cfg.rps > 0.0
    ensures Needed(cfg, tokens) * NANOS == Scaled(1.0 - tokens, NanosPerToken(cfg))
  {
    RefillNanos(cfg, Needed(cfg, tokens));
    assert Scaled(Needed(cfg, tokens), cfg.rps) == 1.0 - tokens;
  }

  /** Request k is denied, and request m is the client's next, no sooner than it was told. */
  ghost predicate Obeyed(cfg: Config, reqs: seq<Request>, e: seq<Limiter>, k: nat, m: nat)
    requires cfg.Valid() && |e| == |reqs| + 1
  {
    && k < m < |reqs| && reqs[m].key == reqs[k].key && (forall n :: k < n < m ==> reqs[n].key != reqs[k].key)
    && AnswerAt(cfg, true, reqs, e, k).Denied?
    && reqs[m].at - reqs[k].at >= AnswerAt(cfg, true, reqs, e, k).retry
  }

  /** Whatever the requests, a denied client that waits as long as it is told is admitted. */
  ghost predicate RetryHonest(cfg: Config)
    requires cfg.Valid()
  {
    forall reqs, e, k: nat, m: nat ::
      Monotone(reqs) && NanoTimes(reqs) && IsRun(cfg, true, reqs, e) && Obeyed(cfg, reqs, e, k, m) ==>
        AnswerAt(cfg, true, reqs, e, m) == Admitted
  }

  /** What a request finds in its bucket. */
  ghost function Found(cfg: Config, reqs: seq<Request>, e: seq<Limiter>, k: nat, key: string): real
    requires k < |reqs| && |e| == |reqs| + 1
  {
    Tokens(cfg, Swept(cfg, e[k], reqs[k].at), key, reqs[k].at)
  }

  /** A denied client that stays away loses nothing: its bucket refills, or is dropped and comes back full. */
  lemma {:induction false} StayingAwayRefills(cfg: Config, reqs: seq<Request>, e: seq<Limiter>, k: nat, m: nat)
    requires Monotone(reqs) && IsRun(cfg, true, reqs, e) && k < m < |reqs|
    requires (forall n :: k < n < m ==> reqs[n].key != reqs[k].key) && AnswerAt(cfg, true, reqs, e, k).Denied?
    ensures Found(cfg, reqs, e, m, reqs[k].key)
            >= Capped(cfg.burst, Found(cfg, reqs, e, k, reqs[k].key) + Scaled(reqs[m].at - reqs[k].at, cfg.rps))
    decreases m
  {
    var key, before, at := reqs[k].key, reqs[m - 1].at, reqs[m].at;
    RunSound(cfg, true, reqs, e, m - 1);
    assert Linked(cfg, true, reqs, e, m - 1);
    NextTokens(cfg, true, e[m - 1], reqs[m - 1].key, before, key);
    TokensLater(cfg, e[m], key, before, at);
    RunSound(cfg, true, reqs, e, m);
    SweptHolds(cfg, e[m], key, at);
    ScaledGrows(0.0, at - before, cfg.rps);
    ScaledAdds(0.0, 0.0, cfg.rps);
    if m - 1 > k {
      StayingAwayRefills(cfg, reqs, e, k, m - 1);
      ScaledAdds(before - reqs[k].at, at - before, cfg.rps);
    }
  }

  /** A whole number of nanoseconds to a token: the reported wait is exactly what is needed. */
  lemma WholeIsHonest(cfg: Config, reqs: seq<Request>, e: seq<Limiter>, k: nat, m: nat)
    requires Monotone(reqs) && NanoTimes(reqs) && IsRun(cfg, true, reqs, e)
    requires Whole(NanosPerToken(cfg)) && Obeyed(cfg, reqs, e, k, m)
    ensures AnswerAt(cfg, true, reqs, e, m) == Admitted
  {
    var t := Found(cfg, reqs, e, k, reqs[k].key);
    RunWhole(cfg, true, reqs, e, k, reqs[k].key);
    WholeNeeded(cfg, t);
    NeededScales(cfg, t, reqs[m].at - reqs[k].at);
    StayingAwayRefills(cfg, reqs, e, k, m);
  }

  /** The time after which a client with an empty bucket is told to come back. */
  function EmptyRetry(cfg: Config): real
    requires cfg.rps > 0.0
  {
    Truncated(Needed(cfg, 0.0))
  }

  // ---- a client that is told wrong

  /** The whole nanoseconds an empty bucket's wait is cut off to. */
  function EmptyNanos(cfg: Config): (n: nat)
    requires cfg.Valid()
    ensures n as real <= NanosPerToken(cfg) < n as real + 1.0
    ensures EmptyRetry(cfg) == n as real / NANOS
  {
    NeededNanos(cfg, 0.0);
    ScaledAdds(1.0, 0.0, NanosPerToken(cfg));
    (Needed(cfg, 0.0) * NANOS).Floor
  }

  /** The j-th nanosecond, up to the reported wait. */
  function Nanosecond(cfg: Config, j: nat): real
    requires cfg.Valid()
  {
    (if j < EmptyNanos(cfg) then j else EmptyNanos(cfg)) as real / NANOS
  }

  /** Spend a full bucket, then ask every nanosecond until the wait reported first is over, and once more. */
  function AskingClient(cfg: Config): (reqs: seq<Request>)
    requires cfg.Valid()
    ensures |reqs| == cfg.burst + EmptyNanos(cfg) + 2
  {
    seq(cfg.burst + EmptyNanos(cfg) + 2, i requires 0 <= i =>
      Request("client", if i < cfg.burst then 0.0 else Nanosecond(cfg, i - cfg.burst)))
  }

  lemma NanosecondWhole(cfg: Config, j: nat)
    requires cfg.Valid()
    ensures Whole(Nanosecond(cfg, j) * NANOS)
  {
    var n := if j < EmptyNanos(cfg) then j else EmptyNanos(cfg);
    WholeNumber(n, Nanosecond(cfg, j) * NANOS);
  }

  lemma NanosecondGrows(cfg: Config, i: nat, j: nat)
    requires cfg.Valid() && i <= j
    ensures 0.0 <= Nanosecond(cfg, i) <= Nanosecond(cfg, j)
  {
  }

  lemma AskingTimes(cfg: Config)
    requires cfg.Valid()
    ensures Monotone(AskingClient(cfg)) && NanoTimes(AskingClient(cfg)) && BurstFirst(cfg, AskingClient(cfg))
  {
    var reqs := AskingClient(cfg);
    forall i, j | 0 <= i < j < |reqs|
      ensures reqs[i].at <= reqs[j].at
    {
      NanosecondGrows(cfg, if i < cfg.burst then 0 else i - cfg.burst, if j < cfg.burst then 0 else j - cfg.burst);
      assert Nanosecond(cfg, 0) == 0.0;
    }
    forall i | 0 <= i < |reqs|
      ensures Whole(reqs[i].at * NANOS)
    {
      NanosecondWhole(cfg, if i < cfg.burst then 0 else i - cfg.burst);
      assert Whole(0.0 * NANOS);
    }
  }

  lemma ShortOfToken(cfg: Config, at: real)
    requires cfg.Valid() && !Whole(NanosPerToken(cfg)) && 0.0 <= at <= EmptyRetry(cfg)
    ensures 0.0 <= Scaled(at, cfg.rps) < 1.0
  {
    var n := EmptyNanos(cfg);
    WholeNumber(n, n as real);
    assert NanosPerToken(cfg) != n as real;
    TokenNeeds(cfg);
    ScaledGap(EmptyRetry(cfg), Needed(cfg, 0.0), cfg.rps);
    ScaledGrows(0.0, at, cfg.rps);
    ScaledGrows(at, EmptyRetry(cfg), cfg.rps);
    ScaledAdds(0.0, 0.0, cfg.rps);
  }

  lemma TokenNeeds(cfg: Config)
    requires cfg.rps > 0.0
    ensures Scaled(Needed(cfg, 0.0), cfg.rps) == 1.0 && Needed(cfg, 0.0) == NanosPerToken(cfg) / NANOS
  {
    NeededNanos(cfg, 0.0);
    ScaledAdds(1.0, 0.0, NanosPerToken(cfg));
  }

  /** The limiter holds one bucket, filled since the burst. */
  ghost predicate FilledSince(cfg: Config, l: Limiter, at: real) {
    l.buckets == map["client" := Bucket(Scaled(at, cfg.rps), at, at)]
  }

  /** A bucket asked for within idleTtl just refills, short of a token. */
  lemma AskingStep(cfg: Config, l: Limiter, before: real, now: real)
    requires cfg.Valid() && !Whole(NanosPerToken(cfg)) && 0.0 <= before <= now <= EmptyRetry(cfg)
    requires FilledSince(cfg, l, before) && now - before < cfg.idleTtl
    ensures FilledSince(cfg, Next(cfg, true, l, "client", now), now)
    ensures Tokens(cfg, Swept(cfg, l, now), "client", now) == Scaled(now, cfg.rps)
  {
    ShortOfToken(cfg, now);
    ScaledAdds(before, now - before, cfg.rps);
    assert Swept(cfg, l, now).buckets == l.buckets;
  }

  lemma {:induction false} AskingHolds(cfg: Config, e: seq<Limiter>, j: nat)
    requires cfg.Valid() && !Whole(NanosPerToken(cfg)) && IsRun(cfg, true, AskingClient(cfg), e)
    requires (cfg.idleTtl * NANOS > 1.0 || EmptyNanos(cfg) == 0) && j <= EmptyNanos(cfg) + 1
    ensures FilledSince(cfg, e[cfg.burst + j], if j == 0 then 0.0 else Nanosecond(cfg, j - 1))
    ensures Found(cfg, AskingClient(cfg), e, cfg.burst + j, "client") == Scaled(Nanosecond(cfg, j), cfg.rps)
  {
    var reqs := AskingClient(cfg);
    var before := if j == 0 then 0.0 else Nanosecond(cfg, j - 1);
    if j == 0 {
      AskingTimes(cfg);
      FirstVisit(cfg, true, reqs, e, cfg.burst);
      ScaledAdds(0.0, 0.0, cfg.rps);
    } else {
      AskingHolds(cfg, e, j - 1);
      assert Linked(cfg, true, reqs, e, cfg.burst + j - 1);
      var earlier := if j == 1 then 0.0 else Nanosecond(cfg, j - 2);
      AskingStep(cfg, e[cfg.burst + j - 1], earlier, before);
    }
    AskingStep(cfg, e[cfg.burst + j], before, Nanosecond(cfg, j));
  }

  /** A part of a nanosecond is reported as no wait at all. */
  lemma RestIsCutOff(cfg: Config)
    requires cfg.Valid()
    ensures Truncated(Needed(cfg, Scaled(EmptyRetry(cfg), cfg.rps))) == 0.0
  {
    var n, q := EmptyNanos(cfg), NanosPerToken(cfg);
    var tokens := Scaled(EmptyRetry(cfg), cfg.rps);
    NeededNanos(cfg, tokens);
    ScaledAdds(1.0 - tokens, tokens, q);
    RefillNanos(cfg, EmptyRetry(cfg));
    assert Needed(cfg, tokens) * NANOS == q - n as real;
  }

  /**
   When a token takes a fraction of a nanosecond too, a client that keeps asking, so that its bucket
   is never idle, is finally told to come back at once and then turned away.
   */
  lemma AskingClientDenied(cfg: Config, e: seq<Limiter>)
    requires cfg.Valid() && !Whole(NanosPerToken(cfg)) && (cfg.idleTtl * NANOS > 1.0 || EmptyNanos(cfg) == 0)
    requires IsRun(cfg, true, AskingClient(cfg), e)
    ensures var k := cfg.burst + EmptyNanos(cfg);
      && Obeyed(cfg, AskingClient(cfg), e, k, k + 1)
      && AnswerAt(cfg, true, AskingClient(cfg), e, k) == Denied(0.0)
      && AnswerAt(cfg, true, AskingClient(cfg), e, k + 1).Denied?
  {
    AskingHolds(cfg, e, EmptyNanos(cfg));
    AskingHolds(cfg, e, EmptyNanos(cfg) + 1);
    ShortOfToken(cfg, EmptyRetry(cfg));
    RestIsCutOff(cfg);
  }

  // ---- buckets that never outlive the instant

  lemma NanosApart(a: real, b: real)
    requires Whole(a * NANOS) && Whole(b * NANOS) && a < b
    ensures (b - a) * NANOS >= 1.0
  {
    assert (a * NANOS).Floor < (b * NANOS).Floor;
  }

  /** Every bucket was touched at this instant, and holds whole tokens. */
  ghost predicate OfInstant(l: Limiter, at: real) {
    && l.lastSweep == Some(at)
    && forall key :: key in l.buckets ==>
         l.buckets[key].lastRefill == l.buckets[key].lastAccess == at && Whole(l.buckets[key].tokens)
  }

  lemma NextOfInstant(cfg: Config, l: Limiter, key: string, before: real, now: real)
    requires cfg.Valid() && cfg.idleTtl * NANOS <= 1.0 && before <= now
    requires Whole(before * NANOS) && Whole(now * NANOS)
    requires l == FRESH || OfInstant(l, before)
    ensures OfInstant(Next(cfg, true, l, key, now), now)
    ensures before < now ==> Swept(cfg, l, now).buckets == map[]
  {
    var t := Tokens(cfg, Swept(cfg, l, now), key, now);
    if before < now {
      NanosApart(before, now);
    }
    WholeNumber(cfg.burst, cfg.burst as real);
    assert Whole(t);
    WholeNumber(1, 1.0);
    WholeAdds(t, 1.0);
  }

  lemma {:induction false} RunOfInstant(cfg: Config, reqs: seq<Request>, e: seq<Limiter>, k: nat)
    requires Monotone(reqs) && NanoTimes(reqs) && IsRun(cfg, true, reqs, e) && cfg.idleTtl * NANOS <= 1.0
    requires k < |reqs|
    ensures OfInstant(e[k + 1], reqs[k].at)
  {
    assert Linked(cfg, true, reqs, e, k);
    if k > 0 {
      RunOfInstant(cfg, reqs, e, k - 1);
      NextOfInstant(cfg, e[k], reqs[k].key, reqs[k - 1].at, reqs[k].at);
    } else {
      NextOfInstant(cfg, e[k], reqs[k].key, reqs[k].at, reqs[k].at);
    }
  }

  /** A client that stays away leaves its bucket as it was, if that is not dropped. */
  lemma {:induction false} Untouched(cfg: Config, reqs: seq<Request>, e: seq<Limiter>, k: nat, m: nat)
    requires IsRun(cfg, true, reqs, e) && k < m <= |reqs| && forall n :: k < n < m ==> reqs[n].key != reqs[k].key
    ensures reqs[k].key in e[m].buckets ==> e[m].buckets[reqs[k].key].lastAccess == reqs[k].at
    decreases m
  {
    assert Linked(cfg, true, reqs, e, m - 1);
    if m - 1 > k {
      Untouched(cfg, reqs, e, k, m - 1);
    }
  }

  lemma WholeBelowOne(t: real)
    requires Whole(t) && 0.0 <= t < 1.0
    ensures t == 0.0
  {
  }

  /** A denied request puts back what it found. */
  lemma DeniedKeeps(cfg: Config, l: Limiter, key: string, now: real)
    requires cfg.Valid() && Sound(cfg, l, now) && Answer(cfg, true, l, key, now).Denied?
    ensures var t := Tokens(cfg, Swept(cfg, l, now), key, now);
      0.0 <= t < 1.0 && key in Next(cfg, true, l, key, now).buckets && Next(cfg, true, l, key, now).buckets[key].tokens == t
  {
    SweptHolds(cfg, l, key, now);
    TokensInRange(cfg, Swept(cfg, l, now), key, now);
  }

  /** A denied client of such a limiter has nothing at all. */
  lemma DeniedIsEmpty(cfg: Config, reqs: seq<Request>, e: seq<Limiter>, k: nat)
    requires Monotone(reqs) && NanoTimes(reqs) && IsRun(cfg, true, reqs, e) && cfg.idleTtl * NANOS <= 1.0
    requires k < |reqs| && AnswerAt(cfg, true, reqs, e, k).Denied?
    ensures Found(cfg, reqs, e, k, reqs[k].key) == 0.0
  {
    RunOfInstant(cfg, reqs, e, k);
    assert Linked(cfg, true, reqs, e, k);
    RunSound(cfg, true, reqs, e, k);
    DeniedKeeps(cfg, e[k], reqs[k].key, reqs[k].at);
    WholeBelowOne(Found(cfg, reqs, e, k, reqs[k].key));
  }

  /** Where buckets do not outlive the instant, whoever is told to wait at all finds a full bucket. */
  lemma ShortLivedIsHonest(cfg: Config, reqs: seq<Request>, e: seq<Limiter>, k: nat, m: nat)
    requires Monotone(reqs) && NanoTimes(reqs) && IsRun(cfg, true, reqs, e)
    requires cfg.idleTtl * NANOS <= 1.0 <= NanosPerToken(cfg) && Obeyed(cfg, reqs, e, k, m)
    ensures AnswerAt(cfg, true, reqs, e, m) == Admitted
  {
    DeniedIsEmpty(cfg, reqs, e, k);
    assert AnswerAt(cfg, true, reqs, e, k) == Denied(EmptyRetry(cfg));
    assert EmptyNanos(cfg) >= 1;
    assert reqs[k].at < reqs[m].at;
    Untouched(cfg, reqs, e, k, m);
    RunOfInstant(cfg, reqs, e, m - 1);
    NextOfInstant(cfg, e[m], reqs[m].key, reqs[m - 1].at, reqs[m].at);
  }

  /**
   The reported wait is enough for everyone exactly when one token takes a whole number of
   nanoseconds, or takes one at least while no bucket lasts for longer than one.
   */
  lemma RetryHonestIff(cfg: Config)
    requires cfg.Valid()
    ensures RetryHonest(cfg) <==>
      Whole(NanosPerToken(cfg)) || cfg.idleTtl * NANOS <= 1.0 <= NanosPerToken(cfg)
  {
    if Whole(NanosPerToken(cfg)) || cfg.idleTtl * NANOS <= 1.0 <= NanosPerToken(cfg) {
      forall reqs, e, k: nat, m: nat |
        Monotone(reqs) && NanoTimes(reqs) && IsRun(cfg, true, reqs, e) && Obeyed(cfg, reqs, e, k, m)
        ensures AnswerAt(cfg, true, reqs, e, m) == Admitted
      {
        if Whole(NanosPerToken(cfg)) {
          WholeIsHonest(cfg, reqs, e, k, m);
        } else {
          ShortLivedIsHonest(cfg, reqs, e, k, m);
        }
      }
    } else {
      var reqs := AskingClient(cfg);
      var e := RunExists(cfg, true, reqs);
      AskingTimes(cfg);
      AskingClientDenied(cfg, e);
    }
  }

  /** Waiting exactly the reported time is not always enough: three tokens a second, one at a time. */
  lemma RetryCanFallShort(reqs: seq<Request>, e: seq<Limiter>)
    requires reqs == [Request("client", 0.0), Request("client", 0.0), Request("client", 0.333333333)]
    requires IsRun(Config(3.0, 1, 600.0, 60.0), true, reqs, e)
    ensures var cfg := Config(3.0, 1, 600.0, 60.0);
      && AnswerAt(cfg, true, reqs, e, 1) == Denied(0.333333333)
      && AnswerAt(cfg, true, reqs, e, 2).Denied?
  {
    var cfg := Config(3.0, 1, 600.0, 60.0);
    assert Linked(cfg, true, reqs, e, 0) && Linked(cfg, true, reqs, e, 1);
    assert e[1] == Limiter(map["client" := Bucket(0.0, 0.0, 0.0)], Some(0.0));
    assert e[2] == Limiter(map["client" := Bucket(0.0, 0.0, 0.0)], Some(0.0));
  }
}
