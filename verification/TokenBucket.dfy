/** The REST client's rate limiter (internal/collector/bybit/ratelimit.go). Times are in
    seconds, read from a clock that never goes back. */
module RateLimit {
  import opened Numeric

  datatype Bucket = Bucket(rate: real, burst: nat, tokens: real, lastRefill: real)

  /** The tokens that flow in over a time. */
  function Inflow(rate: real, elapsed: real): real {
    elapsed * rate
  }

  lemma InflowIs(rate: real, elapsed: real)
    ensures Inflow(rate, elapsed) == rate * elapsed
  {
  }

  function Refilled(b: Bucket, now: real): Bucket {
    b.(tokens := MinReal(b.burst as real, b.tokens + Inflow(b.rate, now - b.lastRefill)), lastRefill := now)
  }

  predicate Grants(b: Bucket, now: real) {
    Refilled(b, now).tokens >= 1.0
  }

  function Taken(b: Bucket, now: real): Bucket {
    var r := Refilled(b, now);
    if r.tokens >= 1.0 then r.(tokens := r.tokens - 1.0) else r
  }

  /** A call at `now`: the tokens that flowed in since the last refill at the bucket's rate are
      added, up to the burst; it is granted if a token is there, which it then takes. */
  ghost predicate Takes(b: Bucket, now: real, granted: bool, after: Bucket) {
    var flowed := b.tokens + b.rate * (now - b.lastRefill);
    var available := if flowed <= b.burst as real then flowed else b.burst as real;
    && (granted <==> available >= 1.0)
    && after == b.(tokens := if granted then available - 1.0 else available, lastRefill := now)
  }

  lemma TakenMeans(b: Bucket, now: real)
    ensures Takes(b, now, Grants(b, now), Taken(b, now))
  {
    InflowIs(b.rate, now - b.lastRefill);
    hide Inflow;
  }

  function AfterTakes(b: Bucket, times: seq<real>): Bucket {
    if times == [] then b else Taken(AfterTakes(b, times[..|times| - 1]), times[|times| - 1])
  }

  class TokenBucket {
    const rate: real
    const burst: nat
    var tokens: real
    var lastRefill: real

    function Value(): Bucket
      reads this
    {
      Bucket(rate, burst, tokens, lastRefill)
    }

    constructor (rate: real, burst: nat, now: real)
      ensures Value() == Bucket(rate, burst, burst as real, now)
    {
      this.rate := rate;
      this.burst := burst;
      tokens := burst as real;
      lastRefill := now;
    }

    method Take(now: real) returns (granted: bool)
      modifies this
      ensures granted == Grants(old(Value()), now)
      ensures Value() == Taken(old(Value()), now)
      ensures Takes(old(Value()), now, granted, Value())
    {
      TakenMeans(Value(), now);
      hide Inflow, MinReal;
      var elapsed := now - lastRefill;
      tokens := MinReal(burst as real, tokens + Inflow(rate, elapsed));
      lastRefill := now;
      if tokens >= 1.0 {
        tokens := tokens - 1.0;
        return true;
      }
      return false;
    }
  }

  /** A full or part-full bucket with a non-negative rate. */
  predicate Sound(b: Bucket) {
    b.rate >= 0.0 && 0.0 <= b.tokens <= b.burst as real
  }

  /** The clock reads in order, none before the last refill. */
  ghost predicate Forward(b: Bucket, times: seq<real>) {
    && (forall j, k :: 0 <= j < k < |times| ==> times[j] <= times[k])
    && (forall j :: 0 <= j < |times| ==> b.lastRefill <= times[j])
  }

  /** Grants among calls [from, upTo) of a sequence. */
  function Granted(b: Bucket, times: seq<real>, from: nat, upTo: nat): nat
    requires from <= upTo <= |times|
    decreases upTo
  {
    if from == upTo then 0
    else
      Granted(b, times, from, upTo - 1) + if Grants(AfterTakes(b, times[..upTo - 1]), times[upTo - 1]) then 1 else 0
  }

  lemma InflowAdds(rate: real, a: real, b: real)
    ensures Inflow(rate, a + b) == Inflow(rate, a) + Inflow(rate, b)
    ensures Inflow(rate, 0.0) == 0.0
  {
  }

  lemma TakeIsSound(b: Bucket, now: real)
    requires Sound(b) && b.lastRefill <= now
    ensures Sound(Taken(b, now)) && Taken(b, now).lastRefill == now
    ensures Taken(b, now).rate == b.rate && Taken(b, now).burst == b.burst
    ensures Taken(b, now).tokens + (if Grants(b, now) then 1.0 else 0.0)
            <= b.tokens + Inflow(b.rate, now - b.lastRefill)
  {
    MulNonneg(now - b.lastRefill, b.rate);
  }

  /** Tokens stay within [0, burst] over every sequence of calls. */
  lemma {:induction false} TokensStayInRange(b: Bucket, times: seq<real>)
    requires Sound(b) && Forward(b, times)
    ensures var after := AfterTakes(b, times);
            && Sound(after) && after.rate == b.rate && after.burst == b.burst
            && after.lastRefill == if times == [] then b.lastRefill else times[|times| - 1]
  {
    hide Taken, Sound;
    if times != [] {
      var n := |times| - 1;
      TokensStayInRange(b, times[..n]);
      TakeIsSound(AfterTakes(b, times[..n]), times[n]);
    }
  }

  /** Whatever the wait, one call finds at most a full bucket. */
  lemma FirstTakeFunded(b: Bucket, now: real)
    ensures Taken(b, now).tokens + (if Grants(b, now) then 1.0 else 0.0) <= b.burst as real
  {
  }

  lemma {:induction false} WindowIsFunded(b: Bucket, times: seq<real>, from: nat, upTo: nat)
    requires Sound(b) && Forward(b, times) && from < upTo <= |times|
    ensures AfterTakes(b, times[..upTo]).tokens + Granted(b, times, from, upTo) as real
            <= b.burst as real + Inflow(b.rate, times[upTo - 1] - times[from])
    decreases upTo
  {
    hide Taken, Sound, Grants, Inflow;
    var before := AfterTakes(b, times[..upTo - 1]);
    assert times[..upTo][..upTo - 1] == times[..upTo - 1];
    TokensStayInRange(b, times[..upTo - 1]);
    if from == upTo - 1 {
      FirstTakeFunded(before, times[from]);
      assert Granted(b, times, from, from) == 0;
      InflowAdds(b.rate, 0.0, 0.0);
    } else {
      WindowIsFunded(b, times, from, upTo - 1);
      TakeIsSound(before, times[upTo - 1]);
      InflowAdds(b.rate, times[upTo - 2] - times[from], times[upTo - 1] - times[upTo - 2]);
    }
  }

  /** The calls of [from, upTo) that are granted. */
  function GrantedCalls(b: Bucket, times: seq<real>, from: nat, upTo: nat): set<nat>
    requires upTo <= |times|
  {
    set k: nat | from <= k < upTo && Grants(AfterTakes(b, times[..k]), times[k])
  }

  lemma {:induction false} GrantedCounts(b: Bucket, times: seq<real>, from: nat, upTo: nat)
    requires from <= upTo <= |times|
    ensures |GrantedCalls(b, times, from, upTo)| == Granted(b, times, from, upTo)
    decreases upTo
  {
    hide Grants, AfterTakes;
    if from == upTo {
      assert GrantedCalls(b, times, from, upTo) == {};
    } else {
      GrantedCounts(b, times, from, upTo - 1);
      var before := GrantedCalls(b, times, from, upTo - 1);
      assert GrantedCalls(b, times, from, upTo) ==
             if Grants(AfterTakes(b, times[..upTo - 1]), times[upTo - 1]) then before + {upTo - 1} else before;
    }
  }

  /** The tokens left after call `upTo - 1`, and the grants since call `from`, never exceed the
      tokens there were before it and what has flowed in since. */
  lemma GrantsAreFunded(b: Bucket, times: seq<real>, from: nat, upTo: nat)
    requires Sound(b) && Forward(b, times) && from < upTo <= |times|
    ensures AfterTakes(b, times[..upTo]).tokens + |GrantedCalls(b, times, from, upTo)| as real
            <= b.burst as real + b.rate * (times[upTo - 1] - times[from])
  {
    hide Grants, AfterTakes, GrantedCalls, Granted, Inflow, Sound, Forward;
    GrantedCounts(b, times, from, upTo);
    WindowIsFunded(b, times, from, upTo);
    var elapsed := times[upTo - 1] - times[from];
    InflowIs(b.rate, elapsed);
    assert Inflow(b.rate, elapsed) == b.rate * (times[upTo - 1] - times[from]);
  }

  /** For every sequence of calls and every window of it, the granted calls number at most the
      burst plus the rate times the length of the window. */
  lemma GrantsWithinRate(b: Bucket, times: seq<real>, from: nat, upTo: nat)
    requires Sound(b) && Forward(b, times) && from < upTo <= |times|
    ensures |GrantedCalls(b, times, from, upTo)| as real
            <= b.burst as real + b.rate * (times[upTo - 1] - times[from])
  {
    hide Grants, AfterTakes, GrantedCalls;
    GrantsAreFunded(b, times, from, upTo);
    TokensStayInRange(b, times[..upTo]);
  }

  lemma InflowReachesOne(rate: real, enough: real, elapsed: real)
    requires rate > 0.0 && enough * rate == 1.0 && elapsed >= enough
    ensures Inflow(rate, elapsed) >= 1.0
  {
    MulStrict(rate, enough, elapsed);
  }

  /** And the limiter does not starve: after a wait of 1/rate a bucket with any burst grants. */
  lemma WaitingGrants(b: Bucket, now: real)
    requires Sound(b) && b.burst >= 1 && b.rate > 0.0 && now - b.lastRefill >= 1.0 / b.rate
    ensures Grants(b, now)
  {
    InflowReachesOne(b.rate, 1.0 / b.rate, now - b.lastRefill);
    hide Inflow;
  }
}
