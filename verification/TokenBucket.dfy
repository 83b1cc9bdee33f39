/** `tokenBucketLimiter`: one bucket of tokens a key, refilled with time up to a burst. Times and
    tokens are reals; time 0 is Go's zero time. */
module TokenBucket {
  import opened GoText

  type Time = real

  const DEFAULT_RATE: real := 1.0
  const DEFAULT_BURST: int := 3

  datatype Limits = Limits(rate: real, burst: real)

  /** `newTokenBucketLimiter` replaces what is not positive by a default. */
  function NewLimits(rate: real, burst: int): (l: Limits)
    ensures Sensible(l)
    ensures (rate > 0.0 ==> l.rate == rate) && (burst > 0 ==> l.burst == burst as real)
    ensures (rate <= 0.0 ==> l.rate == 1.0) && (burst <= 0 ==> l.burst == 3.0)
  {
    Limits(if rate <= 0.0 then DEFAULT_RATE else rate, (if burst <= 0 then DEFAULT_BURST else burst) as real)
  }

  predicate Sensible(l: Limits) { l.rate > 0.0 && l.burst >= 1.0 }

  datatype Bucket = Bucket(tokens: real, last: Time)

  const NoBucket := Bucket(0.0, 0.0)

  function Min(a: real, b: real): real { if a < b then a else b }

  /** How far the clock moved forward. */
  function Forward(from: Time, to: Time): real { if to < from then 0.0 else to - from }

  /** What that time adds to a bucket. */
  function Gain(l: Limits, from: Time, to: Time): real { Forward(from, to) * l.rate }

  function Refilled(l: Limits, b: Bucket, now: Time): real {
    Min(l.burst, b.tokens + Gain(l, b.last, now))
  }

  /** One call on one key: the bucket it leaves, and whether it is allowed. */
  function Decide(l: Limits, b: Bucket, now: Time): (Bucket, bool) {
    if b.last == 0.0 then (Bucket(l.burst - 1.0, now), true)
    else if Refilled(l, b, now) < 1.0 then (Bucket(Refilled(l, b, now), now), false)
    else (Bucket(Refilled(l, b, now) - 1.0, now), true)
  }

  function BucketOf(state: map<string, Bucket>, key: string): Bucket {
    if key in state then state[key] else NoBucket
  }

  class Limiter {
    const limits: Limits
    var state: map<string, Bucket>

    constructor (rate: real, burst: int)
      ensures limits == NewLimits(rate, burst) && state == map[]
    {
      var r, b := rate, burst;
      if r <= 0.0 { r := DEFAULT_RATE; }
      if b <= 0 { b := DEFAULT_BURST; }
      limits, state := Limits(r, b as real), map[];
    }

    /** `clock` is what `time.Now` would give. */
    method Allow(key: string, now: Time, clock: Time) returns (allowed: bool)
      modifies this
      ensures (state, allowed) == AfterCall(limits, old(state), Call(key, now, clock))
    {
      var name := TrimSpace(key);
      if name == "" { return false; }
      var at := now;
      if at == 0.0 { at := clock; }
      var b := BucketOf(state, name);
      if b.last == 0.0 {
        state := state[name := Bucket(limits.burst - 1.0, at)];
        return true;
      }
      var elapsed := at - b.last;
      if elapsed < 0.0 { elapsed := 0.0; }
      b := Bucket(Min(limits.burst, b.tokens + elapsed * limits.rate), at);
      if b.tokens < 1.0 {
        state := state[name := b];
        return false;
      }
      b := b.(tokens := b.tokens - 1.0);
      state := state[name := b];
      return true;
    }
  }

  // ----- The history of one key -----

  /** The clock never reads the zero time. */
  predicate Real(times: seq<Time>) { forall k :: 0 <= k < |times| ==> times[k] != 0.0 }

  function BucketAfter(l: Limits, times: seq<Time>): Bucket {
    if times == [] then NoBucket
    else Decide(l, BucketAfter(l, times[..|times| - 1]), times[|times| - 1]).0
  }

  /** Whether call `j` is allowed. */
  predicate Allowed(l: Limits, times: seq<Time>, j: nat)
    requires j < |times|
  {
    Decide(l, BucketAfter(l, times[..j]), times[j]).1
  }

  /** How many of the calls `i..j-1` are allowed. */
  function Admitted(l: Limits, times: seq<Time>, i: nat, j: nat): nat
    requires i <= j <= |times|
  {
    if i == j then 0 else Admitted(l, times, i, j - 1) + if Allowed(l, times, j - 1) then 1 else 0
  }

  /** How far the clock moved forward from call `i` to call `j`, backward moves not counted. */
  function Elapsed(times: seq<Time>, i: nat, j: nat): (e: real)
    requires i <= j < |times|
    ensures e >= 0.0
  {
    if i == j then 0.0 else Elapsed(times, i, j - 1) + Forward(times[j - 1], times[j])
  }

  /** What the calls `i..j` may take: a burst, and what the time between them refills. */
  function Budget(l: Limits, times: seq<Time>, i: nat, j: nat): real
    requires i <= j < |times|
  {
    if i == j then l.burst else Budget(l, times, i, j - 1) + Gain(l, times[j - 1], times[j])
  }

  /** The tokens call `j` finds. */
  function Available(l: Limits, times: seq<Time>, j: nat): real
    requires j < |times|
  {
    if j == 0 then l.burst else Refilled(l, BucketAfter(l, times[..j]), times[j])
  }

  lemma LastIsSet(l: Limits, times: seq<Time>)
    requires times != []
    ensures BucketAfter(l, times).last == times[|times| - 1]
  {
  }

  lemma AllowedIffAvailable(l: Limits, times: seq<Time>, j: nat)
    requires Sensible(l) && Real(times) && j < |times|
    ensures Allowed(l, times, j) <==> Available(l, times, j) >= 1.0
    ensures BucketAfter(l, times[..j + 1]).tokens == Available(l, times, j) - if Allowed(l, times, j) then 1.0 else 0.0
  {
    assert times[..j + 1][..j] == times[..j];
    if j > 0 { LastIsSet(l, times[..j]); }
  }

  lemma NextAvailable(l: Limits, times: seq<Time>, j: nat)
    requires Sensible(l) && Real(times) && j + 1 < |times|
    ensures Available(l, times, j + 1) ==
            Min(l.burst, Available(l, times, j) - (if Allowed(l, times, j) then 1.0 else 0.0) + Gain(l, times[j], times[j + 1]))
  {
    AllowedIffAvailable(l, times, j);
    LastIsSet(l, times[..j + 1]);
  }

  lemma {:induction false} BudgetIsLinear(l: Limits, times: seq<Time>, i: nat, j: nat)
    requires i <= j < |times|
    ensures Budget(l, times, i, j) == l.burst + l.rate * Elapsed(times, i, j)
  {
    if i < j {
      BudgetIsLinear(l, times, i, j - 1);
      var e, f := Elapsed(times, i, j - 1), Forward(times[j - 1], times[j]);
      assert l.rate * (e + f) == l.rate * e + f * l.rate;
    }
  }

  /** Every earlier start bounds the tokens left. */
  lemma {:induction false} WithinBudget(l: Limits, times: seq<Time>, i: nat, j: nat)
    requires Sensible(l) && Real(times) && i <= j < |times|
    ensures Available(l, times, j) <= Budget(l, times, i, j) - Admitted(l, times, i, j) as real
  {
    if i < j {
      WithinBudget(l, times, i, j - 1);
      NextAvailable(l, times, j - 1);
    }
  }

  /** And for some start the bound is met. */
  lemma {:induction false} BudgetSpent(l: Limits, times: seq<Time>, j: nat) returns (i: nat)
    requires Sensible(l) && Real(times) && j < |times|
    ensures i <= j && Available(l, times, j) == Budget(l, times, i, j) - Admitted(l, times, i, j) as real
  {
    if j == 0 { return 0; }
    NextAvailable(l, times, j - 1);
    if Available(l, times, j) == l.burst { return j; }
    i := BudgetSpent(l, times, j - 1);
  }

  // ----- The main results -----

  /** Allowing call `j` keeps the calls from `i` on within what they may take. */
  predicate Fits(l: Limits, times: seq<Time>, i: nat, j: nat)
    requires i <= j < |times|
  {
    Admitted(l, times, i, j) as real + 1.0 <= Budget(l, times, i, j)
  }

  ghost predicate LastFits(l: Limits, times: seq<Time>)
    requires times != []
  {
    var j := |times| - 1;
    forall i: nat :: i <= j ==> Fits(l, times, i, j)
  }

  /** A call is allowed exactly when that breaks no window ending with it: the limiter admits as much
      as the bound permits. */
  lemma ExactAdmission(l: Limits, times: seq<Time>, j: nat)
    requires Sensible(l) && Real(times) && j < |times|
    ensures Allowed(l, times, j) <==> forall i: nat :: i <= j ==> Fits(l, times, i, j)
  {
    AllowedIffAvailable(l, times, j);
    forall i: nat | i <= j ensures Available(l, times, j) >= 1.0 ==> Fits(l, times, i, j) {
      WithinBudget(l, times, i, j);
    }
    var i := BudgetSpent(l, times, j);
    assert Fits(l, times, i, j) ==> Available(l, times, j) >= 1.0;
  }

  /** Any window of calls `i..j` admits at most a burst plus what its time refills. */
  lemma {:induction false} WindowBound(l: Limits, times: seq<Time>, i: nat, j: nat)
    requires Sensible(l) && Real(times) && i <= j < |times|
    ensures Admitted(l, times, i, j + 1) as real <= Budget(l, times, i, j)
  {
    ExactAdmission(l, times, j);
    if Allowed(l, times, j) {
      assert Fits(l, times, i, j);
    } else if i < j {
      WindowBound(l, times, i, j - 1);
      assert Gain(l, times[j - 1], times[j]) >= 0.0;
    }
  }

  /** When the clock never goes back, that is a burst plus the rate times the length of the window. */
  lemma {:induction false} SteadyBudget(l: Limits, times: seq<Time>, i: nat, j: nat)
    requires i <= j < |times| && forall a, b :: 0 <= a <= b < |times| ==> times[a] <= times[b]
    ensures Elapsed(times, i, j) == times[j] - times[i]
    ensures Budget(l, times, i, j) == l.burst + l.rate * (times[j] - times[i])
  {
    if i < j { SteadyBudget(l, times, i, j - 1); }
    BudgetIsLinear(l, times, i, j);
  }

  lemma {:induction false} TokensInRange(l: Limits, times: seq<Time>)
    requires Sensible(l) && Real(times) && times != []
    ensures 0.0 <= BucketAfter(l, times).tokens <= l.burst
  {
    var j := |times| - 1;
    if j > 0 {
      TokensInRange(l, times[..j]);
      assert Gain(l, times[j - 1], times[j]) >= 0.0;
    }
    AllowedIffAvailable(l, times, j);
    assert times[..j + 1] == times;
  }

  // ----- All keys together -----

  datatype Call = Call(key: string, now: Time, clock: Time)

  function At(c: Call): Time { if c.now == 0.0 then c.clock else c.now }

  function AfterCall(l: Limits, state: map<string, Bucket>, c: Call): (map<string, Bucket>, bool) {
    var key := TrimSpace(c.key);
    if key == "" then (state, false)
    else
      var (b, allowed) := Decide(l, BucketOf(state, key), At(c));
      (state[key := b], allowed)
  }

  /** A call without a time is one at the clock's reading; a time that is given decides alone. */
  lemma ZeroMeansClock(l: Limits, state: map<string, Bucket>, c: Call)
    ensures c.now == 0.0 ==> AfterCall(l, state, c) == AfterCall(l, state, c.(now := c.clock))
    ensures c.now != 0.0 ==> forall clock :: AfterCall(l, state, c) == AfterCall(l, state, c.(clock := clock))
  {
  }

  function StateAfter(l: Limits, calls: seq<Call>): map<string, Bucket> {
    if calls == [] then map[] else AfterCall(l, StateAfter(l, calls[..|calls| - 1]), calls[|calls| - 1]).0
  }

  /** What the limiter answers to call `n` of a history over any keys. */
  predicate Answer(l: Limits, calls: seq<Call>, n: nat)
    requires n < |calls|
  {
    AfterCall(l, StateAfter(l, calls[..n]), calls[n]).1
  }

  /** The times of the calls on one key. */
  function TimesOf(calls: seq<Call>, key: string): seq<Time> {
    if calls == [] then []
    else
      var last := calls[|calls| - 1];
      TimesOf(calls[..|calls| - 1], key) + if TrimSpace(last.key) == key then [At(last)] else []
  }

  predicate RealClock(calls: seq<Call>) { forall n :: 0 <= n < |calls| ==> At(calls[n]) != 0.0 }

  /** A key's bucket depends on the calls on that key alone. */
  lemma {:induction false} KeysApart(l: Limits, calls: seq<Call>, key: string)
    requires key != ""
    ensures BucketOf(StateAfter(l, calls), key) == BucketAfter(l, TimesOf(calls, key))
  {
    if calls != [] {
      var before, last := calls[..|calls| - 1], calls[|calls| - 1];
      KeysApart(l, before, key);
      if TrimSpace(last.key) == key {
        assert TimesOf(calls, key)[..|TimesOf(before, key)|] == TimesOf(before, key);
      } else {
        assert TimesOf(calls, key) == TimesOf(before, key);
      }
    }
  }

  lemma {:induction false} TimesReal(calls: seq<Call>, key: string)
    requires RealClock(calls)
    ensures Real(TimesOf(calls, key))
  {
    if calls != [] { TimesReal(calls[..|calls| - 1], key); }
  }

  /** In a history over any keys, a call is allowed exactly when its trimmed key is not empty and no
      window of the calls on that key is overdrawn by it. */
  lemma AnswerIsExact(l: Limits, calls: seq<Call>, n: nat)
    requires Sensible(l) && n < |calls| && RealClock(calls[..n + 1])
    ensures var key := TrimSpace(calls[n].key);
            var times := TimesOf(calls[..n + 1], key);
            && |times| > 0
            && (Answer(l, calls, n) <==> key != "" && LastFits(l, times))
  {
    var key := TrimSpace(calls[n].key);
    var upTo := calls[..n + 1];
    var times := TimesOf(upTo, key);
    var j := |times| - 1;
    assert upTo[..n] == calls[..n];
    if key != "" {
      KeysApart(l, calls[..n], key);
      TimesReal(upTo, key);
      assert times[..j] == TimesOf(calls[..n], key) && times[j] == At(calls[n]);
      assert Answer(l, calls, n) == Allowed(l, times, j);
      ExactAdmission(l, times, j);
    }
  }
}
