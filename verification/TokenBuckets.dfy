/** The three token buckets: the QoS bandwidth bucket, the integer account limiter and the per-service request limiter.
    Times are seconds of a monotone clock, handed to each call. */
module TokenBuckets {
  import opened Options

  function Min(a: real, b: real): real { if a < b then a else b }

  /** Tokens earned between two times. */
  function Gain(rate: real, from: real, to: real): real { (to - from) * rate }

  lemma GainAdds(rate: real, a: real, b: real, c: real)
    ensures Gain(rate, a, b) + Gain(rate, b, c) == Gain(rate, a, c)
  {
  }

  lemma GainGrows(rate: real, a: real, b: real, c: real)
    requires rate >= 0.0 && a <= b <= c
    ensures 0.0 <= Gain(rate, b, c) <= Gain(rate, a, c)
  {
    assert (c - a) * rate == (c - b) * rate + (b - a) * rate;
  }

  // ---------- the real-valued bucket ----------

  datatype Bucket = Bucket(capacity: real, rate: real, tokens: real, last: real)

  ghost predicate Ok(b: Bucket) {
    b.capacity >= 0.0 && b.rate >= 0.0 && b.tokens >= 0.0
  }

  function Refill(b: Bucket, now: real): Bucket {
    b.(tokens := Min(b.capacity, b.tokens + Gain(b.rate, b.last, now)), last := now)
  }

  function Take(b: Bucket, now: real, amount: real): (Bucket, bool) {
    var r := Refill(b, now);
    if r.tokens >= amount then (r.(tokens := r.tokens - amount), true) else (r, false)
  }

  /** A call at some time for some amount; the refiller's own calls are those for nothing. */
  datatype Ask = Ask(time: real, amount: real, refiller: bool)

  /** Calls in time order, those of the refiller for zero. A call for a negative amount is paid and gives tokens
      back, up to the capacity at the next call. */
  ghost predicate Timed(from: real, asks: seq<Ask>)
    decreases |asks|
  {
    asks != [] ==>
      && from <= asks[0].time && (asks[0].refiller ==> asks[0].amount == 0.0)
      && Timed(asks[0].time, asks[1..])
  }

  function After(b: Bucket, asks: seq<Ask>): Bucket
    decreases |asks|
  {
    if asks == [] then b else After(Take(b, asks[0].time, asks[0].amount).0, asks[1..])
  }

  /** The amounts admitted in a run, net of those given back. */
  function Admitted(b: Bucket, asks: seq<Ask>): real
    decreases |asks|
  {
    if asks == [] then 0.0
    else
      var (next, ok) := Take(b, asks[0].time, asks[0].amount);
      (if ok then asks[0].amount else 0.0) + Admitted(next, asks[1..])
  }

  lemma RefillOk(b: Bucket, now: real)
    requires Ok(b) && b.last <= now
    ensures Ok(Refill(b, now)) && Refill(b, now).last == now
  {
    GainGrows(b.rate, b.last, b.last, now);
  }

  lemma {:induction false} AfterOk(b: Bucket, asks: seq<Ask>)
    requires Ok(b) && Timed(b.last, asks)
    ensures Ok(After(b, asks)) && After(b, asks).rate == b.rate && After(b, asks).capacity == b.capacity
    decreases |asks|
  {
    if asks != [] {
      RefillOk(b, asks[0].time);
      AfterOk(Take(b, asks[0].time, asks[0].amount).0, asks[1..]);
    }
  }

  /** No later than t, all calls. */
  ghost predicate Until(asks: seq<Ask>, t: real) {
    forall i :: 0 <= i < |asks| ==> asks[i].time <= t
  }

  /** From one call on, no more is admitted than was there and was earned since. */
  lemma {:induction false} SpentFrom(b: Bucket, asks: seq<Ask>, t: real)
    requires Ok(b) && asks != [] && Timed(b.last, asks) && Until(asks, t)
    ensures Admitted(b, asks) <= Refill(b, asks[0].time).tokens + Gain(b.rate, asks[0].time, t)
    decreases |asks|
  {
    var u := asks[0].time;
    var (next, ok) := Take(b, u, asks[0].amount);
    RefillOk(b, u);
    if |asks| > 1 {
      var rest := asks[1..];
      assert rest[0] == asks[1];
      SpentFrom(next, rest, t);
      GainAdds(b.rate, u, rest[0].time, t);
    } else {
      GainGrows(b.rate, u, u, t);
    }
  }

  /** Whatever happened before, the tokens admitted in a window are at most the capacity plus what is earned in it. */
  lemma {:induction false} WindowBound(b: Bucket, before: seq<Ask>, window: seq<Ask>, s: real, t: real)
    requires Ok(b) && Timed(b.last, before) && Timed(After(b, before).last, window) && Until(window, t)
    requires s <= t && (window != [] ==> s <= window[0].time)
    ensures Admitted(After(b, before), window) <= b.capacity + Gain(b.rate, s, t)
  {
    AfterOk(b, before);
    var m := After(b, before);
    if window != [] {
      SpentFrom(m, window, t);
      GainGrows(b.rate, s, window[0].time, t);
      assert Refill(m, window[0].time).tokens <= b.capacity;
    } else {
      GainGrows(b.rate, s, s, t);
    }
  }

  /** The bound is reached: a full bucket emptied at once and again after some earning. */
  lemma {:induction false} WindowBoundIsReached(capacity: real, rate: real, s: real, t: real)
    requires capacity >= 0.0 && rate >= 0.0 && s <= t && rate * (t - s) <= capacity
    ensures var b := Bucket(capacity, rate, capacity, s);
            var window := [Ask(s, capacity, false), Ask(t, rate * (t - s), false)];
            Ok(b) && Timed(s, window) && Admitted(b, window) == capacity + rate * (t - s)
  {
    var b := Bucket(capacity, rate, capacity, s);
    var first, second := Ask(s, capacity, false), Ask(t, rate * (t - s), false);
    GainGrows(rate, s, s, t);
    assert Gain(rate, s, s) == 0.0 && Gain(rate, s, t) == rate * (t - s);
    var next := Take(b, s, capacity).0;
    assert next == Bucket(capacity, rate, 0.0, s);
    assert [first, second][1..] == [second] && [second][1..] == [];
    assert Take(next, t, second.amount).1;
    assert Admitted(next, [second]) == second.amount;
  }

  // ---------- what is admitted ----------

  /** Every window that ends with a call of this amount at u keeps to its bound: the one from the start, with what was
      there then, and those from each call on, with a full bucket. */
  ghost predicate Affordable(b: Bucket, asks: seq<Ask>, u: real, amount: real) {
    && amount <= b.capacity
    && amount <= b.tokens + Gain(b.rate, b.last, u) - Admitted(b, asks)
    && forall k :: 0 <= k < |asks| ==> FitsFrom(b, asks, u, amount, k)
  }

  ghost predicate FitsFrom(b: Bucket, asks: seq<Ask>, u: real, amount: real, k: nat)
    requires k < |asks|
  {
    amount <= b.capacity + Gain(b.rate, asks[k].time, u) - Admitted(After(b, asks[..k]), asks[k..])
  }

  /** Later than all calls, or at the same time as the last. */
  predicate NotBefore(asks: seq<Ask>, from: real, u: real) {
    if asks == [] then from <= u else asks[|asks| - 1].time <= u
  }

  lemma {:induction false} FitsFromRest(b: Bucket, asks: seq<Ask>, u: real, amount: real, k: nat)
    requires k + 1 < |asks|
    ensures var next := Take(b, asks[0].time, asks[0].amount).0;
            next.capacity == b.capacity && next.rate == b.rate
            && (FitsFrom(b, asks, u, amount, k + 1) <==> FitsFrom(next, asks[1..], u, amount, k))
  {
    assert asks[..k + 1][1..] == asks[1..][..k] && asks[..k + 1][0] == asks[0];
    assert asks[1..][k..] == asks[k + 1..];
  }

  /** Whether the first window and those from later calls keep to their bounds, seen from after the first call. */
  lemma {:induction false} AffordableRest(b: Bucket, asks: seq<Ask>, u: real, amount: real)
    requires Ok(b) && asks != [] && Timed(b.last, asks)
    ensures var next := Take(b, asks[0].time, asks[0].amount).0;
            Affordable(b, asks, u, amount) <==> Affordable(next, asks[1..], u, amount)
  {
    var next := Take(b, asks[0].time, asks[0].amount).0;
    forall k | 0 <= k < |asks| - 1
      ensures FitsFrom(b, asks, u, amount, k + 1) <==> FitsFrom(next, asks[1..], u, amount, k)
    {
      FitsFromRest(b, asks, u, amount, k);
    }
    FirstWindow(b, asks, u, amount);
    if Affordable(b, asks, u, amount) {
      forall k | 0 <= k < |asks[1..]|
        ensures FitsFrom(next, asks[1..], u, amount, k)
      {
        assert FitsFrom(b, asks, u, amount, k + 1);
      }
    } else if Affordable(next, asks[1..], u, amount) {
      forall k | 0 <= k < |asks|
        ensures FitsFrom(b, asks, u, amount, k)
      {
        if k > 0 {
          assert FitsFrom(next, asks[1..], u, amount, k - 1);
        }
      }
    }
  }

  lemma {:induction false} FirstWindow(b: Bucket, asks: seq<Ask>, u: real, amount: real)
    requires asks != []
    ensures var next := Take(b, asks[0].time, asks[0].amount).0;
            amount <= next.tokens + Gain(next.rate, next.last, u) - Admitted(next, asks[1..])
            <==> amount <= b.tokens + Gain(b.rate, b.last, u) - Admitted(b, asks) && FitsFrom(b, asks, u, amount, 0)
  {
    GainAdds(b.rate, b.last, asks[0].time, u);
    assert asks[..0] == [] && asks[0..] == asks;
  }

  /** Whatever happened before, a call is admitted exactly if no window that ends with it would exceed its bound. */
  lemma {:induction false} AdmittedExactly(b: Bucket, asks: seq<Ask>, u: real, amount: real)
    requires Ok(b) && Timed(b.last, asks) && NotBefore(asks, b.last, u)
    ensures Take(After(b, asks), u, amount).1 <==> Affordable(b, asks, u, amount)
    decreases |asks|
  {
    if asks != [] {
      var next := Take(b, asks[0].time, asks[0].amount).0;
      RefillOk(b, asks[0].time);
      AffordableRest(b, asks, u, amount);
      AdmittedExactly(next, asks[1..], u, amount);
    }
  }

  /** Up to u no refill was cut off at the capacity. */
  ghost predicate NeverFull(b: Bucket, asks: seq<Ask>, u: real)
    decreases |asks|
  {
    if asks == [] then b.tokens + Gain(b.rate, b.last, u) <= b.capacity
    else
      && b.tokens + Gain(b.rate, b.last, asks[0].time) <= b.capacity
      && NeverFull(Take(b, asks[0].time, asks[0].amount).0, asks[1..], u)
  }

  /** Where the bucket was never full, a call is admitted exactly if its amount is at most what was there, plus what was
      earned, less what was admitted since. */
  lemma {:induction false} AdmittedIfNeverFull(b: Bucket, asks: seq<Ask>, u: real, amount: real)
    requires Ok(b) && Timed(b.last, asks) && NotBefore(asks, b.last, u) && NeverFull(b, asks, u)
    ensures Take(After(b, asks), u, amount).1
        <==> amount <= b.tokens + Gain(b.rate, b.last, u) - Admitted(b, asks)
    decreases |asks|
  {
    if asks != [] {
      var next := Take(b, asks[0].time, asks[0].amount).0;
      RefillOk(b, asks[0].time);
      GainAdds(b.rate, b.last, asks[0].time, u);
      AdmittedIfNeverFull(next, asks[1..], u, amount);
    }
  }

  /** A bucket that was full forgets what it earned meanwhile: that account alone, and the capacity, do not decide. */
  lemma {:induction false} FullBucketForgets(capacity: real, rate: real, u: real)
    requires capacity > 0.0 && rate > 0.0 && u > 0.0 && rate * u >= capacity
    ensures var b, asks := Bucket(capacity, rate, capacity, 0.0), [Ask(u, capacity, false)];
            && Ok(b) && Timed(b.last, asks) && !Take(After(b, asks), u, capacity).1
            && capacity <= b.tokens + Gain(rate, b.last, u) - Admitted(b, asks)
  {
    var b, ask := Bucket(capacity, rate, capacity, 0.0), Ask(u, capacity, false);
    assert [ask][1..] == [];
    assert Gain(rate, 0.0, u) == rate * u && Gain(rate, u, u) == 0.0;
    assert Take(b, u, capacity) == (Bucket(capacity, rate, 0.0, u), true);
  }

  // ---------- refused calls ----------

  /** The answers to all calls, in order. */
  function Verdicts(b: Bucket, asks: seq<Ask>): (v: seq<bool>)
    ensures |v| == |asks|
    decreases |asks|
  {
    if asks == [] then []
    else
      var (next, ok) := Take(b, asks[0].time, asks[0].amount);
      [ok] + Verdicts(next, asks[1..])
  }

  lemma {:induction false} VerdictsConcat(b: Bucket, x: seq<Ask>, y: seq<Ask>)
    ensures Verdicts(b, x + y) == Verdicts(b, x) + Verdicts(After(b, x), y)
    decreases |x|
  {
    if x == [] {
      assert x + y == y;
    } else {
      assert (x + y)[1..] == x[1..] + y;
      VerdictsConcat(Take(b, x[0].time, x[0].amount).0, x[1..], y);
    }
  }

  lemma {:induction false} AlikeVerdicts(b: Bucket, d: Bucket, from: real, asks: seq<Ask>)
    requires Alike(b, d, from) && Timed(from, asks)
    ensures Verdicts(b, asks) == Verdicts(d, asks)
    decreases |asks|
  {
    if asks != [] {
      AlikeAfterAsk(b, d, from, asks[0].time, asks[0].amount);
      AlikeVerdicts(Take(b, asks[0].time, asks[0].amount).0, Take(d, asks[0].time, asks[0].amount).0, asks[0].time,
                    asks[1..]);
    }
  }

  /** A refused call is only a refill. */
  lemma RefusalIsRefill(b: Bucket, u: real, amount: real)
    requires Ok(b) && b.last <= u && !Take(b, u, amount).1
    ensures Take(b, u, amount).0 == Refill(b, u) && Alike(Refill(b, u), b, u)
  {
    assert Alike(b, b, b.last);
    TickIsRefill(b, u);
    AlikeAfterTick(b, b, b.last, u);
  }

  lemma {:induction false} TimedPartsOf(from: real, x: seq<Ask>, y: seq<Ask>) returns (end: real)
    requires Timed(from, x + y)
    ensures Timed(from, x) && Timed(end, y) && from <= end && NotBefore(x, from, end)
    ensures end == if x == [] then from else x[|x| - 1].time
    decreases |x|
  {
    if x == [] {
      assert x + y == y;
      end := from;
    } else {
      assert (x + y)[1..] == x[1..] + y;
      end := TimedPartsOf(x[0].time, x[1..], y);
    }
  }

  lemma {:induction false} LastOf(b: Bucket, asks: seq<Ask>)
    ensures After(b, asks).last == if asks == [] then b.last else asks[|asks| - 1].time
    decreases |asks|
  {
    if asks != [] {
      LastOf(Take(b, asks[0].time, asks[0].amount).0, asks[1..]);
    }
  }

  /** In every run, a refused call changes no other answer: without it, all others are the same. */
  lemma {:induction false} RefusalChangesNothing(b: Bucket, before: seq<Ask>, refused: Ask, after: seq<Ask>)
    requires Ok(b) && Timed(b.last, before + ([refused] + after))
    requires !Take(After(b, before), refused.time, refused.amount).1
    ensures Verdicts(b, before + ([refused] + after))
         == Verdicts(b, before) + ([false] + Verdicts(After(b, before), after))
    ensures Verdicts(b, before + after) == Verdicts(b, before) + Verdicts(After(b, before), after)
  {
    var m := After(b, before);
    var end := TimedPartsOf(b.last, before, [refused] + after);
    AfterOk(b, before);
    LastOf(b, before);
    assert ([refused] + after)[1..] == after;
    RefusalIsRefill(m, refused.time, refused.amount);
    AlikeVerdicts(Refill(m, refused.time), m, refused.time, after);
    VerdictsConcat(b, before, [refused] + after);
    VerdictsConcat(b, before, after);
  }

  // ---------- refiller ticks ----------

  /** The same calls without the refiller's. */
  function WithoutTicks(asks: seq<Ask>): seq<Ask> {
    if asks == [] then []
    else (if asks[0].refiller then [] else [asks[0]]) + WithoutTicks(asks[1..])
  }

  /** The answers to the calls that are not the refiller's. */
  function Answers(b: Bucket, asks: seq<Ask>): seq<bool>
    decreases |asks|
  {
    if asks == [] then []
    else
      var (next, ok) := Take(b, asks[0].time, asks[0].amount);
      (if asks[0].refiller then [] else [ok]) + Answers(next, asks[1..])
  }

  /** Two buckets that will hold the same from some time on. */
  ghost predicate Alike(b: Bucket, d: Bucket, from: real) {
    && Ok(b) && Ok(d) && b.capacity == d.capacity && b.rate == d.rate && b.last <= from && d.last <= from
    && forall now :: now >= from ==> Refill(b, now) == Refill(d, now)
  }

  /** Refilling on the way changes nothing later. */
  lemma RefillTwice(b: Bucket, u: real, v: real)
    requires Ok(b) && b.last <= u <= v
    ensures Refill(Refill(b, u), v) == Refill(b, v)
  {
    GainAdds(b.rate, b.last, u, v);
    GainGrows(b.rate, u, u, v);
  }

  /** A call for nothing is only a refill. */
  lemma TickIsRefill(b: Bucket, u: real)
    requires Ok(b) && b.last <= u
    ensures Take(b, u, 0.0) == (Refill(b, u), true)
  {
    RefillOk(b, u);
  }

  lemma AlikeAfterTick(b: Bucket, d: Bucket, from: real, u: real)
    requires Alike(b, d, from) && from <= u
    ensures Alike(Take(b, u, 0.0).0, d, u)
  {
    TickIsRefill(b, u);
    RefillOk(b, u);
    forall now | now >= u
      ensures Refill(Refill(b, u), now) == Refill(d, now)
    {
      RefillTwice(b, u, now);
    }
  }

  lemma AlikeAfterAsk(b: Bucket, d: Bucket, from: real, u: real, amount: real)
    requires Alike(b, d, from) && from <= u
    ensures Take(b, u, amount) == Take(d, u, amount)
    ensures Alike(Take(b, u, amount).0, Take(d, u, amount).0, u)
  {
    RefillOk(b, u);
  }

  lemma {:induction false} AlikeAnswers(b: Bucket, d: Bucket, from: real, asks: seq<Ask>)
    requires Alike(b, d, from) && Timed(from, asks)
    ensures Answers(b, asks) == Answers(d, WithoutTicks(asks))
    decreases |asks|
  {
    if asks != [] {
      var u := asks[0].time;
      var rest := WithoutTicks(asks[1..]);
      if asks[0].refiller {
        AlikeAfterTick(b, d, from, u);
        AlikeAnswers(Take(b, u, 0.0).0, d, u, asks[1..]);
        assert [] + rest == rest;
      } else {
        AlikeAfterAsk(b, d, from, u, asks[0].amount);
        AlikeAnswers(Take(b, u, asks[0].amount).0, Take(d, u, asks[0].amount).0, u, asks[1..]);
        assert ([asks[0]] + rest)[1..] == rest;
      }
    }
  }

  /** Any number of refiller ticks, anywhere, changes no answer. */
  lemma {:induction false} TicksChangeNothing(b: Bucket, asks: seq<Ask>)
    requires Ok(b) && Timed(b.last, asks)
    ensures Answers(b, asks) == Answers(b, WithoutTicks(asks))
  {
    AlikeAnswers(b, b, b.last, asks);
  }

  // ---------- the integer bucket ----------

  datatype IntBucket = IntBucket(capacity: int, rate: int, tokens: int, last: real)

  ghost predicate IntOk(b: IntBucket) {
    b.rate >= 0 && 0 <= b.tokens <= b.capacity
  }

  /** Whole tokens earned are added; a fraction is kept by not moving the refill time, or dropped with it. */
  function IntRefill(b: IntBucket, now: real): IntBucket {
    var inc := Gain(b.rate as real, b.last, now).Floor;
    if now > b.last && inc > 0 then
      b.(tokens := if b.tokens + inc > b.capacity then b.capacity else b.tokens + inc, last := now)
    else b
  }

  function IntTake(b: IntBucket, now: real, n: int): (IntBucket, bool) {
    var r := IntRefill(b, now);
    if r.tokens >= n then (r.(tokens := r.tokens - n), true) else (r, false)
  }

  datatype Call = Call(time: real, n: nat)

  ghost predicate TimedCalls(from: real, calls: seq<Call>)
    decreases |calls|
  {
    calls != [] ==> from <= calls[0].time && TimedCalls(calls[0].time, calls[1..])
  }

  ghost predicate CallsUntil(calls: seq<Call>, t: real) {
    forall i :: 0 <= i < |calls| ==> calls[i].time <= t
  }

  function IntAfter(b: IntBucket, calls: seq<Call>): IntBucket
    decreases |calls|
  {
    if calls == [] then b else IntAfter(IntTake(b, calls[0].time, calls[0].n).0, calls[1..])
  }

  function IntAdmitted(b: IntBucket, calls: seq<Call>): int
    decreases |calls|
  {
    if calls == [] then 0
    else
      var (next, ok) := IntTake(b, calls[0].time, calls[0].n);
      (if ok then calls[0].n else 0) + IntAdmitted(next, calls[1..])
  }

  /** A refill never adds more than was earned since the last one. */
  lemma IntRefillBound(b: IntBucket, now: real, t: real)
    requires IntOk(b) && b.last <= now <= t
    ensures var r := IntRefill(b, now);
            && IntOk(r) && b.last <= r.last <= now && r.capacity == b.capacity && r.rate == b.rate
            && r.tokens as real + Gain(b.rate as real, r.last, t) <= b.tokens as real + Gain(b.rate as real, b.last, t)
            && Gain(b.rate as real, r.last, now) < 1.0
  {
    var rate := b.rate as real;
    GainAdds(rate, b.last, now, t);
    GainGrows(rate, b.last, b.last, now);
    assert Gain(rate, now, now) == 0.0;
  }

  lemma {:induction false} IntSpent(b: IntBucket, calls: seq<Call>, from: real, t: real)
    requires IntOk(b) && b.last <= from <= t && TimedCalls(from, calls) && CallsUntil(calls, t)
    ensures IntAdmitted(b, calls) as real <= b.tokens as real + Gain(b.rate as real, b.last, t)
    decreases |calls|
  {
    if calls != [] {
      var u := calls[0].time;
      var (next, ok) := IntTake(b, u, calls[0].n);
      IntRefillBound(b, u, t);
      assert CallsUntil(calls[1..], t);
      IntSpent(next, calls[1..], u, t);
    } else {
      GainGrows(b.rate as real, b.last, b.last, t);
    }
  }

  lemma {:induction false} IntAfterOk(b: IntBucket, calls: seq<Call>, from: real) returns (end: real)
    requires IntOk(b) && b.last <= from && TimedCalls(from, calls)
    ensures IntOk(IntAfter(b, calls)) && IntAfter(b, calls).capacity == b.capacity && IntAfter(b, calls).rate == b.rate
    ensures IntAfter(b, calls).last <= end && from <= end && (calls == [] ==> end == from)
    ensures calls != [] ==> end == calls[|calls| - 1].time
    decreases |calls|
  {
    if calls == [] {
      end := from;
    } else {
      var u := calls[0].time;
      IntRefillBound(b, u, u);
      end := IntAfterOk(IntTake(b, u, calls[0].n).0, calls[1..], u);
    }
  }

  /** The calls of a window from s to t, after others. */
  ghost predicate InWindow(b: IntBucket, before: seq<Call>, window: seq<Call>, s: real, t: real) {
    && TimedCalls(b.last, before + window) && CallsUntil(window, t)
    && s <= t && (window != [] ==> s <= window[0].time)
  }

  /** The tokens admitted in a window stay below the capacity plus what is earned in it plus one:
      less than one token earned before the window may still be pending. */
  lemma {:induction false} IntWindowBound(b: IntBucket, before: seq<Call>, window: seq<Call>, s: real, t: real)
    requires IntOk(b) && InWindow(b, before, window, s, t)
    ensures (IntAdmitted(IntAfter(b, before), window) as real) < b.capacity as real + Gain(b.rate as real, s, t) + 1.0
  {
    var rate := b.rate as real;
    GainGrows(rate, s, s, t);
    if window != [] {
      TimedParts(b.last, before, window);
      var end := IntAfterOk(b, before, b.last);
      var m := IntAfter(b, before);
      var u := window[0].time;
      IntRefillBound(m, u, t);
      var (next, ok) := IntTake(m, u, window[0].n);
      assert CallsUntil(window[1..], t);
      IntSpent(next, window[1..], u, t);
      GainAdds(rate, next.last, u, t);
      GainGrows(rate, s, u, t);
    }
  }

  lemma {:induction false} TimedParts(from: real, before: seq<Call>, window: seq<Call>)
    requires TimedCalls(from, before + window)
    ensures TimedCalls(from, before)
    ensures window != [] ==> TimedCalls(if before == [] then from else before[|before| - 1].time, window)
    decreases |before|
  {
    if before == [] {
      assert before + window == window;
    } else {
      assert (before + window)[1..] == before[1..] + window;
      TimedParts(before[0].time, before[1..], window);
    }
  }

  /** In every window of every run the limiter stays within its capacity plus what is earned in the window. */
  ghost predicate StaysWithin(b: IntBucket) {
    forall before, window, s, t ::
      InWindow(b, before, window, s, t) ==>
        IntAdmitted(IntAfter(b, before), window) as real <= b.capacity as real + Gain(b.rate as real, s, t)
  }

  lemma {:induction false} NothingFromEmpty(b: IntBucket, calls: seq<Call>)
    requires b.capacity == 0 && b.tokens == 0 && b.rate >= 0
    ensures IntAdmitted(b, calls) == 0
    decreases |calls|
  {
    if calls != [] {
      NothingFromEmpty(IntTake(b, calls[0].time, calls[0].n).0, calls[1..]);
    }
  }

  /** It does if it never holds or never earns anything. */
  lemma {:induction false} WithoutEarnings(b: IntBucket, before: seq<Call>, window: seq<Call>, s: real, t: real)
    requires IntOk(b) && (b.capacity == 0 || b.rate == 0)
    requires InWindow(b, before, window, s, t)
    ensures IntAdmitted(IntAfter(b, before), window) as real <= b.capacity as real + Gain(b.rate as real, s, t)
  {
    GainGrows(b.rate as real, s, s, t);
    TimedParts(b.last, before, window);
    var end := IntAfterOk(b, before, b.last);
    var m := IntAfter(b, before);
    if b.capacity == 0 {
      NothingFromEmpty(m, window);
    } else if window != [] {
      IntSpent(m, window, window[0].time, t);
    }
  }

  /** A bucket is full once it has earned its capacity. */
  lemma FillsUp(b: IntBucket, u: real)
    requires IntOk(b) && b.capacity > 0 && u > b.last && Gain(b.rate as real, b.last, u) == b.capacity as real
    ensures IntTake(b, u, 0) == (b.(tokens := b.capacity, last := u), true)
  {
  }

  /** It is emptied when part of a token is earned, and has one more to give as soon as the rest of that is. */
  lemma {:induction false} PartlyEarnedBefore(b: IntBucket, s: real, t: real)
    requires IntOk(b) && b.capacity > 0 && b.tokens == b.capacity && b.last < s < t
    requires Gain(b.rate as real, b.last, s) < 1.0 == Gain(b.rate as real, b.last, t)
    ensures IntAdmitted(b, [Call(s, b.capacity), Call(t, 1)]) == b.capacity + 1
  {
    var first, second := Call(s, b.capacity), Call(t, 1);
    assert [first, second][1..] == [second] && [second][1..] == [];
    var next := IntTake(b, s, b.capacity).0;
    assert next == b.(tokens := 0);
    assert IntAdmitted(next, [second]) == 1;
  }

  /** The time at which an amount has been earned. */
  lemma WhenEarned(rate: real, from: real, amount: real) returns (t: real)
    requires rate > 0.0 && amount > 0.0
    ensures t > from && Gain(rate, from, t) == amount
  {
    t := from + amount / rate;
    assert amount / rate > 0.0;
    assert amount / rate * rate == amount;
  }

  /** And the one is needed: after a call that lets any bucket fill up, a window in which `part` of a token is earned
      can admit the capacity and one more. */
  lemma {:induction false} IntWindowBoundIsTight(b: IntBucket, part: real) returns (fill: Call, window: seq<Call>)
    requires IntOk(b) && b.capacity > 0 && b.rate > 0 && 0.0 < part < 1.0
    ensures |window| == 2 && InWindow(b, [fill], window, window[0].time, window[1].time)
    ensures IntAdmitted(IntAfter(b, [fill]), window) as real
         == b.capacity as real + Gain(b.rate as real, window[0].time, window[1].time) + 1.0 - part
  {
    var rate := b.rate as real;
    var u := WhenEarned(rate, b.last, b.capacity as real);
    var s := WhenEarned(rate, u, 1.0 - part);
    var t := WhenEarned(rate, s, part);
    GainAdds(rate, u, s, t);
    fill, window := Call(u, 0), [Call(s, b.capacity), Call(t, 1)];
    FillsUp(b, u);
    PartlyEarnedBefore(b.(tokens := b.capacity, last := u), s, t);
    assert [fill][1..] == [];
    assert IntAfter(b, [fill]) == b.(tokens := b.capacity, last := u);
    assert window[1..] == [Call(t, 1)] && [Call(t, 1)][1..] == [];
    assert TimedCalls(u, window);
    assert ([fill] + window)[1..] == window;
  }

  /** The limiter stays within the real-valued bound exactly when it holds nothing or earns nothing: otherwise less
      than one token earned before a window can be admitted in it. */
  lemma {:induction false} StaysWithinExactly(b: IntBucket)
    requires IntOk(b)
    ensures StaysWithin(b) <==> b.capacity == 0 || b.rate == 0
  {
    if b.capacity == 0 || b.rate == 0 {
      forall before, window, s, t | InWindow(b, before, window, s, t)
        ensures IntAdmitted(IntAfter(b, before), window) as real <= b.capacity as real + Gain(b.rate as real, s, t)
      {
        WithoutEarnings(b, before, window, s, t);
      }
    } else {
      var fill, window := IntWindowBoundIsTight(b, 0.5);
      assert !StaysWithin(b);
    }
  }

  // ---------- what the integer bucket admits ----------

  /** The whole tokens that a call at now credits. */
  function Credit(b: IntBucket, now: real): int {
    var inc := Gain(b.rate as real, b.last, now).Floor;
    if now > b.last && inc > 0 then inc else 0
  }

  /** What is credited over a run and then up to u. */
  function Credited(b: IntBucket, calls: seq<Call>, u: real): int
    decreases |calls|
  {
    if calls == [] then Credit(b, u)
    else Credit(b, calls[0].time) + Credited(IntTake(b, calls[0].time, calls[0].n).0, calls[1..], u)
  }

  /** Never more than was earned, and for each call less than one token short of it. */
  lemma {:induction false} CreditedIsEarned(b: IntBucket, calls: seq<Call>, u: real)
    requires IntOk(b) && b.last <= u && TimedCalls(b.last, calls) && CallsUntil(calls, u)
    ensures Credited(b, calls, u) as real <= Gain(b.rate as real, b.last, u)
    ensures Gain(b.rate as real, b.last, u) < Credited(b, calls, u) as real + |calls| as real + 1.0
    decreases |calls|
  {
    var rate := b.rate as real;
    if calls == [] {
      GainGrows(rate, b.last, b.last, u);
      assert Gain(rate, u, u) == 0.0;
    } else {
      var t, next := calls[0].time, IntTake(b, calls[0].time, calls[0].n).0;
      IntRefillBound(b, t, u);
      GainAdds(rate, b.last, t, u);
      EarlierStart(next.last, t, calls[1..]);
      assert CallsUntil(calls[1..], u);
      CreditedIsEarned(next, calls[1..], u);
    }
  }

  lemma {:induction false} EarlierStart(from: real, t: real, calls: seq<Call>)
    requires from <= t && TimedCalls(t, calls)
    ensures TimedCalls(from, calls)
  {
  }

  /** Every window that ends with a call for n at u keeps to its bound, in whole tokens: the one from the start, and
      those from each call on, with a full bucket. */
  ghost predicate IntAffordable(b: IntBucket, calls: seq<Call>, u: real, n: nat) {
    && n <= b.capacity
    && n <= b.tokens + Credited(b, calls, u) - IntAdmitted(b, calls)
    && forall k :: 0 <= k < |calls| ==> IntFitsFrom(b, calls, u, n, k)
  }

  ghost predicate IntFitsFrom(b: IntBucket, calls: seq<Call>, u: real, n: nat, k: nat)
    requires k < |calls|
  {
    n <= b.capacity + Credited(IntAfter(b, calls[..k + 1]), calls[k + 1..], u)
         - IntAdmitted(IntAfter(b, calls[..k]), calls[k..])
  }

  lemma {:induction false} IntFitsFromRest(b: IntBucket, calls: seq<Call>, u: real, n: nat, k: nat)
    requires k + 1 < |calls|
    ensures var next := IntTake(b, calls[0].time, calls[0].n).0;
            next.capacity == b.capacity
            && (IntFitsFrom(b, calls, u, n, k + 1) <==> IntFitsFrom(next, calls[1..], u, n, k))
  {
    assert calls[..k + 1][1..] == calls[1..][..k] && calls[..k + 1][0] == calls[0];
    assert calls[..k + 2][1..] == calls[1..][..k + 1] && calls[..k + 2][0] == calls[0];
    assert calls[1..][k..] == calls[k + 1..] && calls[1..][k + 1..] == calls[k + 2..];
  }

  lemma {:induction false} IntFirstWindow(b: IntBucket, calls: seq<Call>, u: real, n: nat)
    requires IntOk(b) && calls != []
    ensures var next := IntTake(b, calls[0].time, calls[0].n).0;
            n <= next.tokens + Credited(next, calls[1..], u) - IntAdmitted(next, calls[1..])
            <==> n <= b.tokens + Credited(b, calls, u) - IntAdmitted(b, calls) && IntFitsFrom(b, calls, u, n, 0)
  {
    assert calls[..0] == [] && calls[0..] == calls;
    assert calls[..1] == [calls[0]] && [calls[0]][1..] == [];
    assert IntAfter(b, calls[..1]) == IntTake(b, calls[0].time, calls[0].n).0;
  }

  lemma {:induction false} IntAffordableRest(b: IntBucket, calls: seq<Call>, u: real, n: nat)
    requires IntOk(b) && calls != []
    ensures var next := IntTake(b, calls[0].time, calls[0].n).0;
            IntAffordable(b, calls, u, n) <==> IntAffordable(next, calls[1..], u, n)
  {
    var next := IntTake(b, calls[0].time, calls[0].n).0;
    forall k | 0 <= k < |calls| - 1
      ensures IntFitsFrom(b, calls, u, n, k + 1) <==> IntFitsFrom(next, calls[1..], u, n, k)
    {
      IntFitsFromRest(b, calls, u, n, k);
    }
    IntFirstWindow(b, calls, u, n);
    if IntAffordable(b, calls, u, n) {
      forall k | 0 <= k < |calls[1..]|
        ensures IntFitsFrom(next, calls[1..], u, n, k)
      {
        assert IntFitsFrom(b, calls, u, n, k + 1);
      }
    } else if IntAffordable(next, calls[1..], u, n) {
      forall k | 0 <= k < |calls|
        ensures IntFitsFrom(b, calls, u, n, k)
      {
        if k > 0 {
          assert IntFitsFrom(next, calls[1..], u, n, k - 1);
        }
      }
    }
  }

  /** Whatever happened before, a call is admitted exactly if no window that ends with it would exceed its bound in
      whole tokens credited. */
  lemma {:induction false} IntAdmittedExactly(b: IntBucket, calls: seq<Call>, u: real, n: nat)
    requires IntOk(b)
    ensures IntTake(IntAfter(b, calls), u, n).1 <==> IntAffordable(b, calls, u, n)
    decreases |calls|
  {
    if calls != [] {
      IntAffordableRest(b, calls, u, n);
      IntAdmittedExactly(IntTake(b, calls[0].time, calls[0].n).0, calls[1..], u, n);
    }
  }

  // ---------- refused calls of the integer bucket ----------

  function IntVerdicts(b: IntBucket, calls: seq<Call>): (v: seq<bool>)
    ensures |v| == |calls|
    decreases |calls|
  {
    if calls == [] then []
    else
      var (next, ok) := IntTake(b, calls[0].time, calls[0].n);
      [ok] + IntVerdicts(next, calls[1..])
  }

  lemma {:induction false} IntVerdictsConcat(b: IntBucket, x: seq<Call>, y: seq<Call>)
    ensures IntVerdicts(b, x + y) == IntVerdicts(b, x) + IntVerdicts(IntAfter(b, x), y)
    decreases |x|
  {
    if x == [] {
      assert x + y == y;
    } else {
      assert (x + y)[1..] == x[1..] + y;
      IntVerdictsConcat(IntTake(b, x[0].time, x[0].n).0, x[1..], y);
    }
  }

  /** Without the refused call at u, all later answers are the same, whatever is called later. */
  ghost predicate RefusalIsHarmless(b: IntBucket, before: seq<Call>, refused: Call) {
    forall after | TimedCalls(refused.time, after) ::
      IntVerdicts(b, before + ([refused] + after))[|before| + 1..] == IntVerdicts(b, before + after)[|before|..]
  }

  lemma {:induction false} LaterVerdicts(b: IntBucket, before: seq<Call>, refused: Call, after: seq<Call>)
    requires !IntTake(IntAfter(b, before), refused.time, refused.n).1
    ensures IntVerdicts(b, before + ([refused] + after))[|before| + 1..]
         == IntVerdicts(IntRefill(IntAfter(b, before), refused.time), after)
    ensures IntVerdicts(b, before + after)[|before|..] == IntVerdicts(IntAfter(b, before), after)
  {
    IntVerdictsConcat(b, before, [refused] + after);
    IntVerdictsConcat(b, before, after);
    assert ([refused] + after)[1..] == after;
  }

  lemma {:induction false} EmptyAlike(b: IntBucket, d: IntBucket, calls: seq<Call>)
    requires b.capacity == d.capacity == 0 && b.tokens == d.tokens == 0
    ensures IntVerdicts(b, calls) == IntVerdicts(d, calls)
    decreases |calls|
  {
    if calls != [] {
      EmptyAlike(IntTake(b, calls[0].time, calls[0].n).0, IntTake(d, calls[0].time, calls[0].n).0, calls[1..]);
    }
  }

  /** After a credit at u: all tokens are asked for part of a token later, and one more when a token is earned since u.
      Only with the credit at u is the second call admitted: without it, the part counts from the first call on. */
  lemma {:induction false} LaterCredit(m: IntBucket, u: real, v: real, w: real)
    requires IntOk(m) && m.capacity > 0 && m.last <= u < v < w
    requires var rate := m.rate as real;
             && Gain(rate, m.last, u).Floor > 0 && Gain(rate, m.last, v).Floor == Gain(rate, m.last, u).Floor
             && 0.0 < Gain(rate, u, v) < 1.0 && Gain(rate, u, w) == 1.0 && Gain(rate, v, w) < 1.0
    ensures var r := IntRefill(m, u);
            var calls := [Call(v, r.tokens), Call(w, 1)];
            IntVerdicts(r, calls) == [true, true] && IntVerdicts(m, calls) == [true, false]
  {
    var r := IntRefill(m, u);
    var first, second := Call(v, r.tokens), Call(w, 1);
    assert [first, second][1..] == [second] && [second][1..] == [];
    assert r.last == u && r.tokens > 0;
    assert IntTake(r, v, r.tokens) == (r.(tokens := 0), true);
    assert IntTake(m, v, r.tokens) == (m.(tokens := 0, last := v), true);
    assert IntVerdicts(r.(tokens := 0), [second]) == [true] + IntVerdicts(IntTake(r.(tokens := 0), w, 1).0, []);
    assert IntVerdicts(m.(tokens := 0, last := v), [second])
        == [false] + IntVerdicts(IntTake(m.(tokens := 0, last := v), w, 1).0, []);
  }

  lemma {:induction false} CreditMatters(m: IntBucket, u: real) returns (calls: seq<Call>)
    requires IntOk(m) && m.capacity > 0 && m.last <= u && Credit(m, u) > 0
    ensures TimedCalls(u, calls) && IntVerdicts(IntRefill(m, u), calls) != IntVerdicts(m, calls)
  {
    var rate := m.rate as real;
    var g := Gain(rate, m.last, u);
    var part := (1.0 - (g - g.Floor as real)) / 2.0;
    PositiveRate(rate, m.last, u);
    var v := WhenEarned(rate, u, part);
    var w := WhenEarned(rate, u, 1.0);
    GainAdds(rate, m.last, u, v);
    GainAdds(rate, u, v, w);
    LaterIfMoreEarned(rate, u, v, w);
    LaterCredit(m, u, v, w);
    calls := [Call(v, IntRefill(m, u).tokens), Call(w, 1)];
    assert calls[1..] == [Call(w, 1)] && [Call(w, 1)][1..] == [];
  }

  lemma PositiveRate(rate: real, from: real, to: real)
    requires rate >= 0.0 && Gain(rate, from, to) > 0.0
    ensures rate > 0.0
  {
    assert rate == 0.0 ==> (to - from) * rate == 0.0;
  }

  lemma LaterIfMoreEarned(rate: real, u: real, v: real, w: real)
    requires rate > 0.0 && Gain(rate, u, v) < Gain(rate, u, w)
    ensures v < w
  {
    if w <= v {
      GainAdds(rate, u, w, v);
      GainGrows(rate, w, w, v);
    }
  }

  /** Unlike those of the other bucket, a refused call of the integer limiter can change later answers: it drops the
      part of a token earned so far. It changes none exactly if it credits nothing or the limiter holds nothing. */
  lemma {:induction false} RefusalHarmlessExactly(b: IntBucket, before: seq<Call>, refused: Call)
    requires IntOk(b) && TimedCalls(b.last, before + [refused])
    requires !IntTake(IntAfter(b, before), refused.time, refused.n).1
    ensures RefusalIsHarmless(b, before, refused)
        <==> Credit(IntAfter(b, before), refused.time) == 0 || b.capacity == 0
  {
    TimedParts(b.last, before, [refused]);
    var end := IntAfterOk(b, before, b.last);
    var m, u := IntAfter(b, before), refused.time;
    if Credit(m, u) == 0 || b.capacity == 0 {
      forall after | TimedCalls(u, after)
        ensures IntVerdicts(b, before + ([refused] + after))[|before| + 1..]
             == IntVerdicts(b, before + after)[|before|..]
      {
        LaterVerdicts(b, before, refused, after);
        if b.capacity == 0 {
          EmptyAlike(IntRefill(m, u), m, after);
        }
      }
    } else {
      var after := CreditMatters(m, u);
      LaterVerdicts(b, before, refused, after);
      assert !RefusalIsHarmless(b, before, refused);
    }
  }

  class IntTokenBucket {
    var tokens: int
    const capacity: int
    const ratePerSec: int
    var lastRefill: real
    var lastAccess: real

    constructor (cap: int, rate: int, now: real)
      ensures View() == IntBucket(cap, rate, cap, now)
    {
      tokens, capacity, ratePerSec := cap, cap, rate;
      lastRefill, lastAccess := now, now;
    }

    function View(): IntBucket
      reads this
    {
      IntBucket(capacity, ratePerSec, tokens, lastRefill)
    }

    method Allow(now: real, n: int) returns (ok: bool)
      modifies this
      ensures (View(), ok) == IntTake(old(View()), now, n) && lastAccess == now
    {
      var elapsed := now - lastRefill;
      if elapsed > 0.0 {
        var inc := (elapsed * (ratePerSec as real)).Floor;
        assert inc == Gain(ratePerSec as real, lastRefill, now).Floor;
        if inc > 0 {
          tokens := tokens + inc;
          if tokens > capacity {
            tokens := capacity;
          }
          lastRefill := now;
        }
      }
      lastAccess := now;
      if tokens >= n {
        tokens := tokens - n;
        return true;
      }
      return false;
    }
  }

  class TokenBucket {
    const capacity: real
    const rate: real
    var tokens: real
    var last: real

    constructor (cap: real, perSecond: real, now: real)
      ensures View() == Bucket(cap, perSecond, cap, now)
    {
      capacity, rate, tokens, last := cap, perSecond, cap, now;
    }

    function View(): Bucket
      reads this
    {
      Bucket(capacity, rate, tokens, last)
    }

    method Consume(now: real, amount: real) returns (ok: bool)
      modifies this
      ensures (View(), ok) == Take(old(View()), now, amount)
    {
      var elapsed := now - last;
      assert elapsed * rate == Gain(rate, last, now);
      tokens := tokens + elapsed * rate;
      if tokens > capacity {
        tokens := capacity;
      }
      last := now;
      if tokens >= amount {
        tokens := tokens - amount;
        return true;
      }
      return false;
    }
  }
}
