// Reconnect backoff (native/src/reconnect.rs). A `Duration` is its length in nanoseconds.
module Reconnect {
  import opened Wrappers

  // u64::MAX seconds and 999,999,999 nanoseconds.
  const DURATION_MAX: nat := U64_MAX * 1_000_000_000 + 999_999_999
  type Duration = d: nat | d <= DURATION_MAX

  type U32 = n: nat | n < 0x1_0000_0000

  function Pow2(k: nat): (p: nat)
    ensures p >= 1
  {
    if k == 0 then 1 else 2 * Pow2(k - 1)
  }

  function Min(a: nat, b: nat): nat {
    if a < b then a else b
  }

  // `Duration::checked_mul`.
  function CheckedMul(d: Duration, factor: U32): Option<Duration> {
    if d * factor <= DURATION_MAX then Some(d * factor) else None
  }

  // The k-th delay after a success, as exact mathematics.
  function Delay(base: Duration, max: Duration, k: nat): (d: Duration)
    ensures d <= max
  {
    Min(base * Pow2(Min(k, 31)), max)
  }

  lemma {:induction false} Pow2Grows(j: nat, k: nat)
    requires j <= k
    ensures Pow2(j) <= Pow2(k)
    decreases k - j
  {
    if j < k { Pow2Grows(j, k - 1); }
  }

  lemma Pow2Fits(k: nat)
    requires k <= 31
    ensures Pow2(k) <= 0x8000_0000
  {
    assert Pow2(8) == 0x100;
    assert Pow2(16) == 0x1_0000;
    assert Pow2(24) == 0x100_0000;
    assert Pow2(31) == 0x8000_0000;
    Pow2Grows(k, 31);
  }

  // `equal_jitter`, with the sample and the product taken as exact reals and the result
  // rounded to the nearest nanosecond.
  function EqualJitter(d: Duration, rand01: real): (r: nat)
    ensures d / 2 <= r <= d
  {
    var half := d / 2;
    var span := d - half;
    half + Scaled(span, Clamped(rand01))
  }

  // `mul_f64` with a factor in [0, 1].
  function Scaled(span: nat, factor: real): (r: nat)
    requires 0.0 <= factor <= 1.0
    ensures r <= span
  {
    ScaledBounds(span as real, factor);
    (span as real * factor + 0.5).Floor
  }

  lemma ScaledBounds(span: real, factor: real)
    requires 0.0 <= span && 0.0 <= factor <= 1.0
    ensures 0.0 <= span * factor <= span
  {
    assert span * (1.0 - factor) >= 0.0;
  }

  // Half the delay for a sample of 0 (or less), all of it for 1 (or more), and never less for
  // a greater one.
  lemma JitterSpans(d: Duration, x: real, y: real)
    ensures x <= 0.0 ==> EqualJitter(d, x) == d / 2
    ensures x >= 1.0 ==> EqualJitter(d, x) == d
    ensures x <= y ==> EqualJitter(d, x) <= EqualJitter(d, y)
  {
    var span := d - d / 2;
    ScaledEnds(span);
    if x <= y { ScaledGrows(span, Clamped(x), Clamped(y)); }
  }

  function Clamped(x: real): (r: real)
    ensures 0.0 <= r <= 1.0
  {
    if x < 0.0 then 0.0 else if x > 1.0 then 1.0 else x
  }

  lemma ScaledEnds(span: nat)
    ensures Scaled(span, 0.0) == 0 && Scaled(span, 1.0) == span
  {
    assert span as real * 1.0 == span as real;
    assert (span as real + 0.5).Floor == span;
  }

  lemma ScaledGrows(span: nat, x: real, y: real)
    requires 0.0 <= x <= y <= 1.0
    ensures Scaled(span, x) <= Scaled(span, y)
  {
    assert span as real * (y - x) >= 0.0;
    assert span as real * x <= span as real * y;
  }

  datatype Retry = After(delay: Duration) | GiveUp

  datatype Policy = Policy(base: Duration, max: Duration, maxAttempts: U32, attempt: U32)

  // `after_failure`, as exact mathematics.
  function AfterFailure(p: Policy, rand01: real): (Policy, Retry) {
    if p.attempt >= p.maxAttempts then (p, GiveUp)
    else (p.(attempt := p.attempt + 1), After(EqualJitter(Delay(p.base, p.max, p.attempt), rand01)))
  }

  class Backoff {
    const base: Duration
    const max: Duration
    const maxAttempts: U32
    var attempt: U32

    constructor (base: Duration, max: Duration, maxAttempts: U32)
      ensures this.base == base && this.max == max && this.maxAttempts == maxAttempts && attempt == 0
    {
      this.base, this.max, this.maxAttempts := base, max, maxAttempts;
      attempt := 0;
    }

    // Exact even where the fixed-width product overflows: the cap is what is left then.
    method NextDelay() returns (d: Option<Duration>)
      modifies this
      ensures old(attempt) >= maxAttempts ==> d == None && attempt == old(attempt)
      ensures old(attempt) < maxAttempts ==> d == Some(Delay(base, max, old(attempt))) && attempt == old(attempt) + 1
    {
      if attempt >= maxAttempts {
        return None;
      }
      var shift := if attempt < 31 then attempt else 31;
      Pow2Fits(shift);
      var product := CheckedMul(base, Pow2(shift));
      var delay := if product.Some? then product.value else max;
      delay := if delay < max then delay else max;
      attempt := attempt + 1;
      d := Some(delay);
    }

    method NextDelayJittered(rand01: real) returns (d: Option<Duration>)
      modifies this
      ensures old(attempt) >= maxAttempts ==> d == None && attempt == old(attempt)
      ensures old(attempt) < maxAttempts ==>
                d == Some(EqualJitter(Delay(base, max, old(attempt)), rand01)) && attempt == old(attempt) + 1
    {
      d := NextDelay();
      if d.Some? {
        d := Some(EqualJitter(d.value, rand01));
      }
    }

    method Reset()
      modifies this
      ensures attempt == 0
    {
      attempt := 0;
    }
  }

  class ReconnectPolicy {
    const backoff: Backoff

    function State(): Policy
      reads backoff
    {
      Policy(backoff.base, backoff.max, backoff.maxAttempts, backoff.attempt)
    }

    constructor (base: Duration, max: Duration, maxAttempts: U32)
      ensures State() == Policy(base, max, maxAttempts, 0) && fresh(backoff)
    {
      backoff := new Backoff(base, max, maxAttempts);
    }

    method OnFailure(rand01: real) returns (r: Retry)
      modifies backoff
      ensures (State(), r) == AfterFailure(old(State()), rand01)
    {
      var d := backoff.NextDelayJittered(rand01);
      r := if d.Some? then After(d.value) else GiveUp;
    }

    method OnSuccess()
      modifies backoff
      ensures State() == old(State()).(attempt := 0)
    {
      backoff.Reset();
    }
  }

  // ---- a run of failures --------------------------------------------------------------------

  function Failures(p: Policy, samples: seq<real>): Policy {
    if samples == [] then p else AfterFailure(Failures(p, samples[..|samples| - 1]), samples[|samples| - 1]).0
  }

  // Exactly `maxAttempts` retries follow a success, each within half of its delay; then it
  // gives up until the next success.
  lemma {:induction false} BudgetIsExact(p: Policy, samples: seq<real>, next: real)
    requires p.attempt == 0
    ensures Failures(p, samples) == p.(attempt := Min(|samples|, p.maxAttempts))
    ensures var r := AfterFailure(Failures(p, samples), next).1;
            var d := Delay(p.base, p.max, |samples|);
            if |samples| < p.maxAttempts then r.After? && d / 2 <= r.delay <= d else r.GiveUp?
  {
    if samples != [] {
      BudgetIsExact(p, samples[..|samples| - 1], samples[|samples| - 1]);
    }
  }

  lemma DelaysNeverDecrease(base: Duration, max: Duration, j: nat, k: nat)
    requires j <= k
    ensures Delay(base, max, j) <= Delay(base, max, k)
  {
    Pow2Grows(Min(j, 31), Min(k, 31));
    MulGrows(base, Pow2(Min(j, 31)), Pow2(Min(k, 31)));
  }

  // The sum of the first n delays, and of their jittered forms.
  function Total(base: Duration, max: Duration, n: nat): nat {
    if n == 0 then 0 else Total(base, max, n - 1) + Delay(base, max, n - 1)
  }

  function Elapsed(base: Duration, max: Duration, samples: seq<real>): nat {
    if samples == [] then 0
    else
      var n := |samples| - 1;
      Elapsed(base, max, samples[..n]) + EqualJitter(Delay(base, max, n), samples[n])
  }

  // Between half the sum (less a nanosecond of rounding per delay) and the sum.
  lemma {:induction false} ElapsedBetween(base: Duration, max: Duration, samples: seq<real>)
    ensures Elapsed(base, max, samples) <= Total(base, max, |samples|) <= 2 * Elapsed(base, max, samples) + |samples|
  {
    if samples != [] {
      ElapsedBetween(base, max, samples[..|samples| - 1]);
    }
  }

  // The first attempt whose delay is the last one: at the cap, or at the shift limit.
  function Knee(base: Duration, max: Duration, k: nat): (c: nat)
    requires k <= 31
    ensures k <= c <= 31
    ensures c == 31 || base * Pow2(c) >= max
    ensures forall j :: k <= j < c ==> base * Pow2(j) < max
    decreases 31 - k
  {
    if k == 31 || base * Pow2(k) >= max then k else Knee(base, max, k + 1)
  }

  predicate IsKnee(base: Duration, max: Duration, c: nat) {
    && c <= 31
    && (c == 31 || base * Pow2(c) >= max)
    && forall j: nat :: j < c ==> base * Pow2(j) < max
  }

  // The closed form of the sum: doubling up to the knee, constant after it.
  lemma TotalClosedForm(base: Duration, max: Duration, n: nat)
    ensures var c := Knee(base, max, 0); Total(base, max, n) == ClosedForm(base, n, c, Delay(base, max, c))
  {
    TotalAround(base, max, n, Knee(base, max, 0));
  }

  function ClosedForm(base: nat, n: nat, c: nat, last: nat): nat {
    if n <= c then base * (Pow2(n) - 1) else base * (Pow2(c) - 1) + (n - c) * last
  }

  lemma {:induction false} TotalAround(base: Duration, max: Duration, n: nat, c: nat)
    requires IsKnee(base, max, c)
    ensures Total(base, max, n) == ClosedForm(base, n, c, Delay(base, max, c))
  {
    if n > 0 {
      TotalAround(base, max, n - 1, c);
      if n <= c {
        DoublingStep(base, max, n, c, Delay(base, max, c));
      } else {
        DelayPastKnee(base, max, n - 1, c);
        CappedStep(base, n, c, Delay(base, max, c));
      }
    }
  }

  lemma DoublingStep(base: Duration, max: Duration, n: nat, c: nat, last: nat)
    requires IsKnee(base, max, c) && 1 <= n <= c
    ensures ClosedForm(base, n, c, last) == ClosedForm(base, n - 1, c, last) + Delay(base, max, n - 1)
  {
    DelayBeforeKnee(base, max, n - 1, c);
    Doubled(base, Pow2(n - 1));
  }

  lemma Doubled(base: nat, p: nat)
    ensures base * (2 * p - 1) == base * (p - 1) + base * p
  {
  }

  lemma DelayBeforeKnee(base: Duration, max: Duration, k: nat, c: nat)
    requires IsKnee(base, max, c) && k < c
    ensures Delay(base, max, k) == base * Pow2(k)
  {
    assert Min(k, 31) == k;
  }

  lemma CappedStep(base: nat, n: nat, c: nat, last: nat)
    requires n > c
    ensures ClosedForm(base, n, c, last) == ClosedForm(base, n - 1, c, last) + last
  {
    assert (n - c) * last == (n - 1 - c) * last + last;
  }

  lemma DelayPastKnee(base: Duration, max: Duration, k: nat, c: nat)
    requires IsKnee(base, max, c) && k >= c
    ensures Delay(base, max, k) == Delay(base, max, c)
  {
    Pow2Grows(c, Min(k, 31));
    MulGrows(base, Pow2(c), Pow2(Min(k, 31)));
  }

  lemma MulGrows(a: nat, b: nat, c: nat)
    requires b <= c
    ensures a * b <= a * c
  {
  }

  // ---- the soak bound --------------------------------------------------------------------------

  const BASE: Duration := 500_000_000          // 500 ms
  const MAX: Duration := 30_000_000_000        // 30 s

  lemma SoakDelay(n: nat)
    requires n >= 6
    ensures Delay(BASE, MAX, n) == MAX
  {
    assert Pow2(6) == 64;
    Pow2Grows(6, Min(n, 31));
    MulGrows(BASE, 64, Pow2(Min(n, 31)));
  }

  // At the production settings every jittered delay is at most 30 s, and from the seventh
  // on at least 15 s.
  lemma {:induction false} SoakSums(samples: seq<real>)
    ensures Elapsed(BASE, MAX, samples) <= |samples| * MAX
    ensures |samples| >= 6 ==> Elapsed(BASE, MAX, samples) >= (|samples| - 6) * (MAX / 2)
  {
    if samples != [] {
      var n := |samples| - 1;
      SoakSums(samples[..n]);
      var d := EqualJitter(Delay(BASE, MAX, n), samples[n]);
      assert Elapsed(BASE, MAX, samples) == Elapsed(BASE, MAX, samples[..n]) + d;
      if n >= 6 { SoakDelay(n); }
    }
  }

  // However the samples fall, an outage of `outage` nanoseconds takes between outage / 30 s
  // and twice that plus 8 attempts: the failure that outlives it is the last one counted.
  lemma SoakBound(samples: seq<real>, outage: nat)
    requires samples != []
    requires Elapsed(BASE, MAX, samples[..|samples| - 1]) < outage <= Elapsed(BASE, MAX, samples)
    ensures outage / MAX <= |samples| <= 2 * (outage / MAX) + 8
  {
    SoakSums(samples);
    SoakSums(samples[..|samples| - 1]);
  }
}
