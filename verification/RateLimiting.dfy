// The failure lockout (native/src/local_auth.rs, `RateLimiter`): a fixed window of
// counted failures and a lock measured from the last one.
module RateLimiting {
  import opened Wrappers

  const MAX_FAILURES: nat := 5
  const WINDOW: nat := 60
  const LOCKOUT: nat := 30
  const U32_RANGE: nat := 0x1_0000_0000

  // Unix seconds at which `now + LOCKOUT` still fits a u64.
  type Clock = n: nat | n <= U64_MAX - LOCKOUT

  // The failure counter wraps.
  type U32 = n: nat | n < U32_RANGE

  datatype Verdict = Allowed | Locked(retryAfterSecs: U64)

  // The three atomics. A `windowStart` of 0 stands for "no window".
  datatype Limiter = Limiter(failures: U32, windowStart: U64, lockedUntil: U64)

  const FRESH := Limiter(0, 0, 0)

  function Checked(l: Limiter, now: Clock): Verdict {
    if l.lockedUntil > now then Locked(l.lockedUntil - now) else Allowed
  }

  function Recorded(l: Limiter, now: Clock, success: bool): Limiter {
    if success then l.(failures := 0, windowStart := 0)
    else if l.windowStart == 0 || now - l.windowStart > WINDOW then l.(failures := 1, windowStart := now)
    else
      var count := (l.failures + 1) % U32_RANGE;
      l.(failures := count, lockedUntil := if count >= MAX_FAILURES then now + LOCKOUT else l.lockedUntil)
  }

  class RateLimiter {
    var failures: U32
    var windowStart: U64
    var lockedUntil: U64

    function State(): Limiter
      reads this
    {
      Limiter(failures, windowStart, lockedUntil)
    }

    constructor ()
      ensures State() == FRESH
    {
      failures, windowStart, lockedUntil := 0, 0, 0;
    }

    method Check(now: Clock) returns (v: Verdict)
      ensures v == Checked(State(), now)
    {
      if lockedUntil > now {
        return Locked(lockedUntil - now);
      }
      v := Allowed;
    }

    method Record(now: Clock, success: bool)
      modifies this
      ensures State() == Recorded(old(State()), now, success)
    {
      if success {
        failures := 0;
        windowStart := 0;
        return;
      }
      if windowStart == 0 || now - windowStart > WINDOW {
        windowStart := now;
        failures := 1;
        return;
      }
      var count := (failures + 1) % U32_RANGE;
      failures := count;
      if count >= MAX_FAILURES {
        lockedUntil := now + LOCKOUT;
      }
    }
  }

  // ---- a run of wrong attempts --------------------------------------------------------

  // One attempt with a wrong secret: the clock is read before the comparison and again
  // after it.
  datatype Try = Try(checkAt: Clock, recordAt: Clock)

  function Tried(l: Limiter, t: Try): Limiter {
    if Checked(l, t.checkAt).Allowed? then Recorded(l, t.recordAt, false) else l
  }

  function After(l: Limiter, tries: seq<Try>): Limiter {
    if tries == [] then l else Tried(After(l, tries[..|tries| - 1]), tries[|tries| - 1])
  }

  // How many of the attempts got as far as comparing the secret.
  function Compared(l: Limiter, tries: seq<Try>): nat {
    if tries == [] then 0
    else
      var before := tries[..|tries| - 1];
      Compared(l, before) + if Checked(After(l, before), tries[|tries| - 1].checkAt).Allowed? then 1 else 0
  }

  // One attempt at a time, on a clock that never steps back.
  ghost predicate Sequential(tries: seq<Try>) {
    && (forall i :: 0 <= i < |tries| ==> tries[i].checkAt <= tries[i].recordAt)
    && (forall i, j :: 0 <= i < j < |tries| ==> tries[i].recordAt <= tries[j].checkAt)
  }

  // Before the first failure, or after a success: no window, no lock in force.
  ghost predicate Reset(l: Limiter, now: Clock) {
    l.windowStart == 0 && l.lockedUntil <= now
  }

  // Where the limiter stands `k` full windows after the first failure at `first`.
  ghost predicate Charged(l: Limiter, n: nat, k: nat, first: Clock, now: Clock) {
    && 1 <= first && first + 61 * k <= l.windowStart <= now
    && 1 <= l.failures <= 7
    && n <= 7 * k + l.failures
    && (l.failures >= MAX_FAILURES ==> l.lockedUntil >= l.windowStart + LOCKOUT * (l.failures - 4))
  }

  // One more attempt: a locked one changes nothing, a compared one is charged to the
  // current window or opens one at least 61 seconds later.
  lemma ChargedStep(l: Limiter, n: nat, k: nat, first: Clock, now: Clock, t: Try) returns (k': nat)
    requires Charged(l, n, k, first, now) && now <= t.checkAt <= t.recordAt
    ensures Charged(Tried(l, t), n + if Checked(l, t.checkAt).Allowed? then 1 else 0, k', first, t.recordAt)
  {
    k' := if Checked(l, t.checkAt).Allowed? && t.recordAt - l.windowStart > WINDOW then k + 1 else k;
  }

  lemma {:induction false} ChargedRun(l: Limiter, tries: seq<Try>) returns (k: nat)
    requires tries != [] && Sequential(tries) && 1 <= tries[0].recordAt && Reset(l, tries[0].checkAt)
    ensures Charged(After(l, tries), Compared(l, tries), k, tries[0].recordAt, tries[|tries| - 1].recordAt)
  {
    var before, t := tries[..|tries| - 1], tries[|tries| - 1];
    if before == [] {
      assert After(l, before) == l && Compared(l, before) == 0;
      k := 0;
    } else {
      k := ChargedRun(l, before);
      k := ChargedStep(After(l, before), Compared(l, before), k, tries[0].recordAt, before[|before| - 1].recordAt, t);
    }
  }

  // Between two successes, at most 7 * (floor(T / 61) + 1) wrong secrets are compared in
  // the T seconds from the first failure.
  lemma GuessingIsBounded(l: Limiter, tries: seq<Try>)
    requires tries != [] && Sequential(tries) && 1 <= tries[0].recordAt && Reset(l, tries[0].checkAt)
    ensures Compared(l, tries) <= 7 * ((tries[|tries| - 1].recordAt - tries[0].recordAt) / 61 + 1)
  {
    var k := ChargedRun(l, tries);
    var now := tries[|tries| - 1].recordAt;
    assert Charged(After(l, tries), Compared(l, tries), k, tries[0].recordAt, now);
    assert Compared(l, tries) <= 7 * k + 7;
    WholeWindows(k, now - tries[0].recordAt);
  }

  lemma WholeWindows(k: nat, elapsed: nat)
    requires 61 * k <= elapsed
    ensures 7 * k + 7 <= 7 * (elapsed / 61 + 1)
  {
  }

  // The bound is met: five at once, one as each of the first two locks lapses.
  lemma SevenInOneWindow()
    ensures var tries := seq(5, _ => Try(1, 1)) + [Try(31, 31), Try(61, 61)];
            Sequential(tries) && Compared(FRESH, tries) == 7
  {
    var five := seq(5, _ => Try(1, 1));
    BurstAtOneInstant(1, 5);
    var six := five + [Try(31, 31)];
    assert six[..5] == five;
    var tries := six + [Try(61, 61)];
    assert tries[..6] == six;
    assert tries == five + [Try(31, 31), Try(61, 61)];
  }

  function Burst(t: Clock, n: nat): (r: seq<Try>)
    ensures |r| == n
  {
    seq(n, _ => Try(t, t))
  }

  // The window field doubles as "no window": with the clock stuck at 0 (a host clock
  // before 1970) every failure opens a fresh window and none is ever locked out. At any
  // other instant a burst stops at five.
  lemma {:induction false} BurstAtOneInstant(t: Clock, n: nat)
    ensures Compared(FRESH, Burst(t, n)) == if t == 0 then n else if n < 5 then n else 5
    ensures After(FRESH, Burst(t, n)) ==
            if n == 0 then FRESH
            else if t == 0 then Limiter(1, 0, 0)
            else Limiter(if n < 5 then n else 5, t, if n < 5 then 0 else t + LOCKOUT)
  {
    if n > 0 {
      BurstAtOneInstant(t, n - 1);
      assert Burst(t, n)[..n - 1] == Burst(t, n - 1);
    }
  }

  // So the bound holds for every sequence of attempts whose first failure is at `t` exactly
  // when `t` is not 0.
  lemma BoundHoldsIffClockIsSet(t: Clock)
    ensures (forall tries: seq<Try> :: tries != [] && Sequential(tries) && tries[0].recordAt == t ==> Bounded(tries)) <==>
            t != 0
  {
    if t == 0 {
      BurstAtOneInstant(0, 8);
      assert Sequential(Burst(0, 8)) && Burst(0, 8)[0].recordAt == t && !Bounded(Burst(0, 8));
    } else {
      forall tries: seq<Try> | tries != [] && Sequential(tries) && tries[0].recordAt == t
        ensures Bounded(tries)
      {
        GuessingIsBounded(FRESH, tries);
      }
    }
  }

  ghost predicate Bounded(tries: seq<Try>)
    requires tries != [] && Sequential(tries)
  {
    assert |tries| > 1 ==> tries[0].recordAt <= tries[|tries| - 1].checkAt;
    Compared(FRESH, tries) <= 7 * ((tries[|tries| - 1].recordAt - tries[0].recordAt) / 61 + 1)
  }

  // ---- the lock ---------------------------------------------------------------------------

  // Up to five failures in one window: each is compared, and the fifth locks.
  lemma {:induction false} WindowCounts(l: Limiter, tries: seq<Try>)
    requires 1 <= |tries| <= MAX_FAILURES && Sequential(tries)
    requires 1 <= tries[0].recordAt && tries[|tries| - 1].recordAt - tries[0].recordAt <= WINDOW
    requires Reset(l, tries[0].checkAt)
    ensures After(l, tries) ==
            Limiter(|tries|, tries[0].recordAt,
                    if |tries| < MAX_FAILURES then l.lockedUntil else tries[|tries| - 1].recordAt + LOCKOUT)
    ensures Compared(l, tries) == |tries|
  {
    var before := tries[..|tries| - 1];
    if before == [] {
      assert After(l, before) == l && Compared(l, before) == 0;
    } else {
      WindowCounts(l, before);
    }
  }

  // Four failures lock nobody out; the fifth within a minute of the first refuses everyone,
  // the right secret included, for exactly the next 30 seconds, and says how many are left.
  lemma FifthFailureLocks(l: Limiter, tries: seq<Try>, now: Clock)
    requires 1 <= |tries| <= 5 && Sequential(tries)
    requires 1 <= tries[0].recordAt && tries[|tries| - 1].recordAt - tries[0].recordAt <= 60
    requires Reset(l, tries[0].checkAt) && tries[|tries| - 1].recordAt <= now
    ensures var end := tries[|tries| - 1].recordAt + 30;
            Checked(After(l, tries), now) ==
            if |tries| == 5 && now < end then Locked(end - now) else Allowed
  {
    WindowCounts(l, tries);
  }

  // A success leaves no window behind.
  lemma SuccessResets(l: Limiter, checkAt: Clock, recordAt: Clock)
    requires Checked(l, checkAt).Allowed? && checkAt <= recordAt
    ensures Reset(Recorded(l, recordAt, true), recordAt)
  {
  }

  // So four failures, a success and up to four more failures lock nobody out, even within
  // one minute.
  lemma SuccessForgives(l: Limiter, before: seq<Try>, success: Try, later: seq<Try>, now: Clock)
    requires 1 <= |before| <= 4 && 1 <= |later| <= 4 && Sequential(before) && Sequential(later)
    requires before[|before| - 1].recordAt <= success.checkAt <= success.recordAt <= later[0].checkAt
    requires 1 <= before[0].recordAt && Reset(l, before[0].checkAt) && later[|later| - 1].recordAt <= now
    requires later[|later| - 1].recordAt - before[0].recordAt <= 60
    ensures Checked(After(l, before), success.checkAt).Allowed?
    ensures Checked(After(Recorded(After(l, before), success.recordAt, true), later), now).Allowed?
  {
    FifthFailureLocks(l, before, success.checkAt);
    SuccessResets(After(l, before), success.checkAt, success.recordAt);
    FifthFailureLocks(Recorded(After(l, before), success.recordAt, true), later, now);
  }
}
