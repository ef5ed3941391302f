// What a password attempt is answered, and how many wrong ones are compared, over whole runs
// of the gate (native/src/local_auth.rs, `LocalAuthGate::verify`).
module GatePasswords {
  import opened Wrappers
  import opened RateLimiting
  import opened ShareLinks
  import opened Gate

  // Locked out with the seconds left, else let in exactly when the name, if one was asked
  // for, and the password are those of the credential.
  lemma PasswordAnswer(setup: Setup, g: GateState, op: GateOp, user: string, salt: string, password: string)
    requires op.Password? && setup.credential == Some(Credential(user, salt, Sha256(salt + password)))
    ensures GateStep(setup, g, op).1 ==
            if g.limiter.lockedUntil > op.checkAt then PasswordRateLimited(g.limiter.lockedUntil - op.checkAt)
            else if (op.username.None? || op.username == Some(user)) && op.password == password then Accepted
            else BadCredential
  {
    if salt + op.password == salt + password {
      assert op.password == (salt + op.password)[|salt|..] == (salt + password)[|salt|..] == password;
    }
  }

  // With no credential set nobody gets in.
  lemma NobodyWithoutCredential(setup: Setup, g: GateState, op: GateOp)
    requires op.Password? && setup.credential.None?
    ensures GateStep(setup, g, op).1 ==
            if g.limiter.lockedUntil > op.checkAt then PasswordRateLimited(g.limiter.lockedUntil - op.checkAt)
            else BadCredential
  {
  }

  // ---- guessing ------------------------------------------------------------------------------

  // What one operation was to the password limiter: an attempt or none, refused after a
  // comparison or not.
  datatype Event = Event(isTry: bool, attempt: Try, wrong: bool)

  function AnswerAt(setup: Setup, ops: seq<GateOp>, i: nat): GateReply
    requires i < |ops|
  {
    GateStep(setup, Run(setup, ops[..i]), ops[i]).1
  }

  function EventOf(op: GateOp, reply: GateReply): Event {
    Event(op.Password?, if op.Password? then Try(op.checkAt, op.recordAt) else Try(0, 0), reply == BadCredential)
  }

  // The operations of a run from call `from` on.
  function Events(setup: Setup, ops: seq<GateOp>, from: nat): (evs: seq<Event>)
    requires from <= |ops|
    ensures |evs| == |ops| - from
    ensures forall i :: 0 <= i < |evs| ==> evs[i] == EventOf(ops[from + i], AnswerAt(setup, ops, from + i))
  {
    seq(|ops| - from, i requires 0 <= i < |ops| - from => EventOf(ops[from + i], AnswerAt(setup, ops, from + i)))
  }

  function Attempts(evs: seq<Event>): seq<Try> {
    if evs == [] then []
    else Attempts(evs[..|evs| - 1]) + if evs[|evs| - 1].isTry then [evs[|evs| - 1].attempt] else []
  }

  // How many wrong passwords were compared with the credential.
  function Wrong(evs: seq<Event>): nat {
    if evs == [] then 0 else Wrong(evs[..|evs| - 1]) + if evs[|evs| - 1].wrong then 1 else 0
  }

  // An unsuccessful event takes limiter `l` to `l'`.
  predicate Follows(l: Limiter, e: Event, l': Limiter) {
    if e.isTry then l' == Tried(l, e.attempt) && (e.wrong <==> Checked(l, e.attempt.checkAt).Allowed?)
    else l' == l && !e.wrong
  }

  lemma {:induction false} EventsTally(ls: seq<Limiter>, evs: seq<Event>)
    requires |ls| == |evs| + 1 && forall i :: 0 <= i < |evs| ==> Follows(ls[i], evs[i], ls[i + 1])
    ensures ls[|evs|] == After(ls[0], Attempts(evs)) && Wrong(evs) == Compared(ls[0], Attempts(evs))
  {
    if evs != [] {
      var n := |evs| - 1;
      EventsTally(ls[..n + 1], evs[..n]);
      assert Follows(ls[n], evs[n], ls[n + 1]);
      var tries := Attempts(evs[..n]);
      if evs[n].isTry {
        AfterSnoc(ls[0], tries, evs[n].attempt);
      } else {
        assert tries + [] == tries;
      }
    }
  }

  // Attempts made one at a time on a clock that never steps back, and is set.
  predicate InOrder(evs: seq<Event>) {
    && (forall i :: 0 <= i < |evs| && evs[i].isTry ==>
                      evs[i].attempt.checkAt <= evs[i].attempt.recordAt && 1 <= evs[i].attempt.recordAt)
    && (forall i, j :: 0 <= i < j < |evs| && evs[i].isTry && evs[j].isTry ==>
                         evs[i].attempt.recordAt <= evs[j].attempt.checkAt)
  }

  lemma {:induction false} AttemptWasMade(evs: seq<Event>, t: Try) returns (i: nat)
    requires t in Attempts(evs)
    ensures i < |evs| && evs[i].isTry && t == evs[i].attempt
  {
    var n := |evs| - 1;
    if t in Attempts(evs[..n]) {
      i := AttemptWasMade(evs[..n], t);
    } else {
      i := n;
    }
  }

  lemma {:induction false} AttemptsAreSequential(evs: seq<Event>)
    requires InOrder(evs)
    ensures Sequential(Attempts(evs))
  {
    if evs != [] {
      var n := |evs| - 1;
      AttemptsAreSequential(evs[..n]);
      if evs[n].isTry {
        forall t | t in Attempts(evs[..n])
          ensures t.recordAt <= evs[n].attempt.checkAt
        {
          var i := AttemptWasMade(evs[..n], t);
          assert evs[..n][i] == evs[i];
        }
        SequentialSnoc(Attempts(evs[..n]), evs[n].attempt);
      }
    }
  }

  ghost predicate Bounded(evs: seq<Event>) {
    var tries := Attempts(evs);
    tries != [] ==> Wrong(evs) <= 7 * ((tries[|tries| - 1].recordAt - tries[0].recordAt) / 61 + 1)
  }

  lemma EventsAreBounded(ls: seq<Limiter>, evs: seq<Event>, now: Clock)
    requires |ls| == |evs| + 1 && forall i :: 0 <= i < |evs| ==> Follows(ls[i], evs[i], ls[i + 1])
    requires InOrder(evs) && Reset(ls[0], now) && forall e :: e in evs && e.isTry ==> now <= e.attempt.checkAt
    ensures Bounded(evs)
  {
    var tries := Attempts(evs);
    EventsTally(ls, evs);
    AttemptsAreSequential(evs);
    if tries != [] {
      var i := AttemptWasMade(evs, tries[0]);
      assert evs[i] in evs;
      GuessingIsBounded(ls[0], tries);
    }
  }

  // One operation of the gate on its password limiter.
  lemma LimiterStep(setup: Setup, g: GateState, op: GateOp)
    ensures var (g', reply) := GateStep(setup, g, op);
            && (reply != Accepted ==> Follows(g.limiter, EventOf(op, reply), g'.limiter))
            && (reply == Accepted ==>
                  op.Password? && Checked(g.limiter, op.checkAt).Allowed? && g'.limiter == Recorded(g.limiter, op.recordAt, true))
  {
    match op {
      case Password(_, _, _, _) =>
      case Visit(_, _, _, _, _, _) => NotForPasswords(setup, g, op);
      case Admin(_) => NotForPasswords(setup, g, op);
    }
  }

  lemma NotForPasswords(setup: Setup, g: GateState, op: GateOp)
    requires !op.Password?
    ensures var (g', reply) := GateStep(setup, g, op);
            g'.limiter == g.limiter && reply != BadCredential && reply != Accepted
  {
  }

  // Where counting starts afresh: at the beginning, or right after an accepted password.
  ghost predicate StartsAfresh(setup: Setup, ops: seq<GateOp>, from: nat) {
    from == 0 || (from <= |ops| && AnswerAt(setup, ops, from - 1) == Accepted)
  }

  ghost predicate NoneAccepted(setup: Setup, ops: seq<GateOp>, from: nat) {
    forall i :: from <= i < |ops| ==> AnswerAt(setup, ops, i) != Accepted
  }

  lemma RunStep(setup: Setup, ops: seq<GateOp>, i: nat)
    requires i < |ops|
    ensures Run(setup, ops[..i + 1]) == GateStep(setup, Run(setup, ops[..i]), ops[i]).0
  {
    assert ops[..i + 1][..i] == ops[..i];
  }

  lemma EventFollows(setup: Setup, ops: seq<GateOp>, i: nat)
    requires i < |ops| && AnswerAt(setup, ops, i) != Accepted
    ensures Follows(Run(setup, ops[..i]).limiter, EventOf(ops[i], AnswerAt(setup, ops, i)), Run(setup, ops[..i + 1]).limiter)
  {
    RunStep(setup, ops, i);
    LimiterStep(setup, Run(setup, ops[..i]), ops[i]);
  }

  // The password limiter before each of those operations, and after the last.
  function Limiters(setup: Setup, ops: seq<GateOp>, from: nat): (ls: seq<Limiter>)
    requires from <= |ops|
    ensures |ls| == |ops| - from + 1
    ensures forall i :: 0 <= i < |ls| ==> ls[i] == Run(setup, ops[..from + i]).limiter
  {
    seq(|ops| - from + 1, i requires 0 <= i < |ops| - from + 1 => Run(setup, ops[..from + i]).limiter)
  }

  lemma EventsFollow(setup: Setup, ops: seq<GateOp>, from: nat)
    requires from <= |ops| && NoneAccepted(setup, ops, from)
    ensures var ls, evs := Limiters(setup, ops, from), Events(setup, ops, from);
            forall i :: 0 <= i < |evs| ==> Follows(ls[i], evs[i], ls[i + 1])
  {
    var ls, evs := Limiters(setup, ops, from), Events(setup, ops, from);
    forall i | 0 <= i < |evs|
      ensures Follows(ls[i], evs[i], ls[i + 1])
    {
      EventFollows(setup, ops, from + i);
    }
  }

  lemma AfreshIsReset(setup: Setup, ops: seq<GateOp>, from: nat) returns (now: Clock)
    requires StartsAfresh(setup, ops, from) && from <= |ops| && InOrder(Events(setup, ops, 0))
    ensures Reset(Limiters(setup, ops, from)[0], now)
    ensures forall e :: e in Events(setup, ops, from) && e.isTry ==> now <= e.attempt.checkAt
  {
    now := 0;
    if from > 0 {
      RunStep(setup, ops, from - 1);
      LimiterStep(setup, Run(setup, ops[..from - 1]), ops[from - 1]);
      now := ops[from - 1].recordAt;
      var all, evs := Events(setup, ops, 0), Events(setup, ops, from);
      assert all[from - 1].isTry && all[from - 1].attempt.recordAt == now;
      assert forall i :: 0 <= i < |evs| ==> evs[i] == all[from + i];
    }
  }

  lemma LaterInOrder(setup: Setup, ops: seq<GateOp>, from: nat)
    requires from <= |ops| && InOrder(Events(setup, ops, 0))
    ensures InOrder(Events(setup, ops, from))
  {
    var all, evs := Events(setup, ops, 0), Events(setup, ops, from);
    assert forall i :: 0 <= i < |evs| ==> evs[i] == all[from + i];
  }

  // Between two accepted passwords, whatever else happens, at most 7 * (floor(T / 61) + 1)
  // wrong ones are compared in the T seconds from the first attempt.
  lemma PasswordGuessingIsBounded(setup: Setup, ops: seq<GateOp>, from: nat)
    requires from <= |ops| && InOrder(Events(setup, ops, 0))
    requires StartsAfresh(setup, ops, from) && NoneAccepted(setup, ops, from)
    ensures Bounded(Events(setup, ops, from))
  {
    var now := AfreshIsReset(setup, ops, from);
    LaterInOrder(setup, ops, from);
    EventsFollow(setup, ops, from);
    EventsAreBounded(Limiters(setup, ops, from), Events(setup, ops, from), now);
  }
}
