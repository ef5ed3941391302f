// One rotating refresh token shared by many callers (native/src/login.rs). Times are unix
// seconds.
module OidcRefresh {
  import opened Wrappers

  const ACCESS_TOKEN_EXPIRY_SKEW_SECS: nat := 30

  datatype TokenResponse = TokenResponse(
    access: string,
    refresh: Option<string>,
    expiresIn: Option<nat>,
    refreshExpiresIn: Option<nat>)

  datatype StoredToken = StoredToken(
    access: string,
    refresh: Option<string>,
    accessExpiresAt: Option<nat>,
    refreshExpiresAt: Option<nat>,
    issuer: string,
    clientId: string)
  {
    // Expired, or nearly; an unknown expiry is stale.
    predicate IsStale(now: nat) {
      accessExpiresAt.None? || now + ACCESS_TOKEN_EXPIRY_SKEW_SECS >= accessExpiresAt.value
    }

    function UsableRefreshToken(now: nat): Option<string> {
      if refresh.None? || refresh.value == "" then None
      else if refreshExpiresAt.Some? && now >= refreshExpiresAt.value then None
      else refresh
    }

    // The store after a refresh answered with `tok`: an omitted refresh token is kept.
    function AfterRefresh(tok: TokenResponse, now: nat): StoredToken {
      var next := FromTokenResponse(tok, issuer, clientId, now);
      if next.refresh.None? || next.refresh.value == "" then
        next.(refresh := refresh, refreshExpiresAt := refreshExpiresAt)
      else next
    }
  }

  function At(now: nat, secs: Option<nat>): Option<nat> {
    if secs.Some? then Some(now + secs.value) else None
  }

  function FromTokenResponse(tok: TokenResponse, issuer: string, clientId: string, now: nat): StoredToken {
    StoredToken(tok.access, tok.refresh, At(now, tok.expiresIn), At(now, tok.refreshExpiresIn), issuer, clientId)
  }

  // ---- one call, from the lock to its release ------------------------------------------------

  // Retry helps, or it does not; the message names the fix.
  datatype ResolveError = Definitive | Transient

  datatype IdpAnswer = Granted(tok: TokenResponse) | Rejected | Unavailable

  // What the stored login says before the IdP is asked: an answer, or a token to refresh.
  datatype Decision = Answer(r: Result<string, ResolveError>) | Ask(refreshToken: string)

  function Decide(store: Option<StoredToken>, now: nat): Decision {
    if store.None? then Answer(Err(Definitive))
    else if !store.value.IsStale(now) then Answer(Ok(store.value.access))
    else match store.value.UsableRefreshToken(now)
         case None => Answer(Err(Definitive))
         case Some(t) => Ask(t)
  }

  class Login {
    var store: Option<StoredToken>

    constructor (store: Option<StoredToken>)
      ensures this.store == store
    {
      this.store := store;
    }

    // `envToken` and `tokenFile` (Err: momentarily unreadable) win over the stored login;
    // `answer` is the IdP's, used only when it is asked.
    method ResolveOidcTokenClassified(envToken: Option<string>, tokenFile: Result<Option<string>, ()>,
                                      now: nat, answer: IdpAnswer, saveOk: bool)
      returns (r: Result<string, ResolveError>, asked: Option<string>)
      modifies this
      ensures envToken.Some? ==> r == Ok(envToken.value)
      ensures envToken.None? && tokenFile.Err? ==> r == Err(Transient)
      ensures envToken.None? && tokenFile.Ok? && tokenFile.value.Some? ==> r == Ok(tokenFile.value.value)
      ensures var own := envToken.None? && tokenFile == Ok(None);
              && (asked.Some? <==> own && Decide(old(store), now).Ask?)
              && (asked.Some? ==> asked == Some(Decide(old(store), now).refreshToken))
              && (own && asked.None? ==> r == Decide(old(store), now).r)
      ensures if asked.Some? && answer.Granted? && saveOk then
                store == Some(old(store).value.AfterRefresh(answer.tok, now)) && r == Ok(answer.tok.access)
              else store == old(store)
      ensures asked.Some? ==> (r == Err(Transient) <==> answer.Unavailable?)
      ensures asked.Some? && (answer.Rejected? || (answer.Granted? && !saveOk)) ==> r == Err(Definitive)
    {
      asked := None;
      if envToken.Some? {
        return Ok(envToken.value), asked;
      }
      if tokenFile.Err? {
        return Err(Transient), asked;
      }
      if tokenFile.value.Some? {
        return Ok(tokenFile.value.value), asked;
      }
      if store.None? {
        return Err(Definitive), asked;
      }
      var stored := store.value;
      if !stored.IsStale(now) {
        return Ok(stored.access), asked;
      }
      asked := stored.UsableRefreshToken(now);
      if asked.None? {
        return Err(Definitive), asked;
      }
      match answer {
        case Unavailable => return Err(Transient), asked;
        case Rejected => return Err(Definitive), asked;
        case Granted(tok) =>
          var next := stored.AfterRefresh(tok, now);
          if !saveOk {
            return Err(Definitive), asked;
          }
          store := Some(next);
          r := Ok(next.access);
      }
    }
  }

  // ---- what the two lifetimes mean ---------------------------------------------------------------

  // The access token is good for another half minute.
  predicate Lasts(expiresAt: Option<nat>, now: nat) {
    expiresAt.Some? && now + 30 < expiresAt.value
  }

  predicate Refreshable(refresh: Option<string>, expiresAt: Option<nat>, now: nat) {
    refresh.Some? && refresh.value != "" && (expiresAt.None? || now < expiresAt.value)
  }

  // A call without tokens from outside answers from the stored login while its access token
  // lasts, else asks with its refresh token while that can be used, else needs a new login.
  lemma DecideIff(stored: StoredToken, now: nat)
    ensures Decide(Some(stored), now) ==
            if Lasts(stored.accessExpiresAt, now) then Answer(Ok(stored.access))
            else if Refreshable(stored.refresh, stored.refreshExpiresAt, now) then Ask(stored.refresh.value)
            else Answer(Err(Definitive))
  {
  }

  // Two calls, the first refreshed by `tok` at `t` and saved. From then on the second is
  // answered with the new access token, unasked, exactly while more than 30 seconds of its
  // own lifetime are left; after that it asks with the new refresh token exactly while that
  // one's lifetime lasts, or with the old one under its old expiry if none was handed out.
  method CallAgain(login: Login, t: nat, tok: TokenResponse, u: nat, answer: IdpAnswer, saveOk: bool)
    returns (first: Result<string, ResolveError>, again: Result<string, ResolveError>, asked: Option<string>)
    requires login.store.Some? && !Lasts(login.store.value.accessExpiresAt, t)
    requires Refreshable(login.store.value.refresh, login.store.value.refreshExpiresAt, t) && t <= u
    modifies login
    ensures first == Ok(tok.access)
    ensures var lasts := tok.expiresIn.Some? && u + 30 < t + tok.expiresIn.value;
            var isNew := tok.refresh.Some? && tok.refresh.value != "";
            var refresh := if isNew then tok.refresh else old(login.store).value.refresh;
            var usable := if isNew then tok.refreshExpiresIn.None? || u < t + tok.refreshExpiresIn.value
                          else old(login.store).value.refreshExpiresAt.None? || u < old(login.store).value.refreshExpiresAt.value;
            && (lasts ==> again == Ok(tok.access) && asked == None)
            && (!lasts && usable ==> asked == refresh)
            && (!lasts && !usable ==> again == Err(Definitive) && asked == None)
    ensures login.store.Some? && login.store.value.issuer == old(login.store).value.issuer
            && login.store.value.clientId == old(login.store).value.clientId
  {
    var stored := login.store.value;
    DecideIff(stored, t);
    var asked1;
    first, asked1 := login.ResolveOidcTokenClassified(None, Ok(None), t, Granted(tok), true);
    DecideIff(login.store.value, u);
    again, asked := login.ResolveOidcTokenClassified(None, Ok(None), u, answer, saveOk);
  }

  // A stored refresh token survives every refresh that does not replace it by another.
  lemma RefreshTokenIsNeverDropped(stored: StoredToken, tok: TokenResponse, now: nat)
    requires stored.refresh.Some? && stored.refresh.value != ""
    ensures var next := stored.AfterRefresh(tok, now).refresh;
            next.Some? && next.value != "" && (next == stored.refresh || next == tok.refresh)
  {
  }

  // ---- any number of callers, in any interleaving ----------------------------------------------

  // The refresh mutex is held from Locked to the end of Answered.
  datatype Caller =
    | Idle
    | Locked
    | Asking(stored: StoredToken, token: string, now: nat)
    | Answered(stored: StoredToken, token: string, tok: TokenResponse, now: nat)
    | Done(r: Result<string, ResolveError>)

  // The IdP retires a refresh token when it hands out another. `shown` lists the tokens it
  // was shown, `misused` whether one of them had been retired before.
  datatype Idp = Idp(retired: set<string>, shown: seq<string>, misused: bool)

  datatype System = System(store: Option<StoredToken>, holder: Option<nat>, callers: seq<Caller>, idp: Idp)

  datatype Step =
    | Lock(c: nat)                      // wait for the mutex and get it
    | Read(c: nat, now: nat)            // read the store and decide
    | Exchange(c: nat, answer: IdpAnswer)   // the IdP sees the token and answers
    | Lose(c: nat, tok: TokenResponse)  // the IdP answers, and the answer is lost
    | Save(c: nat)                      // write the new store and return
    | SaveFails(c: nat)                 // the store cannot be written
    | Return(c: nat)                    // the caller comes back later

  // The IdP's rule: a new refresh token is one it never retired.
  predicate Honest(idp: Idp, token: string, answer: IdpAnswer) {
    answer.Granted? && Replaces(token, answer.tok) ==> answer.tok.refresh.value !in idp.retired
  }

  predicate Replaces(token: string, tok: TokenResponse) {
    tok.refresh.Some? && tok.refresh.value != "" && tok.refresh.value != token
  }

  function Shown(idp: Idp, token: string, answer: IdpAnswer): Idp {
    Idp(if answer.Granted? && Replaces(token, answer.tok) then idp.retired + {token} else idp.retired,
        idp.shown + [token],
        idp.misused || token in idp.retired)
  }

  // One step; a step that is not possible now changes nothing. With `mutex` off, locking
  // always succeeds.
  function Stepped(s: System, step: Step, mutex: bool): System {
    if step.c >= |s.callers| then s
    else
      var c := step.c;
      var caller := s.callers[c];
      match step
      case Lock(_) =>
        if caller.Idle? && (s.holder.None? || !mutex) then s.(holder := Some(c), callers := s.callers[c := Locked]) else s
      case Read(_, now) =>
        if !caller.Locked? then s
        else
          (match Decide(s.store, now)
           case Answer(r) => s.(holder := None, callers := s.callers[c := Done(r)])
           case Ask(token) => s.(callers := s.callers[c := Asking(s.store.value, token, now)]))
      case Exchange(_, answer) =>
        if !caller.Asking? || !Honest(s.idp, caller.token, answer) then s
        else
          var idp := Shown(s.idp, caller.token, answer);
          (match answer
           case Granted(tok) => s.(idp := idp, callers := s.callers[c := Answered(caller.stored, caller.token, tok, caller.now)])
           case Rejected => s.(idp := idp, holder := None, callers := s.callers[c := Done(Err(Definitive))])
           case Unavailable => s.(idp := idp, holder := None, callers := s.callers[c := Done(Err(Transient))]))
      case Lose(_, tok) =>
        if !caller.Asking? || !Honest(s.idp, caller.token, Granted(tok)) then s
        else
          s.(idp := Shown(s.idp, caller.token, Granted(tok)), holder := None, callers := s.callers[c := Done(Err(Transient))])
      case Save(_) =>
        if !caller.Answered? then s
        else
          s.(store := Some(caller.stored.AfterRefresh(caller.tok, caller.now)), holder := None,
          callers := s.callers[c := Done(Ok(caller.tok.access))])
      case SaveFails(_) =>
        if !caller.Answered? then s
        else s.(holder := None, callers := s.callers[c := Done(Err(Definitive))])
      case Return(_) =>
        if caller.Done? then s.(callers := s.callers[c := Idle]) else s
  }

  function Run(start: System, steps: seq<Step>, mutex: bool): System {
    if steps == [] then start else Stepped(Run(start, steps[..|steps| - 1], mutex), steps[|steps| - 1], mutex)
  }

  function Start(store: Option<StoredToken>, callers: nat): System {
    System(store, None, seq(callers, _ => Idle), Idp({}, [], false))
  }

  // The refresh token this store would show next, if any.
  predicate LiveToken(refresh: Option<string>, idp: Idp) {
    refresh.Some? && refresh.value != "" ==> refresh.value !in idp.retired
  }

  // One caller at most is inside, it works on what is stored, and what is stored (or about
  // to be) has not been retired.
  ghost predicate CallerSound(s: System, c: nat)
    requires c < |s.callers|
  {
    match s.callers[c]
    case Idle => s.holder != Some(c)
    case Done(_) => s.holder != Some(c)
    case Locked => s.holder == Some(c)
    case Asking(stored, token, now) => s.holder == Some(c) && s.store == Some(stored) && Decide(s.store, now) == Ask(token)
    case Answered(stored, token, tok, now) =>
      && s.holder == Some(c) && s.store == Some(stored) && Decide(s.store, now) == Ask(token)
      && LiveToken(stored.AfterRefresh(tok, now).refresh, s.idp)
      && (Replaces(token, tok) ==> token in s.idp.retired)
  }

  ghost predicate Sound(s: System) {
    && !s.idp.misused
    && (forall c :: 0 <= c < |s.callers| ==> CallerSound(s, c))
    && (s.holder.Some? ==> s.holder.value < |s.callers|)
    && (s.store.Some? && !(s.holder.Some? && s.callers[s.holder.value].Answered?) ==> LiveToken(s.store.value.refresh, s.idp))
  }

  // `step` loses an answer that replaces the refresh token, on the way or in the save.
  predicate Loses(s: System, step: Step) {
    step.c < |s.callers| &&
    var caller := s.callers[step.c];
    match step
    case Lose(_, tok) => caller.Asking? && Replaces(caller.token, tok)
    case SaveFails(_) => caller.Answered? && Replaces(caller.token, caller.tok)
    case _ => false
  }

  // No step of the run does.
  predicate Harmless(start: System, steps: seq<Step>) {
    steps == [] ||
    (Harmless(start, steps[..|steps| - 1]) && !Loses(Run(start, steps[..|steps| - 1], true), steps[|steps| - 1]))
  }

  lemma StepKeepsSound(s: System, step: Step)
    requires Sound(s) && !Loses(s, step)
    ensures Sound(Stepped(s, step, true))
  {
    var t := Stepped(s, step, true);
    if step.c < |s.callers| {
      assert CallerSound(s, step.c);
      forall c | 0 <= c < |t.callers|
        ensures CallerSound(t, c)
      {
        assert CallerSound(s, c);
      }
    }
  }

  lemma {:induction false} RunKeepsSound(start: System, steps: seq<Step>)
    requires Sound(start) && Harmless(start, steps)
    ensures Sound(Run(start, steps, true))
  {
    if steps != [] {
      var n := |steps| - 1;
      RunKeepsSound(start, steps[..n]);
      StepKeepsSound(Run(start, steps[..n], true), steps[n]);
    }
  }

  // However many callers, in whatever interleaving, while no answer that replaces the
  // refresh token is lost: a retired one is never shown.
  lemma RetiredTokenIsNeverShown(store: Option<StoredToken>, callers: nat, steps: seq<Step>)
    requires Harmless(Start(store, callers), steps)
    ensures Sound(Run(Start(store, callers), steps, true))
    ensures !Run(Start(store, callers), steps, true).idp.misused
  {
    RunKeepsSound(Start(store, callers), steps);
  }

  // ---- which losses do harm ------------------------------------------------------------------

  // An answer can be lost here: it is under way, or it is about to be saved.
  predicate CanLose(s: System, step: Step) {
    step.c < |s.callers| &&
    var caller := s.callers[step.c];
    match step
    case Lose(_, tok) => caller.Asking? && Honest(s.idp, caller.token, Granted(tok))
    case SaveFails(_) => caller.Answered?
    case _ => false
  }

  lemma {:induction false} LosslessIsHarmless(start: System, steps: seq<Step>)
    requires forall i :: 0 <= i < |steps| ==> !steps[i].Lose? && !steps[i].SaveFails?
    ensures Harmless(start, steps)
  {
    if steps != [] {
      LosslessIsHarmless(start, steps[..|steps| - 1]);
    }
  }

  // A caller that comes back while a retired token is stored and the mutex is free.
  lemma ComesBack(s: System, c: nat, token: string, now: nat) returns (steps: seq<Step>)
    requires c < |s.callers| && s.callers[c].Done? && s.holder.None?
    requires Decide(s.store, now) == Ask(token) && token in s.idp.retired
    ensures Harmless(s, steps) && Run(s, steps, true).idp.misused
  {
    var one, two, three := [Return(c)], [Return(c), Lock(c)], [Return(c), Lock(c), Read(c, now)];
    steps := three + [Exchange(c, Rejected)];
    RunSnoc(s, [], Return(c), true);
    assert two == one + [Lock(c)];
    RunSnoc(s, one, Lock(c), true);
    assert three == two + [Read(c, now)];
    RunSnoc(s, two, Read(c, now), true);
    assert Run(s, three, true).callers[c] == Asking(s.store.value, token, now);
    RunSnoc(s, three, Exchange(c, Rejected), true);
    LosslessIsHarmless(s, steps);
  }

  // Whatever the state: after a loss, no run without a further one ever shows a retired
  // token exactly when the lost answer did not replace the refresh token.
  lemma LossHarmsIff(s: System, step: Step)
    requires Sound(s) && CanLose(s, step)
    ensures var after := Stepped(s, step, true);
            (forall steps :: Harmless(after, steps) ==> !Run(after, steps, true).idp.misused) <==> !Loses(s, step)
  {
    var after, c := Stepped(s, step, true), step.c;
    assert CallerSound(s, c);
    if Loses(s, step) {
      var caller := s.callers[c];
      var steps := ComesBack(after, c, caller.token, caller.now);
    } else {
      StepKeepsSound(s, step);
      forall steps | Harmless(after, steps)
        ensures !Run(after, steps, true).idp.misused
      {
        RunKeepsSound(after, steps);
      }
    }
  }

  function ResultOf(answer: IdpAnswer): Result<string, ResolveError> {
    match answer
    case Granted(tok) => Ok(tok.access)
    case Rejected => Err(Definitive)
    case Unavailable => Err(Transient)
  }

  ghost predicate CallEnded(s: System, c: nat, now: nat, answer: IdpAnswer, end: System) {
    var d := Decide(s.store, now);
    && c < |s.callers| == |end.callers| && end.holder.None?
    && (d.Answer? ==> end.store == s.store && end.idp == s.idp && end.callers[c] == Done(d.r))
    && (d.Ask? ==>
          && end.idp == Shown(s.idp, d.refreshToken, answer)
          && end.callers[c] == Done(ResultOf(answer))
          && end.store == if answer.Granted? then Some(s.store.value.AfterRefresh(answer.tok, now)) else s.store)
  }

  // A call nobody interrupts ends as ResolveOidcTokenClassified says it does.
  lemma UninterruptedCall(s: System, c: nat, now: nat, answer: IdpAnswer)
    requires c < |s.callers| && s.callers[c].Idle? && s.holder.None?
    requires Decide(s.store, now).Ask? ==> Honest(s.idp, Decide(s.store, now).refreshToken, answer)
    ensures CallEnded(s, c, now, answer, Run(s, [Lock(c), Read(c, now), Exchange(c, answer), Save(c)], true))
  {
    var one, two := [Lock(c)], [Lock(c), Read(c, now)];
    var three := [Lock(c), Read(c, now), Exchange(c, answer)];
    RunSnoc(s, [], Lock(c), true);
    assert two == one + [Read(c, now)];
    RunSnoc(s, one, Read(c, now), true);
    assert three == two + [Exchange(c, answer)];
    RunSnoc(s, two, Exchange(c, answer), true);
    assert [Lock(c), Read(c, now), Exchange(c, answer), Save(c)] == three + [Save(c)];
    RunSnoc(s, three, Save(c), true);
  }

  // ---- both assumptions are needed ---------------------------------------------------------------

  lemma RunSnoc(start: System, steps: seq<Step>, step: Step, mutex: bool)
    ensures Run(start, steps + [step], mutex) == Stepped(Run(start, steps, mutex), step, mutex)
  {
    assert (steps + [step])[..|steps|] == steps;
  }

  const STALE := StoredToken("a0", Some("r0"), Some(0), None, "issuer", "client")
  const ROTATED := TokenResponse("a1", Some("r1"), Some(300), None)

  // Without the mutex two callers read the same token, and the second shows it retired.
  lemma WithoutTheMutex()
    ensures var steps := [Lock(0), Lock(1), Read(0, 100), Read(1, 100), Exchange(0, Granted(ROTATED)), Exchange(1, Rejected)];
            (forall i :: 0 <= i < |steps| ==> !steps[i].Lose? && !steps[i].SaveFails?) && Run(Start(Some(STALE), 2), steps, false).idp.misused
  {
    var s0 := Start(Some(STALE), 2);
    var both := [Lock(0), Lock(1), Read(0, 100), Read(1, 100)];
    var s4 := Run(s0, both, false);
    BothRead(s0);
    var rest := [Exchange(0, Granted(ROTATED)), Exchange(1, Rejected)];
    RunSplit(s0, both, rest, false);
    RunSnoc(s4, [], rest[0], false);
    assert rest == [rest[0]] + [rest[1]];
    RunSnoc(s4, [rest[0]], rest[1], false);
    assert both + rest == [Lock(0), Lock(1), Read(0, 100), Read(1, 100), Exchange(0, Granted(ROTATED)), Exchange(1, Rejected)];
  }

  lemma BothRead(s0: System)
    requires s0 == Start(Some(STALE), 2)
    ensures Run(s0, [Lock(0), Lock(1), Read(0, 100), Read(1, 100)], false)
         == System(Some(STALE), Some(1), [Asking(STALE, "r0", 100), Asking(STALE, "r0", 100)], Idp({}, [], false))
  {
    RunSnoc(s0, [], Lock(0), false);
    assert [Lock(0), Lock(1)] == [Lock(0)] + [Lock(1)];
    RunSnoc(s0, [Lock(0)], Lock(1), false);
    var s2 := Run(s0, [Lock(0), Lock(1)], false);
    assert s2.callers == [Locked, Locked];
    assert [Lock(0), Lock(1), Read(0, 100)] == [Lock(0), Lock(1)] + [Read(0, 100)];
    RunSnoc(s0, [Lock(0), Lock(1)], Read(0, 100), false);
    assert [Lock(0), Lock(1), Read(0, 100), Read(1, 100)] == [Lock(0), Lock(1), Read(0, 100)] + [Read(1, 100)];
    RunSnoc(s0, [Lock(0), Lock(1), Read(0, 100)], Read(1, 100), false);
  }

  // With it, one lost answer is enough: the retired token stays stored and is shown again.
  lemma AfterALostAnswer()
    ensures var steps := [Lock(0), Read(0, 100), Lose(0, ROTATED), Return(0), Lock(0), Read(0, 200), Exchange(0, Rejected)];
            Run(Start(Some(STALE), 1), steps, true).idp.misused
  {
    var s0 := Start(Some(STALE), 1);
    var first := [Lock(0), Read(0, 100), Lose(0, ROTATED), Return(0)];
    var again := [Lock(0), Read(0, 200), Exchange(0, Rejected)];
    LostOnce(s0);
    var s4 := Run(s0, first, true);
    RunSplit(s0, first, again, true);
    assert first + again == [Lock(0), Read(0, 100), Lose(0, ROTATED), Return(0), Lock(0), Read(0, 200), Exchange(0, Rejected)];
    RunSnoc(s4, [], Lock(0), true);
    assert [Lock(0), Read(0, 200)] == [Lock(0)] + [Read(0, 200)];
    RunSnoc(s4, [Lock(0)], Read(0, 200), true);
    var s6 := Run(s4, [Lock(0), Read(0, 200)], true);
    assert s6.callers == [Asking(STALE, "r0", 200)] && "r0" in s6.idp.retired;
    assert again == [Lock(0), Read(0, 200)] + [Exchange(0, Rejected)];
    RunSnoc(s4, [Lock(0), Read(0, 200)], Exchange(0, Rejected), true);
  }

  lemma LostOnce(s0: System)
    requires s0 == Start(Some(STALE), 1)
    ensures Run(s0, [Lock(0), Read(0, 100), Lose(0, ROTATED), Return(0)], true)
         == System(Some(STALE), None, [Idle], Idp({"r0"}, ["r0"], false))
  {
    var s2 := Run(s0, [Lock(0), Read(0, 100)], true);
    assert [Lock(0), Read(0, 100)] == [Lock(0)] + [Read(0, 100)];
    RunSnoc(s0, [Lock(0)], Read(0, 100), true);
    RunSnoc(s0, [], Lock(0), true);
    assert s2.callers == [Asking(STALE, "r0", 100)];
    var s3 := Run(s0, [Lock(0), Read(0, 100), Lose(0, ROTATED)], true);
    assert [Lock(0), Read(0, 100), Lose(0, ROTATED)] == [Lock(0), Read(0, 100)] + [Lose(0, ROTATED)];
    RunSnoc(s0, [Lock(0), Read(0, 100)], Lose(0, ROTATED), true);
    assert s3.callers == [Done(Err(Transient))];
    assert [Lock(0), Read(0, 100), Lose(0, ROTATED), Return(0)] == [Lock(0), Read(0, 100), Lose(0, ROTATED)] + [Return(0)];
    RunSnoc(s0, [Lock(0), Read(0, 100), Lose(0, ROTATED)], Return(0), true);
  }

  lemma {:induction false} RunSplit(start: System, one: seq<Step>, two: seq<Step>, mutex: bool)
    ensures Run(start, one + two, mutex) == Run(Run(start, one, mutex), two, mutex)
  {
    if two == [] {
      assert one + two == one;
    } else {
      var n := |two| - 1;
      assert (one + two)[..|one + two| - 1] == one + two[..n];
      RunSplit(start, one, two[..n], mutex);
    }
  }
}
