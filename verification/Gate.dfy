// The local-auth gate: one credential, two failure limiters and the share-link store
// (native/src/local_auth.rs, `LocalAuthGate`).
module Gate {
  import opened Wrappers
  import Strings
  import opened LinkText
  import opened RateLimiting
  import opened ShareLinks
  import opened LinkFile

  // SHA-256 over the salt and the password.
  datatype Credential = Credential(username: string, salt: string, hash: Digest)
  {
    predicate VerifyPassword(attempt: string) {
      Sha256(salt + attempt) == hash
    }
  }

  // Fixed at start-up: the credential, if any, and whether links can be accepted at all.
  datatype Setup = Setup(credential: Option<Credential>, hasStore: bool)

  datatype GateState = GateState(limiter: Limiter, linkLimiter: Limiter, links: seq<ShareLink>)

  datatype GateOp =
      // A password attempt; `username` is None in the text-challenge mode.
    | Password(checkAt: Clock, recordAt: Clock, username: Option<string>, password: string)
      // An HTTP request without an Authorization header.
    | Visit(checkAt: Clock, recordAt: Clock, now: U64, request: string, session: string, io: Io)
      // A mint or a revocation.
    | Admin(op: Op)

  datatype GateReply =
    | Accepted
    | BadCredential
    | PasswordRateLimited(retryAfterSecs: U64)
    | NotPresented
    | Authenticated(id: string)
    | Redirect(response: string, id: string)
    | Rejected(why: LinkRejection)
    | AdminReply(reply: Reply)

  datatype Offer = Offer(token: string, via: Presentation, stripped: Option<string>)

  // The secret a request head presents: the URL parameter first, else the cookie.
  function Presented(request: string): Option<Offer> {
    match ParseRequestHead(request)
    case None => None
    case Some(head) =>
      match TokenInTarget(head.target)
      case Some(found) => Some(Offer(found.0, Query, Some(found.1)))
      case None =>
        match SessionInCookies(head.headers)
        case Some(session) => Some(Offer(session, Cookie, None))
        case None => None
  }

  lemma OfferOf(request: string, head: RequestHead)
    requires ParseRequestHead(request) == Some(head)
    ensures TokenInTarget(head.target).Some? ==>
              Presented(request) == Some(Offer(TokenInTarget(head.target).value.0, Query, Some(TokenInTarget(head.target).value.1)))
    ensures TokenInTarget(head.target).None? && SessionInCookies(head.headers).Some? ==>
              Presented(request) == Some(Offer(SessionInCookies(head.headers).value, Cookie, None))
  {
  }

  // A request whose target carries a link parameter presents that parameter's token.
  lemma UrlIsPresented(r: Request, path: string, pairs: seq<string>, i: nat, token: string)
    requires r.WellFormed() && r.target == Rebuilt(path, pairs)
    requires '?' !in path && i < |pairs| && forall p :: p in pairs ==> '&' !in p
    requires pairs[i] == LINK_QUERY_PARAM + ['='] + token
    requires forall j :: 0 <= j < i ==> Key(pairs[j]) != LINK_QUERY_PARAM
    ensures Presented(r.Bytes()) == Some(Offer(token, Query, Some(Rebuilt(path, Others(pairs)))))
  {
    RequestIsRead(r);
    BuiltTargetIsRead(path, pairs, i, token);
    OfferOf(r.Bytes(), RequestHead(r.verb, r.target, Trimmed(r.headers)));
  }

  // A later request that sends back the cookie a redirect set, among any others, presents
  // that very session.
  lemma CookieIsPresented(r: Request, session: string, maxAge: U64, h: nat, pieces: seq<string>, i: nat)
    requires r.WellFormed() && TokenInTarget(r.target).None? && LooksLikeLinkToken(session)
    requires h < |r.headers| && Strings.EqIgnoreAsciiCase(Strings.Trim(r.headers[h].0), "cookie")
    requires forall j :: 0 <= j < h ==> SessionInHeader(Trimmed(r.headers)[j]).None?
    requires Strings.Trim(r.headers[h].1) == Strings.Join(pieces, ";") && i < |pieces| && forall p :: p in pieces ==> ';' !in p
    requires Strings.Trim(pieces[i]) == CookiePair(SetCookie(session, maxAge))
    requires forall j :: 0 <= j < i ==> SessionPiece(pieces[j]).None?
    ensures Presented(r.Bytes()) == Some(Offer(session, Cookie, None))
  {
    RequestIsRead(r);
    SessionComesBack(session, maxAge, Trimmed(r.headers), h, pieces, i);
    OfferOf(r.Bytes(), RequestHead(r.verb, r.target, Trimmed(r.headers)));
  }

  predicate CredentialMatches(setup: Setup, username: Option<string>, password: string) {
    && setup.credential.Some?
    && (username.Some? ==> username.value == setup.credential.value.username)
    && setup.credential.value.VerifyPassword(password)
  }

  function PasswordStep(setup: Setup, limiter: Limiter, op: GateOp): (Limiter, GateReply)
    requires op.Password?
  {
    match Checked(limiter, op.checkAt)
    case Locked(secs) => (limiter, PasswordRateLimited(secs))
    case Allowed =>
      var ok := CredentialMatches(setup, op.username, op.password);
      (Recorded(limiter, op.recordAt, ok), if ok then Accepted else BadCredential)
  }

  // What the store's answer to `offer` becomes: a redirect for the URL form, else a pass.
  function LinkReply(offer: Offer, reply: Reply): GateReply {
    match reply
    case RedeemedOk(r) =>
      if offer.stripped.Some? && r.session.Some? then
        Redirect(LinkRedirect(offer.stripped.value, r.session.value, r.remainingSecs), r.id)
      else Authenticated(r.id)
    case Refused(why) => Rejected(why)
    case _ => Rejected(Store)
  }

  // Only a refused URL token is charged.
  function Charge(limiter: Limiter, offer: Offer, recordAt: Clock, reply: Reply): Limiter {
    if offer.via == Query && !reply.RedeemedOk? then Recorded(limiter, recordAt, false) else limiter
  }

  // `check_share_link_at` on the link limiter and the store.
  function VisitStep(setup: Setup, limiter: Limiter, links: seq<ShareLink>, op: GateOp): (Limiter, seq<ShareLink>, GateReply)
    requires op.Visit?
  {
    if !setup.hasStore || Presented(op.request).None? then (limiter, links, NotPresented)
    else
      var offer := Presented(op.request).value;
      if offer.via == Query && Checked(limiter, op.checkAt).Locked? then
        (limiter, links, Rejected(RateLimited(Checked(limiter, op.checkAt).retryAfterSecs)))
      else Redemption(limiter, links, offer, op.recordAt, op.now, op.session, op.io)
  }

  // The store's part of it.
  function Redemption(limiter: Limiter, links: seq<ShareLink>, offer: Offer, recordAt: Clock, now: U64, session: string, io: Io)
    : (Limiter, seq<ShareLink>, GateReply)
  {
    var (file, reply, _) := StoreStep(links, Redeem(now, offer.token, offer.via, session, io));
    (Charge(limiter, offer, recordAt, reply), file, LinkReply(offer, reply))
  }

  // Redeeming either succeeds or is refused, and the lockout is never the store's reason.
  lemma RedeemAnswers(links: seq<ShareLink>, op: Op)
    requires op.Redeem?
    ensures StoreStep(links, op).1.RedeemedOk? || StoreStep(links, op).1.Refused?
    ensures StoreStep(links, op).1.Refused? ==> !StoreStep(links, op).1.why.RateLimited?
  {
  }

  function GateStep(setup: Setup, g: GateState, op: GateOp): (GateState, GateReply) {
    match op
    case Password(_, _, _, _) =>
      var (limiter, reply) := PasswordStep(setup, g.limiter, op);
      (g.(limiter := limiter), reply)
    case Visit(_, _, _, _, _, _) =>
      var (limiter, links, reply) := VisitStep(setup, g.linkLimiter, g.links, op);
      (g.(linkLimiter := limiter, links := links), reply)
    case Admin(store) =>
      var (links, reply, _) := StoreStep(g.links, store);
      (g.(links := links), AdminReply(reply))
  }

  class LocalAuthGate {
    const setup: Setup
    const limiter: RateLimiter
    const linkLimiter: RateLimiter
    const store: LinkStore

    ghost predicate Valid() {
      limiter != linkLimiter
    }

    ghost function State(): GateState
      reads limiter, linkLimiter, store
    {
      GateState(limiter.State(), linkLimiter.State(), store.file)
    }

    constructor (setup: Setup)
      ensures Valid() && this.setup == setup
      ensures State() == GateState(FRESH, FRESH, [])
      ensures fresh(limiter) && fresh(linkLimiter) && fresh(store)
    {
      this.setup := setup;
      limiter := new RateLimiter();
      linkLimiter := new RateLimiter();
      store := new LinkStore();
    }

    // `verify`, and `verify_password_only` when no username was collected.
    method Verify(checkAt: Clock, recordAt: Clock, username: Option<string>, password: string) returns (reply: GateReply)
      requires Valid()
      modifies limiter
      ensures (State(), reply) == GateStep(setup, old(State()), Password(checkAt, recordAt, username, password))
    {
      var v := limiter.Check(checkAt);
      if v.Locked? {
        return PasswordRateLimited(v.retryAfterSecs);
      }
      var ok := CredentialMatches(setup, username, password);
      limiter.Record(recordAt, ok);
      reply := if ok then Accepted else BadCredential;
    }

    method CheckShareLinkAt(checkAt: Clock, recordAt: Clock, now: U64, request: string, session: string, io: Io)
      returns (reply: GateReply)
      requires Valid()
      modifies linkLimiter, store
      ensures (State(), reply) == GateStep(setup, old(State()), Visit(checkAt, recordAt, now, request, session, io))
    {
      if !setup.hasStore {
        return NotPresented;
      }
      var presented := PresentedBy(request);
      if presented.None? {
        return NotPresented;
      }
      var offer := presented.value;
      if offer.via == Query {
        var v := linkLimiter.Check(checkAt);
        if v.Locked? {
          return Rejected(RateLimited(v.retryAfterSecs));
        }
      }
      reply := RedeemOffer(offer, recordAt, now, session, io);
    }

    method RedeemOffer(offer: Offer, recordAt: Clock, now: U64, session: string, io: Io) returns (reply: GateReply)
      requires Valid()
      modifies linkLimiter, store
      ensures (linkLimiter.State(), store.file, reply) ==
              Redemption(old(linkLimiter.State()), old(store.file), offer, recordAt, now, session, io)
    {
      RedeemAnswers(store.file, Redeem(now, offer.token, offer.via, session, io));
      var redeemed := store.RedeemAt(now, offer.token, offer.via, session, io);
      if redeemed.Refused? {
        if offer.via == Query {
          linkLimiter.Record(recordAt, false);
        }
        return Rejected(redeemed.why);
      }
      var r := redeemed.link;
      if offer.stripped.Some? && r.session.Some? {
        return Redirect(LinkRedirect(offer.stripped.value, r.session.value, r.remainingSecs), r.id);
      }
      reply := Authenticated(r.id);
    }
  }

  // The head is parsed, the URL parameter tried, then the cookies.
  method PresentedBy(request: string) returns (offer: Option<Offer>)
    ensures offer == Presented(request)
  {
    var head := ParseRequestHead(request);
    if head.None? {
      return None;
    }
    var found := LinkTokenInTarget(head.value.target);
    if found.Some? {
      return Some(Offer(found.value.0, Query, Some(found.value.1)));
    }
    var cookie := SessionInCookies(head.value.headers);
    if cookie.None? {
      return None;
    }
    offer := Some(Offer(cookie.value, Cookie, None));
  }

  // ---- runs --------------------------------------------------------------------------------

  const IDLE := GateState(FRESH, FRESH, [])

  function Run(setup: Setup, ops: seq<GateOp>): GateState {
    if ops == [] then IDLE else GateStep(setup, Run(setup, ops[..|ops| - 1]), ops[|ops| - 1]).0
  }

  datatype Kind = PasswordKind | UrlKind | CookieKind | OtherKind

  function KindOf(op: GateOp): Kind {
    match op
    case Password(_, _, _, _) => PasswordKind
    case Visit(_, _, _, request, _, _) =>
      if Presented(request).None? then OtherKind
      else if Presented(request).value.via == Query then UrlKind else CookieKind
    case Admin(_) => OtherKind
  }

  // The operations of the given kinds, in order.
  function Only(ops: seq<GateOp>, kinds: set<Kind>): seq<GateOp> {
    if ops == [] then []
    else
      Only(ops[..|ops| - 1], kinds) + if KindOf(ops[|ops| - 1]) in kinds then [ops[|ops| - 1]] else []
  }

  // The answers those operations get in the run of all of them.
  function Replies(setup: Setup, ops: seq<GateOp>, kinds: set<Kind>): seq<GateReply> {
    if ops == [] then []
    else
      var before, op := ops[..|ops| - 1], ops[|ops| - 1];
      Replies(setup, before, kinds) + if KindOf(op) in kinds then [GateStep(setup, Run(setup, before), op).1] else []
  }

  lemma OnlySnoc(ops: seq<GateOp>, kinds: set<Kind>)
    requires ops != []
    ensures KindOf(ops[|ops| - 1]) in kinds ==>
              var kept := Only(ops, kinds);
              kept != [] && kept[..|kept| - 1] == Only(ops[..|ops| - 1], kinds) && kept[|kept| - 1] == ops[|ops| - 1]
    ensures KindOf(ops[|ops| - 1]) !in kinds ==> Only(ops, kinds) == Only(ops[..|ops| - 1], kinds)
  {
  }

  // The password lockout and every password verdict are those of replaying the password
  // attempts alone: no visit, mint or revocation can reset it or trip it.
  lemma {:induction false} PasswordsAreAlone(setup: Setup, ops: seq<GateOp>)
    ensures Run(setup, ops).limiter == Run(setup, Only(ops, {PasswordKind})).limiter
    ensures Replies(setup, ops, {PasswordKind}) == Replies(setup, Only(ops, {PasswordKind}), {PasswordKind})
  {
    if ops != [] {
      PasswordsAreAlone(setup, ops[..|ops| - 1]);
      OnlySnoc(ops, {PasswordKind});
    }
  }

  const LINK_KINDS := {UrlKind, CookieKind, OtherKind}

  // And the other way round: password attempts leave the store, the link limiter and
  // every answer to a visit or an administrator as they were.
  lemma {:induction false} LinksIgnorePasswords(setup: Setup, ops: seq<GateOp>)
    ensures Run(setup, ops).(limiter := FRESH) == Run(setup, Only(ops, LINK_KINDS)).(limiter := FRESH)
    ensures Replies(setup, ops, LINK_KINDS) == Replies(setup, Only(ops, LINK_KINDS), LINK_KINDS)
  {
    if ops != [] {
      LinksIgnorePasswords(setup, ops[..|ops| - 1]);
      OnlySnoc(ops, LINK_KINDS);
    }
  }

  const NO_COOKIES := {PasswordKind, UrlKind, OtherKind}

  lemma CookieChangesNothing(setup: Setup, g: GateState, op: GateOp)
    requires KindOf(op) == CookieKind
    ensures GateStep(setup, g, op).0 == g
  {
  }

  // Cookie visits change nothing at all: drop them and the state and every other answer
  // stay the same, so a guest holding a session is never locked out by link probing and
  // never locks anyone out.
  lemma {:induction false} CookiesLeaveNoTrace(setup: Setup, ops: seq<GateOp>)
    ensures Run(setup, ops) == Run(setup, Only(ops, NO_COOKIES))
    ensures Replies(setup, ops, NO_COOKIES) == Replies(setup, Only(ops, NO_COOKIES), NO_COOKIES)
  {
    if ops != [] {
      var before, op := ops[..|ops| - 1], ops[|ops| - 1];
      CookiesLeaveNoTrace(setup, before);
      OnlySnoc(ops, NO_COOKIES);
      if KindOf(op) == CookieKind { CookieChangesNothing(setup, Run(setup, before), op); }
    }
  }

  // ---- link guessing is bounded over every run ------------------------------------------------

  // The URL visits that did not succeed, as attempts on a limiter.
  function FailedUrls(setup: Setup, ops: seq<GateOp>): seq<Try> {
    if ops == [] then []
    else
      var before, op := ops[..|ops| - 1], ops[|ops| - 1];
      FailedUrls(setup, before) +
      if KindOf(op) == UrlKind && GateStep(setup, Run(setup, before), op).1.Rejected? then [Try(op.checkAt, op.recordAt)] else []
  }

  // How many link tokens were compared with the store and refused.
  function RefusedUrls(setup: Setup, ops: seq<GateOp>): nat {
    if ops == [] then 0
    else
      var before, op := ops[..|ops| - 1], ops[|ops| - 1];
      var reply := GateStep(setup, Run(setup, before), op).1;
      RefusedUrls(setup, before) + if KindOf(op) == UrlKind && reply.Rejected? && !reply.why.RateLimited? then 1 else 0
  }

  // One URL visit on the link limiter: a success leaves it alone, anything else is a try.
  lemma UrlCharge(setup: Setup, g: GateState, op: GateOp)
    requires KindOf(op) == UrlKind
    ensures var (g', reply) := GateStep(setup, g, op);
            var open := Checked(g.linkLimiter, op.checkAt).Allowed?;
            && g'.linkLimiter == (if reply.Rejected? then Tried(g.linkLimiter, Try(op.checkAt, op.recordAt)) else g.linkLimiter)
            && (reply.Rejected? ==> (reply.why.RateLimited? <==> !open))
  {
    var offer := Presented(op.request).value;
    RedeemAnswers(g.links, Redeem(op.now, offer.token, offer.via, op.session, op.io));
  }

  lemma AfterSnoc(l: Limiter, tries: seq<Try>, t: Try)
    ensures After(l, tries + [t]) == Tried(After(l, tries), t)
    ensures Compared(l, tries + [t]) ==
            Compared(l, tries) + if Checked(After(l, tries), t.checkAt).Allowed? then 1 else 0
  {
    assert (tries + [t])[..|tries|] == tries;
  }

  // The state and answer of the last operation of a run, by name.
  ghost predicate LastStep(setup: Setup, ops: seq<GateOp>, before: seq<GateOp>, op: GateOp, g: GateState, reply: GateReply) {
    && ops == before + [op]
    && g == Run(setup, ops)
    && FailedUrls(setup, ops) == FailedUrls(setup, before) +
                                 (if KindOf(op) == UrlKind && reply.Rejected? then [Try(op.checkAt, op.recordAt)] else [])
    && RefusedUrls(setup, ops) == RefusedUrls(setup, before) +
                                  (if KindOf(op) == UrlKind && reply.Rejected? && !reply.why.RateLimited? then 1 else 0)
    && var from := Run(setup, before).linkLimiter;
    if KindOf(op) == UrlKind && reply.Rejected? then
      && g.linkLimiter == Tried(from, Try(op.checkAt, op.recordAt))
      && (reply.why.RateLimited? <==> Checked(from, op.checkAt).Locked?)
    else g.linkLimiter == from
  }

  lemma LastStepOf(setup: Setup, ops: seq<GateOp>, before: seq<GateOp>, op: GateOp) returns (g: GateState, reply: GateReply)
    requires ops == before + [op]
    ensures LastStep(setup, ops, before, op, g, reply)
  {
    assert ops[..|ops| - 1] == before;
    var step := GateStep(setup, Run(setup, before), op);
    g, reply := step.0, step.1;
    if KindOf(op) == UrlKind {
      UrlCharge(setup, Run(setup, before), op);
    } else {
      OthersKeepLinkLimiter(setup, Run(setup, before), op);
    }
  }

  ghost predicate Tallied(limiter: Limiter, refused: nat, tries: seq<Try>) {
    limiter == After(FRESH, tries) && refused == Compared(FRESH, tries)
  }

  lemma TallyStep(from: Limiter, refused: nat, tries: seq<Try>, t: Try)
    requires Tallied(from, refused, tries)
    ensures Tallied(Tried(from, t), refused + if Checked(from, t.checkAt).Allowed? then 1 else 0, tries + [t])
  {
    AfterSnoc(FRESH, tries, t);
  }

  ghost predicate TalliedAfter(setup: Setup, ops: seq<GateOp>) {
    Tallied(Run(setup, ops).linkLimiter, RefusedUrls(setup, ops), FailedUrls(setup, ops))
  }

  lemma TallyLast(setup: Setup, ops: seq<GateOp>, before: seq<GateOp>, op: GateOp)
    requires ops == before + [op] && TalliedAfter(setup, before)
    ensures TalliedAfter(setup, ops)
  {
    var g, reply := LastStepOf(setup, ops, before, op);
    LastTally(setup, ops, before, op, g, reply);
  }

  lemma LastTally(setup: Setup, ops: seq<GateOp>, before: seq<GateOp>, op: GateOp, g: GateState, reply: GateReply)
    requires LastStep(setup, ops, before, op, g, reply) && TalliedAfter(setup, before)
    ensures TalliedAfter(setup, ops)
  {
    if KindOf(op) == UrlKind && reply.Rejected? {
      TallyStep(Run(setup, before).linkLimiter, RefusedUrls(setup, before), FailedUrls(setup, before), Try(op.checkAt, op.recordAt));
    } else {
      assert FailedUrls(setup, before) + [] == FailedUrls(setup, before);
    }
  }

  // The link limiter is never told of a success: it is the failed URL visits alone, and the
  // tokens refused by the store are those it let through to a comparison.
  lemma {:induction false} LinkLimiterIsFailures(setup: Setup, ops: seq<GateOp>)
    ensures TalliedAfter(setup, ops)
  {
    if ops != [] {
      var before, op := ops[..|ops| - 1], ops[|ops| - 1];
      assert ops == before + [op];
      LinkLimiterIsFailures(setup, before);
      TallyLast(setup, ops, before, op);
    }
  }

  lemma OthersKeepLinkLimiter(setup: Setup, g: GateState, op: GateOp)
    requires KindOf(op) != UrlKind
    ensures GateStep(setup, g, op).0.linkLimiter == g.linkLimiter
  {
  }

  // Visits handled one at a time on a clock that never steps back.
  ghost predicate Ordered(ops: seq<GateOp>) {
    && (forall i :: 0 <= i < |ops| && ops[i].Visit? ==> ops[i].checkAt <= ops[i].recordAt)
    && (forall i, j :: 0 <= i < j < |ops| && ops[i].Visit? && ops[j].Visit? ==> ops[i].recordAt <= ops[j].checkAt)
  }

  // A failed URL visit is one of the visits made.
  lemma {:induction false} FailedWasAVisit(setup: Setup, ops: seq<GateOp>, t: Try) returns (i: nat)
    requires t in FailedUrls(setup, ops)
    ensures i < |ops| && ops[i].Visit? && t == Try(ops[i].checkAt, ops[i].recordAt)
  {
    var n := |ops| - 1;
    if t in FailedUrls(setup, ops[..n]) {
      i := FailedWasAVisit(setup, ops[..n], t);
    } else {
      i := n;
    }
  }

  lemma {:induction false} FailuresAreSequential(setup: Setup, ops: seq<GateOp>)
    requires Ordered(ops)
    ensures Sequential(FailedUrls(setup, ops))
  {
    if ops != [] {
      var before, last := ops[..|ops| - 1], ops[|ops| - 1];
      FailuresAreSequential(setup, before);
      var tries := FailedUrls(setup, before);
      if FailedUrls(setup, ops) != tries {
        forall t | t in tries
          ensures t.recordAt <= last.checkAt
        {
          var i := FailedWasAVisit(setup, before, t);
          assert ops[i] == before[i];
        }
        SequentialSnoc(tries, Try(last.checkAt, last.recordAt));
      }
    }
  }

  lemma SequentialSnoc(tries: seq<Try>, t: Try)
    requires Sequential(tries) && t.checkAt <= t.recordAt
    requires forall u :: u in tries ==> u.recordAt <= t.checkAt
    ensures Sequential(tries + [t])
  {
  }

  lemma FirstIsPositive(setup: Setup, ops: seq<GateOp>, t: Try)
    requires t in FailedUrls(setup, ops)
    requires forall i :: 0 <= i < |ops| && ops[i].Visit? ==> ops[i].recordAt >= 1
    ensures t.recordAt >= 1
  {
    var i := FailedWasAVisit(setup, ops, t);
  }

  // Over every run, whatever else happens in it, at most 7 * (floor(T / 61) + 1) wrong
  // link tokens are compared in the T seconds from the first.
  lemma LinkGuessingIsBounded(setup: Setup, ops: seq<GateOp>)
    requires Ordered(ops) && forall i :: 0 <= i < |ops| && ops[i].Visit? ==> ops[i].recordAt >= 1
    ensures var tries := FailedUrls(setup, ops);
            tries != [] ==>
              RefusedUrls(setup, ops) <= 7 * ((tries[|tries| - 1].recordAt - tries[0].recordAt) / 61 + 1)
  {
    var tries := FailedUrls(setup, ops);
    LinkLimiterIsFailures(setup, ops);
    FailuresAreSequential(setup, ops);
    if tries != [] {
      FirstIsPositive(setup, ops, tries[0]);
      GuessingIsBounded(FRESH, tries);
    }
  }
}
