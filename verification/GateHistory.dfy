// Who the gate lets in, over whole runs: exactly those the calls made so far allow.
module GateHistory {
  import opened Wrappers
  import opened LinkText
  import opened RateLimiting
  import opened ShareLinks
  import ShareLinkHistory
  import opened ShareLinkAnswers
  import opened Gate

  // The store call a gate operation makes from state `g`, if it makes one.
  function StoreOp(setup: Setup, g: GateState, op: GateOp): seq<Op> {
    match op
    case Password(_, _, _, _) => []
    case Admin(store) => [store]
    case Visit(checkAt, _, now, request, session, io) =>
      if !setup.hasStore || Presented(request).None? then []
      else
        var offer := Presented(request).value;
        if offer.via == Query && Checked(g.linkLimiter, checkAt).Locked? then []
        else [Redeem(now, offer.token, offer.via, session, io)]
  }

  // All of them, in order.
  function StoreOps(setup: Setup, ops: seq<GateOp>): seq<Op> {
    if ops == [] then []
    else
      var before, op := ops[..|ops| - 1], ops[|ops| - 1];
      StoreOps(setup, before) + StoreOp(setup, Gate.Run(setup, before), op)
  }

  lemma GateStepIsStoreStep(setup: Setup, g: GateState, op: GateOp)
    ensures var store := StoreOp(setup, g, op);
            && |store| <= 1
            && GateStep(setup, g, op).0.links == if store == [] then g.links else StoreStep(g.links, store[0]).0
  {
  }

  lemma ExecSnoc(calls: seq<Op>, call: Op)
    ensures Exec(calls + [call]).links == StoreStep(Exec(calls).links, call).0
  {
    assert (calls + [call])[..|calls|] == calls;
  }

  // Whatever else goes on at the gate, the links file is that of the store calls it made.
  lemma {:induction false} GateStoreIsHistory(setup: Setup, ops: seq<GateOp>)
    ensures Gate.Run(setup, ops).links == Exec(StoreOps(setup, ops)).links
  {
    if ops != [] {
      var before, op := ops[..|ops| - 1], ops[|ops| - 1];
      GateStoreIsHistory(setup, before);
      var calls, store := StoreOps(setup, before), StoreOp(setup, Gate.Run(setup, before), op);
      GateStepIsStoreStep(setup, Gate.Run(setup, before), op);
      if store == [] {
        assert calls + store == calls;
      } else {
        assert store == [store[0]];
        ExecSnoc(calls, store[0]);
      }
    }
  }

  // What a redemption hands out, in terms of the store's judgement alone.
  lemma RedeemOutcome(links: seq<ShareLink>, op: Op)
    requires op.Redeem?
    ensures var reply, judged := StoreStep(links, op).1, Judge(links, op.now, op.presented, op.via);
            && (reply.RedeemedOk? <==> judged.Ok? && if op.via == Query then op.io.Fine? else !op.io.LoadFails?)
            && (reply.RedeemedOk? ==>
                  && reply.link.session == (if op.via == Query then Some(op.session) else None)
                  && reply.link.id == links[judged.value].id)
            && (!reply.RedeemedOk? ==> reply.Refused? && !reply.why.RateLimited?)
  {
    RedeemReplies(links, op);
    RedeemAnswers(links, op);
  }

  lemma OfferShape(request: string)
    requires Presented(request).Some?
    ensures Presented(request).value.via == Query <==> Presented(request).value.stripped.Some?
  {
  }

  // What a visit gets, in terms of the store's judgement alone.
  lemma VisitAnswer(setup: Setup, g: GateState, op: GateOp)
    requires op.Visit? && setup.hasStore && Presented(op.request).Some?
    ensures var offer, reply := Presented(op.request).value, GateStep(setup, g, op).1;
            var opens := Judge(g.links, op.now, offer.token, offer.via).Ok?;
            && (reply.Redirect? <==>
                offer.via == Query && opens && Checked(g.linkLimiter, op.checkAt).Allowed? && op.io.Fine?)
            && (reply.Authenticated? <==> offer.via == Cookie && opens && !op.io.LoadFails?)
            && (reply.Redirect? ==> reply.id == g.links[Judge(g.links, op.now, offer.token, Query).value].id)
            && (reply.Authenticated? ==> reply.id == g.links[Judge(g.links, op.now, offer.token, Cookie).value].id)
            && (reply.Redirect? || reply.Authenticated? || reply.Rejected?)
            && (reply.Rejected? && reply.why.RateLimited? ==> GateStep(setup, g, op).0 == g)
  {
    var offer := Presented(op.request).value;
    OfferShape(op.request);
    RedeemOutcome(g.links, Redeem(op.now, offer.token, offer.via, op.session, op.io));
  }

  // Why a visit is rejected: the lockout with the seconds left, for a URL, before anything
  // else; then what the store says, or that it failed.
  lemma VisitRejection(setup: Setup, g: GateState, op: GateOp)
    requires op.Visit? && setup.hasStore && Presented(op.request).Some? && GateStep(setup, g, op).1.Rejected?
    ensures var offer, why := Presented(op.request).value, GateStep(setup, g, op).1.why;
            var judged := Judge(g.links, op.now, offer.token, offer.via);
            why == if offer.via == Query && g.linkLimiter.lockedUntil > op.checkAt then
              RateLimited(g.linkLimiter.lockedUntil - op.checkAt)
            else if LooksLikeLinkToken(offer.token) && (op.io.LoadFails? || judged.Ok?) then Store
            else judged.error
  {
    var offer := Presented(op.request).value;
    VisitAnswer(setup, g, op);
    if !(offer.via == Query && g.linkLimiter.lockedUntil > op.checkAt) {
      VisitIsRedeem(setup, g, op);
      RedeemReplies(g.links, Redeem(op.now, offer.token, offer.via, op.session, op.io));
    }
  }

  // A visit that presents nothing is not judged at all.
  lemma NothingPresented(setup: Setup, g: GateState, op: GateOp)
    requires op.Visit?
    ensures !setup.hasStore || Presented(op.request).None? <==> GateStep(setup, g, op).1 == NotPresented
    ensures GateStep(setup, g, op).1 == NotPresented ==> GateStep(setup, g, op).0 == g
  {
  }

  // After any run of the gate: a URL visit is redirected exactly when the link limiter is
  // open, the disk works, and the calls so far allow the token; a cookie visit passes
  // exactly when the file can be read and the calls so far allow the session.
  lemma AdmitsExactlyTheAllowed(setup: Setup, ops: seq<GateOp>, op: GateOp)
    requires op.Visit? && setup.hasStore && Presented(op.request).Some?
    requires IsRun(StoreOps(setup, ops)) && Exec(StoreOps(setup, ops)).clock <= op.now
    ensures var g, calls, offer := Gate.Run(setup, ops), StoreOps(setup, ops), Presented(op.request).value;
            var reply := GateStep(setup, g, op).1;
            && (reply.Redirect? <==>
                && offer.via == Query && Checked(g.linkLimiter, op.checkAt).Allowed? && op.io.Fine?
                && exists k: nat :: ShareLinkHistory.Allowed(calls, k, op.now, offer.token, Query))
            && (reply.Authenticated? <==>
                && offer.via == Cookie && !op.io.LoadFails?
                && exists k: nat :: ShareLinkHistory.Allowed(calls, k, op.now, offer.token, Cookie))
            && (reply.Redirect? || reply.Authenticated? ==>
                  exists k: nat :: ShareLinkHistory.Allowed(calls, k, op.now, offer.token, offer.via) && reply.id == calls[k].id)
  {
    var offer := Presented(op.request).value;
    GateStoreIsHistory(setup, ops);
    VisitAnswer(setup, Gate.Run(setup, ops), op);
    ShareLinkHistory.AcceptsExactlyTheAllowed(StoreOps(setup, ops), op.now, offer.token, offer.via);
    if Judge(Exec(StoreOps(setup, ops)).links, op.now, offer.token, offer.via).Ok? {
      var k := OpenedBy(StoreOps(setup, ops), op.now, offer.token, offer.via);
    }
  }

  // The guest's way in: a visit that was redirected got a session, and the next visit that
  // presents it as a cookie is let in, under the same link, for exactly the lifetime the
  // redirect's cookie was given.
  lemma RedirectLeadsIn(setup: Setup, ops: seq<GateOp>, visit: GateOp, again: GateOp)
    requires visit.Visit? && again.Visit? && visit.now <= again.now && !again.io.LoadFails?
    requires IsRun(StoreOps(setup, ops + [visit])) && GateStep(setup, Gate.Run(setup, ops), visit).1.Redirect?
    requires Presented(again.request) == Some(Offer(visit.session, Cookie, None))
    ensures var offer := Presented(visit.request).value;
            exists lifetime: U64 ::
              && GateStep(setup, Gate.Run(setup, ops), visit).1.response == LinkRedirect(offer.stripped.value, visit.session, lifetime)
              && (GateStep(setup, Gate.Run(setup, ops + [visit]), again).1.Authenticated? <==> again.now < visit.now + lifetime)
  {
    var g, offer := Gate.Run(setup, ops), Presented(visit.request).value;
    var calls, call := StoreOps(setup, ops), Redeem(visit.now, offer.token, Query, visit.session, visit.io);
    var lifetime := RedirectIsRedemption(setup, g, visit, call);
    OneMoreCall(setup, ops, visit, call);
    GateStoreIsHistory(setup, ops);
    AfterRedemption(calls, call, lifetime, again.now);
    CookieAnswer(setup, Gate.Run(setup, ops + [visit]), again, visit.session);
    assert LinkRedirect(offer.stripped.value, visit.session, lifetime) == GateStep(setup, g, visit).1.response;
  }

  lemma OneMoreCall(setup: Setup, ops: seq<GateOp>, op: GateOp, call: Op)
    requires StoreOp(setup, Gate.Run(setup, ops), op) == [call]
    ensures StoreOps(setup, ops + [op]) == StoreOps(setup, ops) + [call]
    ensures Gate.Run(setup, ops + [op]).links == Exec(StoreOps(setup, ops) + [call]).links
  {
    assert (ops + [op])[..|ops|] == ops;
    GateStoreIsHistory(setup, ops + [op]);
  }

  lemma NothingAfter(calls: seq<Op>, token: string, id: string)
    requires calls != []
    ensures var last := |calls| - 1;
            && Exec(calls).clock == calls[last].now
            && LaterRedemptions(calls, last, token) == 0
            && !ShareLinkHistory.RevokedSince(calls, last, id)
  {
    assert calls[..|calls|] == calls;
  }

  lemma AfterRedemption(calls: seq<Op>, call: Op, lifetime: U64, now: U64)
    requires IsRun(calls + [call]) && call.Redeem? && call.via == Query && call.now <= now
    requires Answer(Exec(calls), call).RedeemedOk? && Answer(Exec(calls), call).link.remainingSecs == lifetime
    ensures Judge(Exec(calls + [call]).links, now, call.session, Cookie).Ok? <==> now < call.now + lifetime
  {
    var all := calls + [call];
    assert all[..|calls|] == calls && all[|calls|] == call;
    NothingAfter(all, call.presented, Answer(Exec(calls), call).link.id);
    AnswerAt(all, |calls|);
    SessionOpens(all, |calls|, now);
  }

  lemma CookieAnswer(setup: Setup, g: GateState, op: GateOp, session: string)
    requires op.Visit? && setup.hasStore && !op.io.LoadFails? && Presented(op.request) == Some(Offer(session, Cookie, None))
    ensures GateStep(setup, g, op).1.Authenticated? <==> Judge(g.links, op.now, session, Cookie).Ok?
  {
    VisitAnswer(setup, g, op);
  }

  lemma RedirectIsRedemption(setup: Setup, g: GateState, visit: GateOp, call: Op) returns (lifetime: U64)
    requires visit.Visit? && GateStep(setup, g, visit).1.Redirect?
    requires call == Redeem(visit.now, Presented(visit.request).value.token, Query, visit.session, visit.io)
    ensures StoreOp(setup, g, visit) == [call]
    ensures var reply := StoreStep(g.links, call).1;
            && reply.RedeemedOk? && reply.link.remainingSecs == lifetime
            && Presented(visit.request).value.stripped.Some?
            && GateStep(setup, g, visit).1.response ==
               LinkRedirect(Presented(visit.request).value.stripped.value, visit.session, lifetime)
  {
    OfferShape(visit.request);
    NothingPresented(setup, g, visit);
    VisitAnswer(setup, g, visit);
    VisitIsRedeem(setup, g, visit);
    RedeemOutcome(g.links, call);
    lifetime := StoreStep(g.links, call).1.link.remainingSecs;
  }

  lemma VisitIsRedeem(setup: Setup, g: GateState, visit: GateOp)
    requires visit.Visit? && setup.hasStore && Presented(visit.request).Some?
    ensures var offer := Presented(visit.request).value;
            var call := Redeem(visit.now, offer.token, offer.via, visit.session, visit.io);
            offer.via == Cookie || Checked(g.linkLimiter, visit.checkAt).Allowed? ==>
              StoreOp(setup, g, visit) == [call] && GateStep(setup, g, visit).1 == LinkReply(offer, StoreStep(g.links, call).1)
  {
  }
}
