// What each answer of the share-link store is worth: why a secret was refused, and what a
// mint, a revocation or a redemption that reported success changes from then on.
module ShareLinkAnswers {
  import opened Wrappers
  import opened LinkText
  import opened ShareLinks
  import opened ShareLinkHistory

  // ---- refusals ------------------------------------------------------------------------

  // The entry a refusal other than "unknown" speaks of.
  ghost predicate EntryRefused(e: Entry, now: U64, via: Presentation, why: LinkRejection) {
    match why
    case Revoked => e.revokedAt.Some?
    case Expired => e.revokedAt.None? && now >= e.expiresAt
    case AlreadyUsed => e.Live(now) && via == Query && e.singleUse && e.sessions != []
    case _ => false
  }

  lemma RefusedEntry(w: World, now: U64, presented: string, via: Presentation) returns (i: nat)
    requires Inv(w) && w.clock <= now
    requires Judge(w.links, now, presented, via).Err? && Judge(w.links, now, presented, via) != Err(Unknown)
    ensures i < |w.ledger| && Carries(w.ledger[i], presented, via)
    ensures EntryRefused(w.ledger[i], now, via, Judge(w.links, now, presented, via).error)
  {
    var l := w.links[FindSecret(w.links, Sha256(presented), via)];
    RetainMembers(TrimAll(w.ledger), w.savedAt);
    assert l in TrimAll(w.ledger);
    i :| 0 <= i < |w.ledger| && l == Trim(w.ledger[i]);
    TrimCarries(w.ledger[i], presented, via);
    assert EntrySound(w.ledger[i]);
  }

  // "Unknown" of a secret some entry carries: that entry's record has been pruned.
  lemma UnknownIsPruned(w: World, i: nat, now: U64, presented: string, via: Presentation)
    requires Inv(w) && w.clock <= now && Judge(w.links, now, presented, via) == Err(Unknown)
    requires i < |w.ledger| && Carries(w.ledger[i], presented, via)
    ensures PruneTime(w.ledger[i].expiresAt) <= now
  {
    assert EntrySound(w.ledger[i]);
    if Kept(Trim(w.ledger[i]), w.savedAt) {
      var j := FoundAt(w.ledger, w.savedAt, i, presented, via);
    }
  }

  // The link minted by call `k` is the one `presented` belongs to.
  ghost predicate Carried(ops: seq<Op>, k: nat, presented: string, via: Presentation) {
    LinkMinted(ops, k) && match via
                          case Query => ops[k].token == presented
                          case Cookie => CookieAllowed(ops, ops[k], presented)
  }

  ghost predicate RefusedFor(ops: seq<Op>, k: nat, now: U64, via: Presentation, why: LinkRejection)
    requires LinkMinted(ops, k)
  {
    var revoked, expired := RevokedSince(ops, k, ops[k].id), now >= SatAdd(ops[k].now, ops[k].ttl);
    match why
    case Revoked => revoked
    case Expired => !revoked && expired
    case AlreadyUsed => !revoked && !expired && via == Query && ops[k].singleUse && Issued(ops, ops[k].token) != []
    case _ => false
  }

  lemma CarriesIsCarried(ops: seq<Op>, i: nat, presented: string, via: Presentation)
    requires LedgerTold(ops) && i < |Mints(ops)|
    ensures Carries(Exec(ops).ledger[i], presented, via) <==> Carried(ops, Mints(ops)[i], presented, via)
  {
    assert Mints(ops)[i] in Mints(ops);
    assert Tells(ops, Mints(ops)[i], Exec(ops).ledger[i]);
  }

  const WEEK: nat := 7 * 24 * 60 * 60

  // The moment from which a save may forget the link call `k` minted.
  function Forgotten(op: Op): U64
    requires op.Mint?
  {
    SatAdd(SatAdd(op.now, op.ttl), WEEK)
  }

  // Every refusal names a true reason: the one link the secret belongs to was revoked, or
  // else has expired, or else was for one use and used. A secret is unknown only if it
  // belongs to no link, or to one that expired over a week ago.
  lemma RefusalIsTrue(ops: seq<Op>, now: U64, presented: string, via: Presentation)
    requires IsRun(ops) && Exec(ops).clock <= now && Judge(Exec(ops).links, now, presented, via).Err?
    ensures var why := Judge(Exec(ops).links, now, presented, via).error;
            if why == Unknown then
              forall k: nat :: Carried(ops, k, presented, via) ==> now >= Forgotten(ops[k])
            else
              exists k: nat :: Carried(ops, k, presented, via) && RefusedFor(ops, k, now, via, why)
  {
    Reachable(ops);
    LedgerIsTold(ops);
    if Judge(Exec(ops).links, now, presented, via).error == Unknown {
      forall k: nat | Carried(ops, k, presented, via)
        ensures now >= Forgotten(ops[k])
      {
        assert k in Mints(ops);
        var i :| 0 <= i < |Mints(ops)| && Mints(ops)[i] == k;
        CarriesIsCarried(ops, i, presented, via);
        UnknownIsPruned(Exec(ops), i, now, presented, via);
        assert Tells(ops, k, Exec(ops).ledger[i]);
      }
    } else {
      var i := RefusedEntry(Exec(ops), now, presented, via);
      CarriesIsCarried(ops, i, presented, via);
      RefusedForEntry(ops, i, now, via, Judge(Exec(ops).links, now, presented, via).error);
    }
  }

  lemma RefusedForEntry(ops: seq<Op>, i: nat, now: U64, via: Presentation, why: LinkRejection)
    requires LedgerTold(ops) && i < |Mints(ops)| && LinkMinted(ops, Mints(ops)[i])
    requires EntryRefused(Exec(ops).ledger[i], now, via, why)
    ensures RefusedFor(ops, Mints(ops)[i], now, via, why)
  {
    assert Tells(ops, Mints(ops)[i], Exec(ops).ledger[i]);
  }

  // ---- successes, and everything that may follow them --------------------------------------

  lemma {:induction false} RunPrefix(ops: seq<Op>, n: nat)
    requires IsRun(ops) && n <= |ops|
    ensures IsRun(ops[..n]) && Exec(ops[..n]).clock <= Exec(ops).clock
  {
    if n < |ops| {
      RunPrefix(ops[..|ops| - 1], n);
      assert ops[..|ops| - 1][..n] == ops[..n];
    } else {
      assert ops[..n] == ops;
    }
  }

  // Call `n` came in its turn: after a run, on time, with fresh draws.
  lemma CallInRun(ops: seq<Op>, n: nat)
    requires IsRun(ops) && n < |ops|
    ensures IsRun(ops[..n]) && Exec(ops[..n]).clock <= ops[n].now <= Exec(ops).clock
    ensures FreshDraws(Exec(ops[..n]).ledger, ops[n])
  {
    RunPrefix(ops, n + 1);
    assert ops[..n + 1][..n] == ops[..n] && ops[..n + 1][n] == ops[n];
  }

  lemma MintedInPrefix(ops: seq<Op>, n: nat, k: nat)
    requires k < n <= |ops|
    ensures LinkMinted(ops[..n], k) <==> LinkMinted(ops, k)
  {
    assert ops[..n][..k] == ops[..k] && ops[..n][k] == ops[k];
  }

  // The ledger entry of a minting call.
  lemma EntryOf(ops: seq<Op>, k: nat) returns (i: nat)
    requires IsRun(ops) && LinkMinted(ops, k)
    ensures i < |Mints(ops)| == |Exec(ops).ledger| && Mints(ops)[i] == k
    ensures Tells(ops, k, Exec(ops).ledger[i]) && EntriesSound(Exec(ops).ledger)
  {
    Reachable(ops);
    LedgerIsTold(ops);
    assert k in Mints(ops);
    i :| 0 <= i < |Mints(ops)| && Mints(ops)[i] == k;
  }

  // Tokens and ids name their link for good.
  lemma OneMint(ops: seq<Op>, k: nat, k': nat)
    requires IsRun(ops) && LinkMinted(ops, k) && LinkMinted(ops, k')
    requires ops[k].token == ops[k'].token || ops[k].id == ops[k'].id
    ensures k == k'
  {
    var i := EntryOf(ops, k);
    var j := EntryOf(ops, k');
    SameEntry(Exec(ops).ledger, i, j);
  }

  lemma SameEntry(ledger: Ledger, i: nat, j: nat)
    requires EntriesSound(ledger) && i < |ledger| && j < |ledger|
    requires ledger[i].token == ledger[j].token || ledger[i].id == ledger[j].id
    ensures i == j
  {
  }

  lemma MintReply(w: World, op: Op)
    requires op.Mint? && Answer(w, op).MintedOk?
    ensures Answer(w, op) == MintedOk(op.id, SatAdd(op.now, op.ttl)) && StoreStep(w.links, op).2
  {
  }

  lemma TokenAllowedIff(ops: seq<Op>, k: nat, now: U64)
    requires IsRun(ops) && LinkMinted(ops, k)
    ensures (exists k': nat :: Allowed(ops, k', now, ops[k].token, Query)) <==>
            && now < SatAdd(ops[k].now, ops[k].ttl)
            && !RevokedSince(ops, k, ops[k].id)
            && (ops[k].singleUse ==> Issued(ops, ops[k].token) == [])
  {
    if k': nat :| Allowed(ops, k', now, ops[k].token, Query) {
      OneMint(ops, k, k');
    }
    assert Allowed(ops, k, now, ops[k].token, Query) <==>
           && now < SatAdd(ops[k].now, ops[k].ttl) && !RevokedSince(ops, k, ops[k].id)
           && (ops[k].singleUse ==> Issued(ops, ops[k].token) == []);
  }

  // A mint that reported success: over any run that follows, its URL works until exactly the
  // expiry reported, a revocation of that id or, for a single-use link, its first redemption.
  lemma MintedLinkOpens(ops: seq<Op>, k: nat, now: U64)
    requires IsRun(ops) && Exec(ops).clock <= now
    requires k < |ops| && ops[k].Mint? && Answer(Exec(ops[..k]), ops[k]).MintedOk?
    ensures var r := Answer(Exec(ops[..k]), ops[k]);
            && r.id == ops[k].id
            && (Judge(Exec(ops).links, now, ops[k].token, Query).Ok? <==>
                && now < r.expiresAt
                && !RevokedSince(ops, k, r.id)
                && (ops[k].singleUse ==> Issued(ops, ops[k].token) == []))
  {
    MintReply(Exec(ops[..k]), ops[k]);
    AcceptsExactlyTheAllowed(ops, now, ops[k].token, Query);
    TokenAllowedIff(ops, k, now);
  }

  // The link a revocation found was minted before it.
  lemma MintOf(ops: seq<Op>, id: string) returns (k: nat)
    requires IsRun(ops) && FindId(Exec(ops).links, id) < |Exec(ops).links|
    ensures LinkMinted(ops, k) && ops[k].id == id
  {
    Reachable(ops);
    LedgerIsTold(ops);
    IdKnown(Exec(ops), id);
    var i := FindEntry(Exec(ops).ledger, id);
    k := Mints(ops)[i];
    assert k in Mints(ops);
    assert Tells(ops, k, Exec(ops).ledger[i]);
  }

  lemma RevokeReply(w: World, op: Op)
    requires op.Revoke? && Answer(w, op).RevokedOk?
    ensures FindId(w.links, op.id) < |w.links| && Written(op.io)
  {
  }

  // The link that let a secret in.
  lemma OpenedBy(ops: seq<Op>, now: U64, presented: string, via: Presentation) returns (k: nat)
    requires IsRun(ops) && Exec(ops).clock <= now && Judge(Exec(ops).links, now, presented, via).Ok?
    ensures Allowed(ops, k, now, presented, via)
    ensures Exec(ops).links[Judge(Exec(ops).links, now, presented, via).value].id == ops[k].id
  {
    k := ReceiptIsTrue(ops, now, presented, via, "");
  }

  lemma RevocationCounts(ops: seq<Op>, m: nat, k: nat)
    requires IsRun(ops) && m < |ops| && ops[m].Revoke? && Answer(Exec(ops[..m]), ops[m]).RevokedOk?
    requires LinkMinted(ops, k) && ops[k].id == ops[m].id
    ensures RevokedSince(ops, k, ops[k].id)
  {
    CallInRun(ops, m);
    RevokeReply(Exec(ops[..m]), ops[m]);
    var first := MintOf(ops[..m], ops[m].id);
    MintedInPrefix(ops, m, first);
    OneMint(ops, k, first);
    assert IsRevocation(ops[m], ops[k].id);
  }

  // A revocation that reported success: over any run that follows, no secret of that link
  // opens it again.
  lemma RevokedLinkIsShut(ops: seq<Op>, m: nat, now: U64, presented: string, via: Presentation)
    requires IsRun(ops) && Exec(ops).clock <= now
    requires m < |ops| && ops[m].Revoke? && Answer(Exec(ops[..m]), ops[m]).RevokedOk?
    ensures var links := Exec(ops).links;
            Judge(links, now, presented, via).Ok? ==> links[Judge(links, now, presented, via).value].id != ops[m].id
  {
    if Judge(Exec(ops).links, now, presented, via).Ok? {
      var k := OpenedBy(ops, now, presented, via);
      if ops[k].id == ops[m].id { RevocationCounts(ops, m, k); }
    }
  }

  // Some link lets `presented` in.
  ghost predicate SomeAllowed(ops: seq<Op>, now: U64, presented: string, via: Presentation) {
    exists k: nat :: Allowed(ops, k, now, presented, via)
  }

  lemma AcceptsSome(ops: seq<Op>, now: U64, presented: string, via: Presentation)
    requires IsRun(ops) && Exec(ops).clock <= now
    ensures Judge(Exec(ops).links, now, presented, via).Ok? <==> SomeAllowed(ops, now, presented, via)
  {
    AcceptsExactlyTheAllowed(ops, now, presented, via);
  }

  // How many URL redemptions of `token` took after call `r`.
  ghost function LaterRedemptions(ops: seq<Op>, r: nat, token: string): nat {
    if |ops| <= r + 1 then 0
    else
      var n := |ops| - 1;
      LaterRedemptions(ops[..n], r, token) + if IsRedemption(ops[n], token) && Took(ops, n) then 1 else 0
  }

  predicate IsRedemption(op: Op, token: string) {
    op.Redeem? && op.via == Query && op.presented == token
  }

  // What each call was answered, in order.
  function Answers(ops: seq<Op>): (rs: seq<Reply>)
    ensures |rs| == |ops|
  {
    if ops == [] then []
    else Answers(ops[..|ops| - 1]) + [Answer(Exec(ops[..|ops| - 1]), ops[|ops| - 1])]
  }

  lemma {:induction false} AnswerAt(ops: seq<Op>, r: nat)
    requires r < |ops|
    ensures Answers(ops)[r] == Answer(Exec(ops[..r]), ops[r])
  {
    var before := ops[..|ops| - 1];
    if r < |before| {
      AnswerAt(before, r);
      assert before[..r] == ops[..r] && before[r] == ops[r];
    }
  }

  // A URL redemption that reported success: over any run that follows, the session it handed
  // out works as a cookie until exactly the lifetime reported has passed, its link is
  // revoked, or sixteen more URL redemptions of that link took.
  lemma SessionOpens(ops: seq<Op>, r: nat, now: U64)
    requires IsRun(ops) && Exec(ops).clock <= now
    requires r < |ops| && ops[r].Redeem? && ops[r].via == Query && Answers(ops)[r].RedeemedOk?
    ensures var link := Answers(ops)[r].link;
            && link.session == Some(ops[r].session)
            && (Judge(Exec(ops).links, now, ops[r].session, Cookie).Ok? <==>
                && now < ops[r].now + link.remainingSecs
                && !RevokedSince(ops, r, link.id)
                && LaterRedemptions(ops, r, ops[r].presented) < 16)
  {
    var k := SessionLink(ops, r, Answers(ops)[r]);
    SessionJudged(ops, r, k, now);
  }

  // Call `r` redeemed the link call `k` minted, unrevoked until then, and the session it
  // handed out has the later ones of that link behind it.
  ghost predicate SessionOf(ops: seq<Op>, r: nat, k: nat) {
    && k < r < |ops| && ops[r].Redeem? && LinkMinted(ops, k) && ops[k].token == ops[r].presented
    && Unrevoked(ops, k, r, ops[k].id)
    && StandsAt(Issued(ops, ops[k].token), LaterRedemptions(ops, r, ops[k].token), ops[r].session)
  }

  predicate Unrevoked(ops: seq<Op>, k: nat, r: nat, id: string)
    requires r < |ops|
  {
    forall m :: k < m <= r ==> !IsRevocation(ops[m], id)
  }

  // With exactly `later` after it.
  predicate StandsAt(sessions: seq<string>, later: nat, session: string) {
    later < |sessions| && sessions[|sessions| - 1 - later] == session
  }

  // The link a redemption was of, and what it was told of it.
  lemma SessionLink(ops: seq<Op>, r: nat, reply: Reply) returns (k: nat)
    requires IsRun(ops) && r < |ops| && ops[r].Redeem? && ops[r].via == Query && reply.RedeemedOk? && reply == Answers(ops)[r]
    ensures SessionOf(ops, r, k)
    ensures reply.link.session == Some(ops[r].session) && reply.link.id == ops[k].id
    ensures ops[r].now + reply.link.remainingSecs == SatAdd(ops[k].now, ops[k].ttl)
  {
    k := SessionMint(ops, r, reply);
    TookOf(ops, r, reply);
    SessionStands(ops, r);
  }

  lemma SessionMint(ops: seq<Op>, r: nat, reply: Reply) returns (k: nat)
    requires IsRun(ops) && r < |ops| && ops[r].Redeem? && ops[r].via == Query && reply.RedeemedOk? && reply == Answers(ops)[r]
    ensures k < r && LinkMinted(ops, k) && ops[k].token == ops[r].presented && Unrevoked(ops, k, r, ops[k].id)
    ensures reply.link.session == Some(ops[r].session) && reply.link.id == ops[k].id
    ensures ops[r].now + reply.link.remainingSecs == SatAdd(ops[k].now, ops[k].ttl)
  {
    AnswerAt(ops, r);
    CallInRun(ops, r);
    k := SessionMintFrom(ops, ops[..r], ops[r], reply);
  }

  lemma SessionMintFrom(ops: seq<Op>, before: seq<Op>, op: Op, reply: Reply) returns (k: nat)
    requires |before| < |ops| && before == ops[..|before|] && op == ops[|before|]
    requires IsRun(before) && Exec(before).clock <= op.now && op.Redeem? && op.via == Query
    requires reply.RedeemedOk? && reply == Answer(Exec(before), op)
    ensures k < |before| && LinkMinted(ops, k) && ops[k].token == op.presented && Unrevoked(ops, k, |before|, ops[k].id)
    ensures reply.link.session == Some(op.session) && reply.link.id == ops[k].id
    ensures op.now + reply.link.remainingSecs == SatAdd(ops[k].now, ops[k].ttl)
  {
    k := SessionReceipt(before, op, reply);
    SameMint(ops, |before|, k);
    StaysUnrevoked(ops, before, k, ops[k].id);
  }

  lemma SameMint(ops: seq<Op>, r: nat, k: nat)
    requires r <= |ops| && LinkMinted(ops[..r], k)
    ensures k < r && ops[..r][k] == ops[k] && LinkMinted(ops, k)
  {
    MintedInPrefix(ops, r, k);
  }

  lemma StaysUnrevoked(ops: seq<Op>, before: seq<Op>, k: nat, id: string)
    requires |before| < |ops| && before == ops[..|before|] && !ops[|before|].Revoke?
    requires !RevokedSince(before, k, id)
    ensures Unrevoked(ops, k, |before|, id)
  {
    forall m | k < m <= |before|
      ensures !IsRevocation(ops[m], id)
    {
      if m < |before| { assert before[m] == ops[m]; }
    }
  }

  lemma AnswerReceipt(w: World, op: Op)
    requires op.Redeem? && op.via == Query && Answer(w, op).RedeemedOk?
    ensures Judge(w.links, op.now, op.presented, Query).Ok? && StoreStep(w.links, op).2
    ensures Answer(w, op).link ==
            Receipt(w.links[Judge(w.links, op.now, op.presented, Query).value], op.now, Query, op.session)
  {
  }

  lemma SessionReceipt(before: seq<Op>, op: Op, reply: Reply) returns (k: nat)
    requires IsRun(before) && Exec(before).clock <= op.now && op.Redeem? && op.via == Query
    requires reply.RedeemedOk? && reply == Answer(Exec(before), op)
    ensures LinkMinted(before, k) && before[k].token == op.presented && !RevokedSince(before, k, before[k].id)
    ensures reply.link.session == Some(op.session) && reply.link.id == before[k].id
    ensures op.now + reply.link.remainingSecs == SatAdd(before[k].now, before[k].ttl)
  {
    AnswerReceipt(Exec(before), op);
    k := ReceiptIsTrue(before, op.now, op.presented, Query, op.session);
    TokenAllowedParts(before, k, op.now, op.presented);
  }

  lemma TookOf(ops: seq<Op>, r: nat, reply: Reply)
    requires r < |ops| && ops[r].Redeem? && ops[r].via == Query && reply.RedeemedOk? && reply == Answers(ops)[r]
    ensures Took(ops, r)
  {
    AnswerAt(ops, r);
    AnswerReceipt(Exec(ops[..r]), ops[r]);
  }

  // One more call adds the same to a link's sessions and to the later ones.
  lemma LastRedemption(ops: seq<Op>, before: seq<Op>, op: Op, r: nat, token: string)
    requires ops == before + [op] && r < |before|
    ensures var more := IsRedemption(op, token) && Took(ops, |before|);
            && Issued(ops, token) == Issued(before, token) + (if more then [op.session] else [])
            && LaterRedemptions(ops, r, token) == LaterRedemptions(before, r, token) + if more then 1 else 0
  {
    assert ops[..|ops| - 1] == before;
  }

  lemma StandsSnoc(sessions: seq<string>, later: nat, session: string, x: string)
    ensures StandsAt(sessions, later, session) ==> StandsAt(sessions + [x], later + 1, session)
    ensures StandsAt(sessions + [session], 0, session)
  {
  }

  lemma TookBefore(ops: seq<Op>, before: seq<Op>, r: nat)
    requires r < |before| < |ops| && before == ops[..|before|]
    ensures before[r] == ops[r] && (Took(before, r) <==> Took(ops, r))
  {
    assert before[..r] == ops[..r];
  }

  lemma StandsLast(ops: seq<Op>, before: seq<Op>, op: Op)
    requires ops == before + [op] && op.Redeem? && op.via == Query && Took(ops, |before|)
    ensures StandsAt(Issued(ops, op.presented), LaterRedemptions(ops, |before|, op.presented), op.session)
  {
    IssuedStep(ops, before, op, op.presented);
    StandsSnoc(Issued(before, op.presented), 0, op.session, op.session);
  }

  lemma StandsStep(ops: seq<Op>, before: seq<Op>, op: Op, r: nat, token: string, session: string)
    requires ops == before + [op] && r < |before|
    requires StandsAt(Issued(before, token), LaterRedemptions(before, r, token), session)
    ensures StandsAt(Issued(ops, token), LaterRedemptions(ops, r, token), session)
  {
    LastRedemption(ops, before, op, r, token);
    StandsSnoc(Issued(before, token), LaterRedemptions(before, r, token), session, if op.Redeem? then op.session else "");
    assert Issued(before, token) + [] == Issued(before, token);
  }

  // The session of call `r` stands in its link's list, before the later ones.
  lemma {:induction false} SessionStands(ops: seq<Op>, r: nat)
    requires r < |ops| && ops[r].Redeem? && ops[r].via == Query && Took(ops, r)
    ensures StandsAt(Issued(ops, ops[r].presented), LaterRedemptions(ops, r, ops[r].presented), ops[r].session)
  {
    var n := |ops| - 1;
    var before, op := ops[..n], ops[n];
    assert ops == before + [op];
    if r == n {
      StandsLast(ops, before, op);
    } else {
      TookBefore(ops, before, r);
      SessionStands(before, r);
      StandsStep(ops, before, op, r, ops[r].presented, ops[r].session);
    }
  }

  lemma SessionJudged(ops: seq<Op>, r: nat, k: nat, now: U64)
    requires IsRun(ops) && Exec(ops).clock <= now && SessionOf(ops, r, k)
    ensures Judge(Exec(ops).links, now, ops[r].session, Cookie).Ok? <==>
            && now < SatAdd(ops[k].now, ops[k].ttl)
            && !RevokedSince(ops, r, ops[k].id)
            && LaterRedemptions(ops, r, ops[r].presented) < 16
  {
    AcceptsSome(ops, now, ops[r].session, Cookie);
    SessionAllowedIff(ops, r, k, now);
  }

  // Two links never share a session.
  lemma SessionsApart(ops: seq<Op>, k: nat, k': nat, session: string)
    requires IsRun(ops) && LinkMinted(ops, k) && LinkMinted(ops, k')
    requires session in Issued(ops, ops[k].token) && session in Issued(ops, ops[k'].token)
    ensures k == k'
  {
    var i := EntryOf(ops, k);
    var j := EntryOf(ops, k');
    SharedSession(Exec(ops).ledger, i, j, session);
  }

  lemma SharedSession(ledger: Ledger, i: nat, j: nat, session: string)
    requires EntriesSound(ledger) && i < |ledger| && j < |ledger|
    requires session in ledger[i].sessions && session in ledger[j].sessions
    ensures i == j
  {
  }

  // And none hands one out twice.
  lemma SessionsDiffer(ops: seq<Op>, k: nat)
    requires IsRun(ops) && LinkMinted(ops, k)
    ensures AllDiffer(Issued(ops, ops[k].token))
  {
    var i := EntryOf(ops, k);
    assert EntrySound(Exec(ops).ledger[i]);
  }

  ghost predicate AllDiffer(sessions: seq<string>) {
    forall i, j :: 0 <= i < j < |sessions| ==> sessions[i] != sessions[j]
  }

  lemma TokenAllowedParts(ops: seq<Op>, k: nat, now: U64, presented: string)
    requires Allowed(ops, k, now, presented, Query)
    ensures LinkMinted(ops, k) && ops[k].token == presented && !RevokedSince(ops, k, ops[k].id)
  {
  }

  lemma SessionAllowedIff(ops: seq<Op>, r: nat, k: nat, now: U64)
    requires IsRun(ops) && SessionOf(ops, r, k)
    ensures SomeAllowed(ops, now, ops[r].session, Cookie) <==>
            && now < SatAdd(ops[k].now, ops[k].ttl)
            && !RevokedSince(ops, r, ops[k].id)
            && LaterRedemptions(ops, r, ops[r].presented) < 16
  {
    var sessions, later := Issued(ops, ops[k].token), LaterRedemptions(ops, r, ops[k].token);
    SessionsDiffer(ops, k);
    RevokedLater(ops, r, k, ops[k].id);
    NewestSixteen(sessions, later, ops[r].session);
    OnlyItsLink(ops, k, now, ops[r].session);
  }

  lemma OnlyItsLink(ops: seq<Op>, k: nat, now: U64, session: string)
    requires IsRun(ops) && LinkMinted(ops, k) && session in Issued(ops, ops[k].token)
    ensures SomeAllowed(ops, now, session, Cookie) <==>
            && now < SatAdd(ops[k].now, ops[k].ttl) && !RevokedSince(ops, k, ops[k].id)
            && AmongSixteen(Issued(ops, ops[k].token), session)
  {
    if k': nat :| Allowed(ops, k', now, session, Cookie) {
      SessionsApart(ops, k, k', session);
    }
    if now < SatAdd(ops[k].now, ops[k].ttl) && !RevokedSince(ops, k, ops[k].id)
       && AmongSixteen(Issued(ops, ops[k].token), session) {
      assert Allowed(ops, k, now, session, Cookie);
    }
  }

  ghost predicate AmongSixteen(sessions: seq<string>, session: string) {
    exists j :: 0 <= j < |sessions| && sessions[j] == session && |sessions| - j - 1 < 16
  }

  lemma NewestSixteen(sessions: seq<string>, later: nat, session: string)
    requires AllDiffer(sessions) && StandsAt(sessions, later, session)
    ensures session in sessions
    ensures AmongSixteen(sessions, session) <==> later < 16
  {
  }

  // A link not revoked up to call `r` is revoked only after it.
  lemma RevokedLater(ops: seq<Op>, r: nat, k: nat, id: string)
    requires k < r < |ops| && Unrevoked(ops, k, r, id)
    ensures RevokedSince(ops, k, id) <==> RevokedSince(ops, r, id)
  {
  }

  // ---- what each call is answered, from the calls before it ----------------------------------

  ghost predicate MintedAs(ops: seq<Op>, k: nat, id: string) {
    LinkMinted(ops, k) && ops[k].id == id
  }

  lemma RevokeReplies(links: seq<ShareLink>, op: Op)
    requires op.Revoke?
    ensures var r, k := StoreStep(links, op).1, FindId(links, op.id);
            && (op.io.LoadFails? ==> r == StoreFailed)
            && (!op.io.LoadFails? && k == |links| ==> r == NoSuchId)
            && (!op.io.LoadFails? && k < |links| && links[k].revokedAt.Some? ==> r == AlreadyRevoked)
            && (!op.io.LoadFails? && k < |links| && links[k].revokedAt.None? ==>
                  r == if op.io.Fine? then RevokedOk else StoreFailed)
  {
  }

  // The record of an id on file, and its minting call.
  lemma RecordOf(ops: seq<Op>, id: string) returns (k: nat)
    requires IsRun(ops) && FindId(Exec(ops).links, id) < |Exec(ops).links|
    ensures MintedAs(ops, k, id)
    ensures Exec(ops).links[FindId(Exec(ops).links, id)].revokedAt.Some? <==> RevokedSince(ops, k, id)
  {
    var w := Exec(ops);
    Reachable(ops);
    LedgerIsTold(ops);
    IdKnown(w, id);
    var i := FindEntry(w.ledger, id);
    var j := IdAt(w.ledger, w.savedAt, i, id);
    k := Mints(ops)[i];
    assert k in Mints(ops);
    assert Tells(ops, k, w.ledger[i]);
  }

  lemma OnFile(ops: seq<Op>, k: nat, now: U64)
    requires IsRun(ops) && Exec(ops).clock <= now && LinkMinted(ops, k) && now < Forgotten(ops[k])
    ensures FindId(Exec(ops).links, ops[k].id) < |Exec(ops).links|
  {
    var w := Exec(ops);
    Reachable(ops);
    var i := EntryOf(ops, k);
    var j := IdAt(w.ledger, w.savedAt, i, ops[k].id);
  }

  // What a revocation is answered. Of a link that may not be forgotten yet, on a disk that
  // works: done, exactly when no revocation of it took before, else that it was revoked.
  lemma RevokeAnswer(ops: seq<Op>, op: Op, k: nat)
    requires IsRun(ops) && op.Revoke? && Exec(ops).clock <= op.now
    requires MintedAs(ops, k, op.id) && op.now < Forgotten(ops[k])
    ensures var r := Answer(Exec(ops), op);
            r == if op.io.LoadFails? then StoreFailed
            else if RevokedSince(ops, k, op.id) then AlreadyRevoked
            else if op.io.Fine? then RevokedOk
            else StoreFailed
  {
    OnFile(ops, k, op.now);
    var k' := RecordOf(ops, op.id);
    OneMint(ops, k, k');
    RevokeReplies(Exec(ops).links, op);
  }

  // Of an id nobody minted: that there is none. And that is said only of such an id or of a
  // link that expired at least a week ago.
  lemma RevokeUnknownAnswer(ops: seq<Op>, op: Op)
    requires IsRun(ops) && op.Revoke? && Exec(ops).clock <= op.now
    ensures var r := Answer(Exec(ops), op);
            && (!op.io.LoadFails? && (forall k: nat :: !MintedAs(ops, k, op.id)) ==> r == NoSuchId)
            && (r == NoSuchId ==> forall k: nat :: MintedAs(ops, k, op.id) ==> op.now >= Forgotten(ops[k]))
            && (r == AlreadyRevoked ==> exists k: nat :: MintedAs(ops, k, op.id) && RevokedSince(ops, k, op.id))
            && (r == RevokedOk ==> op.io.Fine? && exists k: nat :: MintedAs(ops, k, op.id) && !RevokedSince(ops, k, op.id))
  {
    var links := Exec(ops).links;
    RevokeReplies(links, op);
    if FindId(links, op.id) < |links| {
      var k := RecordOf(ops, op.id);
      assert MintedAs(ops, k, op.id);
    }
    forall k: nat | Answer(Exec(ops), op) == NoSuchId && MintedAs(ops, k, op.id)
      ensures op.now >= Forgotten(ops[k])
    {
      if op.now < Forgotten(ops[k]) { OnFile(ops, k, op.now); }
    }
  }

  // The link call `k` minted is still good at `now`.
  ghost predicate LiveAt(ops: seq<Op>, k: nat, now: U64) {
    LinkMinted(ops, k) && now < SatAdd(ops[k].now, ops[k].ttl) && !RevokedSince(ops, k, ops[k].id)
  }

  // How many of the first `n` calls minted such a link.
  ghost function LiveLinks(ops: seq<Op>, n: nat, now: U64): nat
    requires n <= |ops|
  {
    if n == 0 then 0 else LiveLinks(ops, n - 1, now) + if LiveAt(ops, n - 1, now) then 1 else 0
  }

  ghost function LiveAmong(ops: seq<Op>, ks: seq<nat>, now: U64): nat {
    if ks == [] then 0
    else LiveAmong(ops, ks[..|ks| - 1], now) + if LiveAt(ops, ks[|ks| - 1], now) then 1 else 0
  }

  lemma LiveAmongSnoc(ops: seq<Op>, ks: seq<nat>, k: nat, now: U64)
    ensures LiveAmong(ops, ks + [k], now) == LiveAmong(ops, ks, now) + if LiveAt(ops, k, now) then 1 else 0
  {
    assert (ks + [k])[..|ks|] == ks;
  }

  lemma MintsOfPrefix(ops: seq<Op>, n: nat)
    requires 1 <= n <= |ops|
    ensures Mints(ops[..n]) == Mints(ops[..n - 1]) + if LinkMinted(ops, n - 1) then [n - 1] else []
  {
    assert ops[..n] == ops[..n - 1] + [ops[n - 1]];
    MintsStep(ops[..n], ops[..n - 1], ops[n - 1]);
    MintedInPrefix(ops, n, n - 1);
  }

  lemma {:induction false} LiveLinksAmongMints(ops: seq<Op>, n: nat, now: U64)
    requires n <= |ops|
    ensures LiveLinks(ops, n, now) == LiveAmong(ops, Mints(ops[..n]), now)
  {
    if n > 0 {
      LiveLinksAmongMints(ops, n - 1, now);
      MintsOfPrefix(ops, n);
      var before := Mints(ops[..n - 1]);
      if LinkMinted(ops, n - 1) {
        LiveAmongSnoc(ops, before, n - 1, now);
      } else {
        assert before + [] == before;
      }
    }
  }

  lemma ActiveSnoc(ledger: Ledger, m: nat, now: U64)
    requires 1 <= m <= |ledger|
    ensures ActiveEntries(ledger[..m], now) == ActiveEntries(ledger[..m - 1], now) + if ledger[m - 1].Live(now) then 1 else 0
  {
    assert ledger[..m] == ledger[..m - 1] + [ledger[m - 1]];
    ActiveConcat(ledger[..m - 1], [ledger[m - 1]], now);
  }

  lemma EntryLives(ops: seq<Op>, i: nat, now: U64)
    requires LedgerTold(ops) && i < |Mints(ops)|
    ensures LiveAt(ops, Mints(ops)[i], now) <==> Exec(ops).ledger[i].Live(now)
  {
    assert Mints(ops)[i] in Mints(ops);
    assert Tells(ops, Mints(ops)[i], Exec(ops).ledger[i]);
  }

  lemma {:induction false} LiveIsActive(ops: seq<Op>, ks: seq<nat>, ledger: Ledger, now: U64)
    requires |ks| == |ledger| && forall i :: 0 <= i < |ks| ==> (LiveAt(ops, ks[i], now) <==> ledger[i].Live(now))
    ensures LiveAmong(ops, ks, now) == ActiveEntries(ledger, now)
  {
    if ks != [] {
      var m := |ks|;
      LiveIsActive(ops, ks[..m - 1], ledger[..m - 1], now);
      ActiveSnoc(ledger, m, now);
      assert ledger[..m] == ledger;
    }
  }

  lemma ActiveIsLive(ops: seq<Op>, now: U64)
    requires IsRun(ops) && Exec(ops).clock <= now
    ensures CountActive(Exec(ops).links, now) == LiveLinks(ops, |ops|, now)
  {
    var w := Exec(ops);
    Reachable(ops);
    LedgerIsTold(ops);
    CountsAgree(w.ledger, w.savedAt, now);
    forall i | 0 <= i < |Mints(ops)|
      ensures LiveAt(ops, Mints(ops)[i], now) <==> w.ledger[i].Live(now)
    {
      EntryLives(ops, i, now);
    }
    LiveIsActive(ops, Mints(ops), w.ledger, now);
    LiveLinksAmongMints(ops, |ops|, now);
    assert ops[..|ops|] == ops;
  }

  lemma MintReplies(links: seq<ShareLink>, op: Op)
    requires op.Mint?
    ensures StoreStep(links, op).1 ==
            if op.io.LoadFails? then StoreFailed
            else if CountActive(links, op.now) >= 50 then TooManyActive(CountActive(links, op.now))
            else if op.io.Fine? then MintedOk(op.id, SatAdd(op.now, op.ttl))
            else StoreFailed
  {
  }

  // What a mint is answered: a new link that expires `ttl` from now, exactly when the disk
  // works and fewer than fifty of the links minted so far are unexpired and unrevoked.
  lemma MintAnswer(ops: seq<Op>, op: Op)
    requires IsRun(ops) && op.Mint? && Exec(ops).clock <= op.now
    ensures Answer(Exec(ops), op) ==
            if op.io.LoadFails? then StoreFailed
            else if LiveLinks(ops, |ops|, op.now) >= 50 then TooManyActive(LiveLinks(ops, |ops|, op.now))
            else if op.io.Fine? then MintedOk(op.id, SatAdd(op.now, op.ttl))
            else StoreFailed
  {
    ActiveIsLive(ops, op.now);
    MintReplies(Exec(ops).links, op);
  }

  lemma RedeemReplies(links: seq<ShareLink>, op: Op)
    requires op.Redeem?
    ensures var r, judged := StoreStep(links, op).1, Judge(links, op.now, op.presented, op.via);
            && (r.RedeemedOk? <==> judged.Ok? && if op.via == Query then op.io.Fine? else !op.io.LoadFails?)
            && (!r.RedeemedOk? ==>
                  r == Refused(if LooksLikeLinkToken(op.presented) && (op.io.LoadFails? || judged.Ok?) then Store
                               else judged.error))
  {
  }

  // What a redemption is answered: let in exactly when the calls so far allow it and the disk
  // plays along; that the store failed exactly when it did; else the reason of RefusalIsTrue.
  lemma RedeemAnswer(ops: seq<Op>, op: Op)
    requires IsRun(ops) && op.Redeem? && Exec(ops).clock <= op.now
    ensures var r, allowed := Answer(Exec(ops), op), exists k: nat :: Allowed(ops, k, op.now, op.presented, op.via);
            var disk := if op.via == Query then op.io.Fine? else !op.io.LoadFails?;
            && (r.RedeemedOk? <==> allowed && disk)
            && (r == Refused(Store) <==> LooksLikeLinkToken(op.presented) && (op.io.LoadFails? || (allowed && !disk)))
            && (!r.RedeemedOk? && r != Refused(Store) ==>
                  r == Refused(Judge(Exec(ops).links, op.now, op.presented, op.via).error))
  {
    AcceptsExactlyTheAllowed(ops, op.now, op.presented, op.via);
    RedeemReplies(Exec(ops).links, op);
    JudgeErrors(Exec(ops).links, op.now, op.presented, op.via);
  }

  lemma JudgeErrors(links: seq<ShareLink>, now: U64, presented: string, via: Presentation)
    ensures Judge(links, now, presented, via).Err? ==> Judge(links, now, presented, via).error != Store
    ensures Judge(links, now, presented, via).Ok? ==> LooksLikeLinkToken(presented)
  {
  }

  // Nothing outlives its week: whenever a call replaces the file, no record in the new one
  // expired a week or more before.
  lemma SavedIsPruned(links: seq<ShareLink>, op: Op)
    requires StoreStep(links, op).2
    ensures forall l :: l in StoreStep(links, op).0 ==> op.now < SatAdd(l.expiresAt, 7 * 24 * 60 * 60)
  {
    match op {
      case Mint(now, ttl, singleUse, labelText, token, id, io) =>
        RetainMembers(links + [ShareLink(id, Sha256(token), labelText, SatAdd(now, ttl), singleUse, None, [], None)], now);
      case Revoke(now, id, io) =>
        var k := FindId(links, id);
        RetainMembers(links[k := links[k].(revokedAt := Some(now))], now);
      case Redeem(now, presented, via, session, io) =>
        var k := Judge(links, now, presented, via).value;
        RetainMembers(links[k := Stamp(links[k], now, session)], now);
    }
  }
}
