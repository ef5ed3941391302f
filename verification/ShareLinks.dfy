// The share-link store (native/src/local_auth.rs, `LinkStore`).
//
// The store on disk is a bounded, lossy list: records are pruned a week after they
// expire and each keeps only its newest sixteen sessions. Beside it this module runs
// the `Ledger`, which forgets nothing, through the same operations, and proves that
// over every run the two always give the same answers.
module ShareLinks {
  import opened Wrappers
  import opened LinkText

  const MAX_ACTIVE_LINKS: nat := 50
  const LINK_PRUNE_AFTER: U64 := 7 * 86_400
  const MAX_SESSIONS_PER_LINK: nat := 16

  // SHA-256, taken to be injective: a digest is its preimage under a constructor.
  datatype Digest = Sha256(preimage: string)

  datatype ShareLink = ShareLink(
    id: string,
    tokenHash: Digest,
    labelText: string,
    expiresAt: U64,
    singleUse: bool,
    usedAt: Option<U64>,
    sessionHashes: seq<Digest>,
    revokedAt: Option<U64>)
  {
    predicate IsActive(now: U64) {
      revokedAt.None? && now < expiresAt
    }
  }

  datatype Presentation = Query | Cookie

  datatype LinkRejection =
    | Unknown
    | Expired
    | Revoked
    | AlreadyUsed
    | RateLimited(retryAfterSecs: U64)
    | Store

  datatype RedeemedLink = RedeemedLink(
    id: string,
    labelText: string,
    singleUse: bool,
    remainingSecs: U64,
    firstUse: bool,
    session: Option<string>)

  // What the file system did to one operation. A save can fail before the new file
  // replaces the old one, or after (the directory sync); both report an error.
  datatype Io = Fine | LoadFails | SaveFailsEarly | SaveFailsLate

  // One call on the store, with the random draws it would make.
  datatype Op =
    | Mint(now: U64, ttl: U64, singleUse: bool, labelText: string, token: string, id: string, io: Io)
    | Revoke(now: U64, id: string, io: Io)
    | Redeem(now: U64, presented: string, via: Presentation, session: string, io: Io)

  datatype Reply =
    | MintedOk(id: string, expiresAt: U64)
    | TooManyActive(active: nat)
    | RevokedOk
    | NoSuchId
    | AlreadyRevoked
    | RedeemedOk(link: RedeemedLink)
    | Refused(why: LinkRejection)
    | StoreFailed

  // ---- list operations -----------------------------------------------------------

  // Index of the first record that `digest` opens by way of `via`, or |links|.
  function FindSecret(links: seq<ShareLink>, digest: Digest, via: Presentation): (k: nat)
    ensures k <= |links|
    ensures forall j :: 0 <= j < k ==> !Matches(links[j], digest, via)
    ensures k < |links| ==> Matches(links[k], digest, via)
  {
    if links == [] || Matches(links[0], digest, via) then 0 else 1 + FindSecret(links[1..], digest, via)
  }

  // Index of the first record with this id, or |links|.
  function FindId(links: seq<ShareLink>, id: string): (k: nat)
    ensures k <= |links|
    ensures forall j :: 0 <= j < k ==> links[j].id != id
    ensures k < |links| ==> links[k].id == id
  {
    if links == [] || links[0].id == id then 0 else 1 + FindId(links[1..], id)
  }

  function PruneTime(expiresAt: U64): U64 {
    SatAdd(expiresAt, LINK_PRUNE_AFTER)
  }

  predicate Kept(l: ShareLink, now: U64) {
    now < PruneTime(l.expiresAt)
  }

  // `save`'s `retain`.
  function Retain(links: seq<ShareLink>, now: U64): seq<ShareLink> {
    if links == [] then []
    else if Kept(links[0], now) then [links[0]] + Retain(links[1..], now)
    else Retain(links[1..], now)
  }

  function CountActive(links: seq<ShareLink>, now: U64): nat {
    if links == [] then 0
    else (if links[0].IsActive(now) then 1 else 0) + CountActive(links[1..], now)
  }

  predicate Matches(link: ShareLink, digest: Digest, via: Presentation) {
    match via
    case Query => link.tokenHash == digest
    case Cookie => digest in link.sessionHashes
  }

  // ---- the store, as a function of the file's records ------------------------------

  // Which record a presented secret opens, or why it opens none.
  function Judge(links: seq<ShareLink>, now: U64, presented: string, via: Presentation): (r: Result<nat, LinkRejection>)
    ensures r.Ok? ==> r.value < |links| && now < links[r.value].expiresAt
  {
    if !LooksLikeLinkToken(presented) then Err(Unknown)
    else
      var k := FindSecret(links, Sha256(presented), via);
      if k == |links| then Err(Unknown)
      else if links[k].revokedAt.Some? then Err(Revoked)
      else if now >= links[k].expiresAt then Err(Expired)
      else if links[k].singleUse && links[k].usedAt.Some? && via == Query then Err(AlreadyUsed)
      else Ok(k)
  }

  // The record after a URL redemption that issued `session`.
  function Stamp(l: ShareLink, now: U64, session: string): ShareLink {
    l.(usedAt := if l.usedAt.None? then Some(now) else l.usedAt,
    sessionHashes := LastN(l.sessionHashes + [Sha256(session)], MAX_SESSIONS_PER_LINK))
  }

  function Receipt(l: ShareLink, now: U64, via: Presentation, session: string): RedeemedLink
    requires now < l.expiresAt
  {
    RedeemedLink(l.id, l.labelText, l.singleUse, l.expiresAt - now,
                 via == Query && l.usedAt.None?,
                 if via == Query then Some(session) else None)
  }

  // The outcome of an operation that wants to write `links`: file, reply, and whether
  // the file was replaced.
  function Save(old_: seq<ShareLink>, links: seq<ShareLink>, now: U64, io: Io, reply: Reply): (seq<ShareLink>, Reply, bool) {
    match io
    case Fine => (Retain(links, now), reply, true)
    case LoadFails => (old_, StoreFailed, false)
    case SaveFailsEarly => (old_, StoreFailed, false)
    case SaveFailsLate => (Retain(links, now), StoreFailed, true)
  }

  function StoreStep(links: seq<ShareLink>, op: Op): (seq<ShareLink>, Reply, bool) {
    match op
    case Mint(now, ttl, singleUse, labelText, token, id, io) =>
      if io.LoadFails? then (links, StoreFailed, false)
      else if CountActive(links, now) >= MAX_ACTIVE_LINKS then (links, TooManyActive(CountActive(links, now)), false)
      else
        var link := ShareLink(id, Sha256(token), labelText, SatAdd(now, ttl), singleUse, None, [], None);
        Save(links, links + [link], now, io, MintedOk(id, link.expiresAt))
    case Revoke(now, id, io) =>
      if io.LoadFails? then (links, StoreFailed, false)
      else
        var k := FindId(links, id);
        if k == |links| then (links, NoSuchId, false)
        else if links[k].revokedAt.Some? then (links, AlreadyRevoked, false)
        else Save(links, links[k := links[k].(revokedAt := Some(now))], now, io, RevokedOk)
    case Redeem(now, presented, via, session, io) =>
      if !LooksLikeLinkToken(presented) then (links, Refused(Unknown), false)
      else if io.LoadFails? then (links, Refused(Store), false)
      else
        match Judge(links, now, presented, via)
        case Err(why) => (links, Refused(why), false)
        case Ok(k) =>
          var receipt := RedeemedOk(Receipt(links[k], now, via, session));
          if via == Cookie then (links, receipt, false)
          else
            var (file, reply, saved) := Save(links, links[k := Stamp(links[k], now, session)], now, io, receipt);
            (file, if reply == StoreFailed then Refused(Store) else reply, saved)
  }

  // ---- the ledger: the same history with nothing forgotten ---------------------------

  datatype Entry = Entry(
    id: string,
    token: string,
    labelText: string,
    expiresAt: U64,
    singleUse: bool,
    usedAt: Option<U64>,
    sessions: seq<string>,   // every session a URL redemption ever issued, oldest first
    revokedAt: Option<U64>)
  {
    predicate Live(now: U64) {
      revokedAt.None? && now < expiresAt
    }
  }

  type Ledger = seq<Entry>

  // A URL token is good: minted, live, and multi-use or never redeemed.
  predicate UrlOpens(e: Entry, now: U64, token: string) {
    e.token == token && e.Live(now) && (!e.singleUse || e.sessions == [])
  }

  // A cookie is good: some URL redemption issued it and fewer than sixteen later ones
  // of the same link followed.
  ghost predicate CookieOpens(e: Entry, now: U64, session: string) {
    e.Live(now) &&
    exists k :: 0 <= k < |e.sessions| && e.sessions[k] == session && |e.sessions| - k - 1 < MAX_SESSIONS_PER_LINK
  }

  ghost predicate Opens(e: Entry, now: U64, presented: string, via: Presentation) {
    match via
    case Query => UrlOpens(e, now, presented)
    case Cookie => CookieOpens(e, now, presented)
  }

  function ActiveEntries(ledger: Ledger, now: U64): nat {
    if ledger == [] then 0 else (if ledger[0].Live(now) then 1 else 0) + ActiveEntries(ledger[1..], now)
  }

  predicate Written(io: Io) {
    io.Fine? || io.SaveFailsLate?
  }

  function FindToken(ledger: Ledger, token: string): (k: nat)
    ensures k <= |ledger|
    ensures forall j :: 0 <= j < k ==> ledger[j].token != token
    ensures k < |ledger| ==> ledger[k].token == token
  {
    if ledger == [] || ledger[0].token == token then 0 else 1 + FindToken(ledger[1..], token)
  }

  function FindEntry(ledger: Ledger, id: string): (k: nat)
    ensures k <= |ledger|
    ensures forall j :: 0 <= j < k ==> ledger[j].id != id
    ensures k < |ledger| ==> ledger[k].id == id
  {
    if ledger == [] || ledger[0].id == id then 0 else 1 + FindEntry(ledger[1..], id)
  }

  function Redeemed(e: Entry, now: U64, session: string): Entry {
    e.(usedAt := if e.usedAt.None? then Some(now) else e.usedAt, sessions := e.sessions + [session])
  }

  // The ledger decides by its own records and never looks at the file.
  function LedgerStep(ledger: Ledger, op: Op): Ledger {
    if !Written(op.io) then ledger
    else match op
         case Mint(now, ttl, singleUse, labelText, token, id, _) =>
           if ActiveEntries(ledger, now) >= MAX_ACTIVE_LINKS then ledger
           else ledger + [Entry(id, token, labelText, SatAdd(now, ttl), singleUse, None, [], None)]
         case Revoke(now, id, _) =>
           var i := FindEntry(ledger, id);
           if i < |ledger| && ledger[i].revokedAt.None? then ledger[i := ledger[i].(revokedAt := Some(now))] else ledger
         case Redeem(now, presented, via, session, _) =>
           var i := FindToken(ledger, presented);
           if via == Query && i < |ledger| && UrlOpens(ledger[i], now, presented) then
             ledger[i := Redeemed(ledger[i], now, session)]
           else ledger
  }

  // ---- the two side by side --------------------------------------------------------

  datatype World = World(links: seq<ShareLink>, savedAt: U64, ledger: Ledger, clock: U64)

  const START := World([], 0, [], 0)

  function Step(w: World, op: Op): World {
    var (links, _, saved) := StoreStep(w.links, op);
    World(links, if saved then op.now else w.savedAt, LedgerStep(w.ledger, op), op.now)
  }

  function Answer(w: World, op: Op): Reply {
    StoreStep(w.links, op).1
  }

  function Exec(ops: seq<Op>): World {
    if ops == [] then START else Step(Exec(ops[..|ops| - 1]), ops[|ops| - 1])
  }

  // Draws are 256-bit (and 48-bit) random values: never seen before.
  ghost predicate FreshDraws(ledger: Ledger, op: Op) {
    match op
    case Mint(_, _, _, _, token, id, _) =>
      IsSecret(token) && forall e :: e in ledger ==> e.token != token && e.id != id
    case Revoke(_, _, _) => true
    case Redeem(_, _, _, session, _) =>
      IsSecret(session) && forall e :: e in ledger ==> session !in e.sessions
  }

  // A run: the clock never steps back and every draw is fresh.
  ghost predicate IsRun(ops: seq<Op>) {
    ops == [] ||
    (var before := ops[..|ops| - 1];
     var op := ops[|ops| - 1];
     IsRun(before) && Exec(before).clock <= op.now && FreshDraws(Exec(before).ledger, op))
  }

  // ---- the refinement invariant -------------------------------------------------------

  function Hashes(sessions: seq<string>): (r: seq<Digest>) {
    seq(|sessions|, i requires 0 <= i < |sessions| => Sha256(sessions[i]))
  }

  // What the file keeps of one ledger entry.
  function Trim(e: Entry): ShareLink {
    ShareLink(e.id, Sha256(e.token), e.labelText, e.expiresAt, e.singleUse, e.usedAt,
              LastN(Hashes(e.sessions), MAX_SESSIONS_PER_LINK), e.revokedAt)
  }

  function TrimAll(ledger: Ledger): (r: seq<ShareLink>)
    ensures |r| == |ledger|
    ensures forall i :: 0 <= i < |r| ==> r[i] == Trim(ledger[i])
  {
    seq(|ledger|, i requires 0 <= i < |ledger| => Trim(ledger[i]))
  }

  ghost predicate EntriesSound(ledger: Ledger) {
    && (forall i :: 0 <= i < |ledger| ==> EntrySound(ledger[i]))
    && (forall i, j :: 0 <= i < j < |ledger| ==> ledger[i].token != ledger[j].token && ledger[i].id != ledger[j].id)
    && (forall i, j :: 0 <= i < j < |ledger| ==> Disjoint(ledger[i].sessions, ledger[j].sessions))
  }

  ghost predicate EntrySound(e: Entry) {
    && LooksLikeLinkToken(e.token)
    && (forall s :: s in e.sessions ==> LooksLikeLinkToken(s))
    && (forall a, b :: 0 <= a < b < |e.sessions| ==> e.sessions[a] != e.sessions[b])
    && (e.usedAt.Some? <==> e.sessions != [])
    && (e.singleUse ==> |e.sessions| <= 1)
  }

  ghost predicate Disjoint(a: seq<string>, b: seq<string>) {
    forall s :: s in a ==> s !in b
  }

  ghost predicate Inv(w: World) {
    && w.savedAt <= w.clock
    && w.links == Retain(TrimAll(w.ledger), w.savedAt)
    && EntriesSound(w.ledger)
    && ActiveEntries(w.ledger, w.clock) <= MAX_ACTIVE_LINKS
  }

  // ---- lemmas about retained lists -----------------------------------------------------

  lemma RetainCons(x: ShareLink, xs: seq<ShareLink>, now: U64)
    ensures Retain([x] + xs, now) == (if Kept(x, now) then [x] else []) + Retain(xs, now)
  {
    assert ([x] + xs)[1..] == xs;
  }

  lemma {:induction false} RetainConcat(a: seq<ShareLink>, b: seq<ShareLink>, now: U64)
    ensures Retain(a + b, now) == Retain(a, now) + Retain(b, now)
  {
    if a == [] {
      assert a + b == b;
    } else {
      RetainConcat(a[1..], b, now);
      RetainCons(a[0], a[1..], now);
      RetainCons(a[0], a[1..] + b, now);
      assert a == [a[0]] + a[1..] && a + b == [a[0]] + (a[1..] + b);
    }
  }

  // Pruning twice is pruning once, at the later time.
  lemma {:induction false} RetainTwice(xs: seq<ShareLink>, t: U64, u: U64)
    requires t <= u
    ensures Retain(Retain(xs, t), u) == Retain(xs, u)
  {
    if xs != [] {
      RetainTwice(xs[1..], t, u);
      if Kept(xs[0], t) {
        assert ([xs[0]] + Retain(xs[1..], t))[1..] == Retain(xs[1..], t);
      }
    }
  }

  lemma {:induction false} RetainMembers(xs: seq<ShareLink>, t: U64)
    ensures forall l :: l in Retain(xs, t) <==> l in xs && Kept(l, t)
  {
    if xs != [] {
      RetainMembers(xs[1..], t);
      assert xs == [xs[0]] + xs[1..];
    }
  }

  // Where record `i` sits in the pruned list, and that editing it there is editing it here.
  lemma RetainAt(xs: seq<ShareLink>, i: nat, y: ShareLink, t: U64) returns (j: nat)
    requires i < |xs| && Kept(xs[i], t) && y.expiresAt == xs[i].expiresAt
    ensures j == |Retain(xs[..i], t)| < |Retain(xs, t)|
    ensures Retain(xs, t)[j] == xs[i] && Retain(xs, t)[..j] == Retain(xs[..i], t)
    ensures Retain(xs[i := y], t) == Retain(xs, t)[j := y]
  {
    j := |Retain(xs[..i], t)|;
    var tail := xs[i + 1..];
    assert xs == xs[..i] + ([xs[i]] + tail);
    assert xs[i := y] == xs[..i] + ([y] + tail);
    RetainConcat(xs[..i], [xs[i]] + tail, t);
    RetainConcat(xs[..i], [y] + tail, t);
    RetainConcat([xs[i]], tail, t);
    RetainConcat([y], tail, t);
  }

  // Pruned records are never active, so the cap counts the same in file and ledger.
  lemma {:induction false} CountsAgree(ledger: Ledger, t: U64, now: U64)
    requires t <= now
    ensures CountActive(Retain(TrimAll(ledger), t), now) == ActiveEntries(ledger, now)
  {
    if ledger != [] {
      CountsAgree(ledger[1..], t, now);
      assert TrimAll(ledger)[1..] == TrimAll(ledger[1..]);
      var l := Trim(ledger[0]);
      if Kept(l, t) {
        assert ([l] + Retain(TrimAll(ledger[1..]), t))[1..] == Retain(TrimAll(ledger[1..]), t);
      }
    }
  }

  lemma {:induction false} ActiveConcat(a: Ledger, b: Ledger, now: U64)
    ensures ActiveEntries(a + b, now) == ActiveEntries(a, now) + ActiveEntries(b, now)
  {
    if a == [] {
      assert a + b == b;
    } else {
      ActiveConcat(a[1..], b, now);
      assert (a + b)[1..] == a[1..] + b;
    }
  }

  // Time passing and revocation only ever lower the count; redeeming leaves it.
  lemma {:induction false} ActiveShrinks(a: Ledger, b: Ledger, t: U64, u: U64)
    requires t <= u && |a| == |b|
    requires forall i :: 0 <= i < |a| ==> b[i].expiresAt == a[i].expiresAt && (a[i].revokedAt.Some? ==> b[i].revokedAt.Some?)
    ensures ActiveEntries(b, u) <= ActiveEntries(a, t)
  {
    if a != [] {
      ActiveShrinks(a[1..], b[1..], t, u);
    }
  }

  // Among the newest `n` hashes means: in the list with fewer than `n` after it.
  lemma NewestSessions(sessions: seq<string>, s: string, n: nat)
    ensures Sha256(s) in LastN(Hashes(sessions), n) <==>
            exists k :: 0 <= k < |sessions| && sessions[k] == s && |sessions| - k - 1 < n
  {
    var hs := Hashes(sessions);
    var drop := if |hs| <= n then 0 else |hs| - n;
    assert LastN(hs, n) == hs[drop..];
    forall k | 0 <= k < |sessions| && sessions[k] == s && |sessions| - k - 1 < n
      ensures Sha256(s) in hs[drop..]
    {
      assert hs[drop..][k - drop] == Sha256(s);
    }
    if Sha256(s) in hs[drop..] {
      var k :| 0 <= k < |hs[drop..]| && hs[drop..][k] == Sha256(s);
      assert sessions[k + drop] == s;
    }
  }

  // Dropping before and after appending one more keeps the same newest sixteen.
  lemma LastNAppend<T>(xs: seq<T>, x: T, n: nat)
    requires n > 0
    ensures LastN(LastN(xs, n) + [x], n) == LastN(xs + [x], n)
  {
  }

  // ---- the judgement refines the ledger's ---------------------------------------------

  // The entry holds this secret among what the file would keep of it.
  ghost predicate Carries(e: Entry, presented: string, via: Presentation) {
    match via
    case Query => e.token == presented
    case Cookie => exists k :: 0 <= k < |e.sessions| && e.sessions[k] == presented && |e.sessions| - k - 1 < MAX_SESSIONS_PER_LINK
  }

  lemma TrimCarries(e: Entry, presented: string, via: Presentation)
    ensures Matches(Trim(e), Sha256(presented), via) <==> Carries(e, presented, via)
  {
    NewestSessions(e.sessions, presented, MAX_SESSIONS_PER_LINK);
  }

  lemma OneCarrier(ledger: Ledger, i: nat, j: nat, presented: string, via: Presentation)
    requires EntriesSound(ledger) && i < |ledger| && j < |ledger|
    requires Carries(ledger[i], presented, via) && Carries(ledger[j], presented, via)
    ensures i == j
  {
    if via == Cookie {
      assert presented in ledger[i].sessions && presented in ledger[j].sessions;
    }
  }

  // A kept entry's secret is found at its place in the file.
  lemma FoundAt(ledger: Ledger, t: U64, i: nat, presented: string, via: Presentation) returns (j: nat)
    requires EntriesSound(ledger) && i < |ledger| && Carries(ledger[i], presented, via) && Kept(Trim(ledger[i]), t)
    ensures j == |Retain(TrimAll(ledger)[..i], t)| == FindSecret(Retain(TrimAll(ledger), t), Sha256(presented), via)
    ensures j < |Retain(TrimAll(ledger), t)| && Retain(TrimAll(ledger), t)[j] == Trim(ledger[i])
  {
    var xs := TrimAll(ledger);
    j := RetainAt(xs, i, xs[i], t);
    TrimCarries(ledger[i], presented, via);
    RetainMembers(xs[..i], t);
    forall m | 0 <= m < j
      ensures !Matches(Retain(xs, t)[m], Sha256(presented), via)
    {
      var l := Retain(xs, t)[..j][m];
      assert l in Retain(xs[..i], t);
      var n :| 0 <= n < i && xs[n] == l;
      TrimCarries(ledger[n], presented, via);
      if Carries(ledger[n], presented, via) { OneCarrier(ledger, n, i, presented, via); }
    }
  }

  // What the unpruned history allows, the file allows, and at the matching record.
  lemma OpenIsFound(w: World, i: nat, now: U64, presented: string, via: Presentation) returns (j: nat)
    requires Inv(w) && w.clock <= now && i < |w.ledger| && Opens(w.ledger[i], now, presented, via)
    ensures j == |Retain(TrimAll(w.ledger)[..i], w.savedAt)| < |w.links| && w.links[j] == Trim(w.ledger[i])
    ensures Judge(w.links, now, presented, via) == Ok(j)
  {
    j := FoundAt(w.ledger, w.savedAt, i, presented, via);
    assert EntrySound(w.ledger[i]);
  }

  // And the other way round.
  lemma FoundIsOpen(w: World, now: U64, presented: string, via: Presentation) returns (i: nat)
    requires Inv(w) && w.clock <= now && Judge(w.links, now, presented, via).Ok?
    ensures i < |w.ledger| && Opens(w.ledger[i], now, presented, via)
  {
    var l := w.links[Judge(w.links, now, presented, via).value];
    RetainMembers(TrimAll(w.ledger), w.savedAt);
    assert l in TrimAll(w.ledger);
    i :| 0 <= i < |w.ledger| && l == Trim(w.ledger[i]);
    TrimCarries(w.ledger[i], presented, via);
    assert EntrySound(w.ledger[i]);
  }

  lemma JudgeExact(w: World, now: U64, presented: string, via: Presentation)
    requires Inv(w) && w.clock <= now
    ensures Judge(w.links, now, presented, via).Ok? <==>
            exists i :: 0 <= i < |w.ledger| && Opens(w.ledger[i], now, presented, via)
  {
    if Judge(w.links, now, presented, via).Ok? {
      var i := FoundIsOpen(w, now, presented, via);
    }
    if i :| 0 <= i < |w.ledger| && Opens(w.ledger[i], now, presented, via) {
      var j := OpenIsFound(w, i, now, presented, via);
    }
  }

  // ---- every operation keeps the invariant ----------------------------------------------

  lemma MintedSound(ledger: Ledger, e: Entry)
    requires EntriesSound(ledger) && EntrySound(e) && e.sessions == []
    requires forall x :: x in ledger ==> e.token != x.token && e.id != x.id
    ensures EntriesSound(ledger + [e])
  {
  }

  lemma MintKeeps(w: World, op: Op)
    requires op.Mint? && Inv(w) && w.clock <= op.now && FreshDraws(w.ledger, op)
    ensures Inv(Step(w, op))
  {
    CountsAgree(w.ledger, w.savedAt, op.now);
    ActiveShrinks(w.ledger, w.ledger, w.clock, op.now);
    if Written(op.io) && ActiveEntries(w.ledger, op.now) < MAX_ACTIVE_LINKS {
      var e := Entry(op.id, op.token, op.labelText, SatAdd(op.now, op.ttl), op.singleUse, None, [], None);
      MintedSound(w.ledger, e);
      ActiveConcat(w.ledger, [e], op.now);
      AppendSaved(w, e, op.now);
      assert Trim(e) == ShareLink(op.id, Sha256(op.token), op.labelText, e.expiresAt, op.singleUse, None, [], None);
      assert Step(w, op).ledger == w.ledger + [e];
      assert Step(w, op).links == Retain(w.links + [Trim(e)], op.now);
    }
  }

  lemma AppendSaved(w: World, e: Entry, now: U64)
    requires Inv(w) && w.clock <= now
    ensures Retain(w.links + [Trim(e)], now) == Retain(TrimAll(w.ledger + [e]), now)
  {
    assert TrimAll(w.ledger + [e]) == TrimAll(w.ledger) + [Trim(e)];
    RetainConcat(w.links, [Trim(e)], now);
    RetainConcat(TrimAll(w.ledger), [Trim(e)], now);
    RetainTwice(TrimAll(w.ledger), w.savedAt, now);
  }

  // Editing ledger entry `i` and file record `j` alike, then saving.
  lemma EditKeeps(w: World, i: nat, e: Entry, j: nat, now: U64)
    requires Inv(w) && w.clock <= now && i < |w.ledger|
    requires Kept(Trim(w.ledger[i]), w.savedAt) && e.expiresAt == w.ledger[i].expiresAt
    requires w.ledger[i].revokedAt.Some? ==> e.revokedAt.Some?
    requires j == |Retain(TrimAll(w.ledger)[..i], w.savedAt)|
    ensures j < |w.links|
    ensures Retain(w.links[j := Trim(e)], now) == Retain(TrimAll(w.ledger[i := e]), now)
    ensures ActiveEntries(w.ledger[i := e], now) <= MAX_ACTIVE_LINKS
  {
    var k := RetainAt(TrimAll(w.ledger), i, Trim(e), w.savedAt);
    assert TrimAll(w.ledger[i := e]) == TrimAll(w.ledger)[i := Trim(e)];
    RetainTwice(TrimAll(w.ledger[i := e]), w.savedAt, now);
    ActiveShrinks(w.ledger, w.ledger[i := e], w.clock, now);
  }

  // A pruned entry can be edited in the ledger without the file noticing.
  lemma EditPruned(w: World, i: nat, e: Entry)
    requires i < |w.ledger| && !Kept(Trim(w.ledger[i]), w.savedAt) && e.expiresAt == w.ledger[i].expiresAt
    ensures Retain(TrimAll(w.ledger[i := e]), w.savedAt) == Retain(TrimAll(w.ledger), w.savedAt)
  {
    var xs := TrimAll(w.ledger);
    var tail := xs[i + 1..];
    assert xs == xs[..i] + ([xs[i]] + tail);
    assert TrimAll(w.ledger[i := e]) == xs[..i] + ([Trim(e)] + tail);
    RetainConcat(xs[..i], [xs[i]] + tail, w.savedAt);
    RetainConcat(xs[..i], [Trim(e)] + tail, w.savedAt);
    RetainConcat([xs[i]], tail, w.savedAt);
    RetainConcat([Trim(e)], tail, w.savedAt);
  }

  lemma IdAt(ledger: Ledger, t: U64, i: nat, id: string) returns (j: nat)
    requires EntriesSound(ledger) && i < |ledger| && ledger[i].id == id && Kept(Trim(ledger[i]), t)
    ensures j == |Retain(TrimAll(ledger)[..i], t)| == FindId(Retain(TrimAll(ledger), t), id)
    ensures j < |Retain(TrimAll(ledger), t)| && Retain(TrimAll(ledger), t)[j] == Trim(ledger[i])
  {
    var xs := TrimAll(ledger);
    j := RetainAt(xs, i, xs[i], t);
    RetainMembers(xs[..i], t);
    forall m | 0 <= m < j
      ensures Retain(xs, t)[m].id != id
    {
      assert Retain(xs, t)[..j][m] in Retain(xs[..i], t);
    }
  }

  // The file never holds an id the ledger lacks.
  lemma IdKnown(w: World, id: string)
    requires Inv(w) && FindId(w.links, id) < |w.links|
    ensures FindEntry(w.ledger, id) < |w.ledger|
    ensures Kept(Trim(w.ledger[FindEntry(w.ledger, id)]), w.savedAt)
  {
    var l := w.links[FindId(w.links, id)];
    RetainMembers(TrimAll(w.ledger), w.savedAt);
    assert l in TrimAll(w.ledger);
    var i :| 0 <= i < |w.ledger| && l == Trim(w.ledger[i]);
    assert FindEntry(w.ledger, id) == i;
  }

  // Revoking in file and ledger alike.
  lemma RevokeKeeps(w: World, op: Op)
    requires op.Revoke? && Inv(w) && w.clock <= op.now
    ensures Inv(Step(w, op))
  {
    var i := FindEntry(w.ledger, op.id);
    if FindId(w.links, op.id) < |w.links| {
      IdKnown(w, op.id);
      RevokeKept(w, op, i);
    } else {
      RevokeUnknown(w, op, i);
    }
  }

  lemma RevokedSound(ledger: Ledger, i: nat, now: U64)
    requires EntriesSound(ledger) && i < |ledger|
    ensures EntriesSound(ledger[i := ledger[i].(revokedAt := Some(now))])
  {
    assert EntrySound(ledger[i]);
    assert EntrySound(ledger[i].(revokedAt := Some(now)));
  }

  lemma RevokeKept(w: World, op: Op, i: nat)
    requires op.Revoke? && Inv(w) && w.clock <= op.now
    requires i == FindEntry(w.ledger, op.id) < |w.ledger| && Kept(Trim(w.ledger[i]), w.savedAt)
    ensures Inv(Step(w, op))
  {
    ActiveShrinks(w.ledger, w.ledger, w.clock, op.now);
    var j := IdAt(w.ledger, w.savedAt, i, op.id);
    if Written(op.io) && w.ledger[i].revokedAt.None? {
      var e := w.ledger[i].(revokedAt := Some(op.now));
      EditKeeps(w, i, e, j, op.now);
      RevokedSound(w.ledger, i, op.now);
      assert Trim(e) == w.links[j].(revokedAt := Some(op.now));
      assert Step(w, op).ledger == w.ledger[i := e];
      assert Step(w, op).links == Retain(w.links[j := Trim(e)], op.now);
    }
  }

  lemma RevokeUnknown(w: World, op: Op, i: nat)
    requires op.Revoke? && Inv(w) && w.clock <= op.now
    requires i == FindEntry(w.ledger, op.id) && FindId(w.links, op.id) == |w.links|
    ensures Inv(Step(w, op))
  {
    ActiveShrinks(w.ledger, w.ledger, w.clock, op.now);
    if i < |w.ledger| {
      if Kept(Trim(w.ledger[i]), w.savedAt) {
        var j := IdAt(w.ledger, w.savedAt, i, op.id);
      } else if Written(op.io) && w.ledger[i].revokedAt.None? {
        var e := w.ledger[i].(revokedAt := Some(op.now));
        EditPruned(w, i, e);
        RevokedSound(w.ledger, i, op.now);
        ActiveShrinks(w.ledger, w.ledger[i := e], w.clock, op.now);
        assert Step(w, op).ledger == w.ledger[i := e];
      }
    }
  }

  lemma RedeemedSound(ledger: Ledger, i: nat, now: U64, token: string, session: string)
    requires EntriesSound(ledger) && i < |ledger| && UrlOpens(ledger[i], now, token)
    requires LooksLikeLinkToken(session) && forall e :: e in ledger ==> session !in e.sessions
    ensures EntriesSound(ledger[i := Redeemed(ledger[i], now, session)])
  {
    assert EntrySound(ledger[i]);
    assert ledger[i] in ledger;
    assert EntrySound(Redeemed(ledger[i], now, session));
  }

  lemma RedeemedTrim(e: Entry, now: U64, session: string)
    ensures Trim(Redeemed(e, now, session)) == Stamp(Trim(e), now, session)
  {
    assert Hashes(e.sessions + [session]) == Hashes(e.sessions) + [Sha256(session)];
    LastNAppend(Hashes(e.sessions), Sha256(session), MAX_SESSIONS_PER_LINK);
  }

  lemma RedeemKeeps(w: World, op: Op)
    requires op.Redeem? && Inv(w) && w.clock <= op.now && FreshDraws(w.ledger, op)
    ensures Inv(Step(w, op))
  {
    ActiveShrinks(w.ledger, w.ledger, w.clock, op.now);
    if op.via == Query && Judge(w.links, op.now, op.presented, Query).Ok? {
      var i := FoundIsOpen(w, op.now, op.presented, Query);
      RedeemUrl(w, op, i);
    } else if op.via == Query {
      var i := FindToken(w.ledger, op.presented);
      if i < |w.ledger| && UrlOpens(w.ledger[i], op.now, op.presented) {
        var j := OpenIsFound(w, i, op.now, op.presented, Query);
      }
    }
  }

  lemma RedeemUrl(w: World, op: Op, i: nat)
    requires op.Redeem? && op.via == Query && Inv(w) && w.clock <= op.now && FreshDraws(w.ledger, op)
    requires i < |w.ledger| && UrlOpens(w.ledger[i], op.now, op.presented)
    ensures Inv(Step(w, op))
  {
    ActiveShrinks(w.ledger, w.ledger, w.clock, op.now);
    var j := OpenIsFound(w, i, op.now, op.presented, Query);
    RedeemUrlStep(w, op, i, j);
    if Written(op.io) {
      var e := Redeemed(w.ledger[i], op.now, op.session);
      RedeemedSound(w.ledger, i, op.now, op.presented, op.session);
      EditKeeps(w, i, e, j, op.now);
    }
  }

  // A good URL edits file and ledger alike.
  lemma RedeemUrlStep(w: World, op: Op, i: nat, j: nat)
    requires op.Redeem? && op.via == Query && EntriesSound(w.ledger) && i < |w.ledger|
    requires UrlOpens(w.ledger[i], op.now, op.presented)
    requires j < |w.links| && w.links[j] == Trim(w.ledger[i]) && Judge(w.links, op.now, op.presented, Query) == Ok(j)
    ensures var e := Redeemed(w.ledger[i], op.now, op.session);
            Step(w, op) ==
            if Written(op.io) then World(Retain(w.links[j := Trim(e)], op.now), op.now, w.ledger[i := e], op.now)
            else w.(clock := op.now)
  {
    assert FindToken(w.ledger, op.presented) == i;
    RedeemedTrim(w.ledger[i], op.now, op.session);
  }

  // The file is the pruned, trimmed ledger in every reachable state.
  lemma {:induction false} Reachable(ops: seq<Op>)
    requires IsRun(ops)
    ensures Inv(Exec(ops))
  {
    if ops != [] {
      var before := ops[..|ops| - 1];
      Reachable(before);
      match ops[|ops| - 1] {
        case Mint(_, _, _, _, _, _, _) => MintKeeps(Exec(before), ops[|ops| - 1]);
        case Revoke(_, _, _) => RevokeKeeps(Exec(before), ops[|ops| - 1]);
        case Redeem(_, _, _, _, _) => RedeemKeeps(Exec(before), ops[|ops| - 1]);
      }
    }
  }
}
