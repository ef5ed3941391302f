// What the share-link store's answers mean in terms of the calls made so far.
//
// No theorem here mentions the ledger: a run is a sequence of calls, and a secret is
// accepted exactly when the calls before it say so.
module ShareLinkHistory {
  import opened Wrappers
  import opened ShareLinks

  // Call `k` replaced the links file.
  ghost predicate Took(ops: seq<Op>, k: nat) {
    k < |ops| && StoreStep(Exec(ops[..k]).links, ops[k]).2
  }

  ghost predicate LinkMinted(ops: seq<Op>, k: nat) {
    k < |ops| && ops[k].Mint? && Took(ops, k)
  }

  // A revocation of `id` was asked for after call `k`, and the disk took it.
  ghost predicate RevokedSince(ops: seq<Op>, k: nat, id: string) {
    exists m :: k < m < |ops| && IsRevocation(ops[m], id)
  }

  predicate IsRevocation(op: Op, id: string) {
    op.Revoke? && op.id == id && Written(op.io)
  }

  // Every session issued by a URL redemption of `token`, oldest first.
  ghost function Issued(ops: seq<Op>, token: string): seq<string> {
    if ops == [] then []
    else
      var before := ops[..|ops| - 1];
      var op := ops[|ops| - 1];
      Issued(before, token) +
      if op.Redeem? && op.via == Query && op.presented == token && Took(ops, |ops| - 1) then [op.session] else []
  }

  ghost predicate UrlAllowed(ops: seq<Op>, m: Op, presented: string)
    requires m.Mint?
  {
    m.token == presented && (!m.singleUse || Issued(ops, m.token) == [])
  }

  ghost predicate CookieAllowed(ops: seq<Op>, m: Op, presented: string)
    requires m.Mint?
  {
    var sessions := Issued(ops, m.token);
    exists j :: 0 <= j < |sessions| && sessions[j] == presented && |sessions| - j - 1 < 16
  }

  // The link minted by call `k` lets `presented` in at `now`.
  ghost predicate Allowed(ops: seq<Op>, k: nat, now: U64, presented: string, via: Presentation) {
    && LinkMinted(ops, k)
    && now < SatAdd(ops[k].now, ops[k].ttl)
    && !RevokedSince(ops, k, ops[k].id)
    && (match via
        case Query => UrlAllowed(ops, ops[k], presented)
        case Cookie => CookieAllowed(ops, ops[k], presented))
  }

  // ---- the ledger read off the calls ----------------------------------------------

  // The calls that minted the ledger's entries, in order.
  ghost function Mints(ops: seq<Op>): (ks: seq<nat>)
    ensures forall k :: k in ks <==> LinkMinted(ops, k)
  {
    if ops == [] then []
    else
      var n := |ops| - 1;
      var ks := Mints(ops[..n]);
      assert forall k: nat | k < n :: ops[..n][..k] == ops[..k] && ops[..n][k] == ops[k];
      assert forall k: nat | k < n :: LinkMinted(ops[..n], k) <==> LinkMinted(ops, k);
      if LinkMinted(ops, n) then ks + [n] else ks
  }

  ghost predicate Tells(ops: seq<Op>, k: nat, e: Entry) {
    && k < |ops| && ops[k].Mint?
    && e.id == ops[k].id && e.token == ops[k].token && e.labelText == ops[k].labelText
    && e.singleUse == ops[k].singleUse
    && e.expiresAt == SatAdd(ops[k].now, ops[k].ttl)
    && e.sessions == Issued(ops, e.token)
    && (e.revokedAt.Some? <==> RevokedSince(ops, k, e.id))
  }

  lemma RevokedSinceStep(ops: seq<Op>, k: nat, id: string)
    requires ops != [] && k < |ops| - 1
    ensures RevokedSince(ops, k, id) <==> RevokedSince(ops[..|ops| - 1], k, id) || IsRevocation(ops[|ops| - 1], id)
  {
    var n := |ops| - 1;
    if m :| k < m < n && IsRevocation(ops[..n][m], id) {
      assert IsRevocation(ops[m], id);
    }
    if m :| k < m < |ops| && IsRevocation(ops[m], id) {
      if m < n { assert IsRevocation(ops[..n][m], id); }
    }
  }

  ghost predicate LedgerTold(ops: seq<Op>) {
    var ledger := Exec(ops).ledger;
    && |Mints(ops)| == |ledger|
    && (forall i :: 0 <= i < |ledger| ==> Tells(ops, Mints(ops)[i], ledger[i]))
    && (forall token :: Issued(ops, token) != [] ==> FindToken(ledger, token) < |ledger|)
  }

  // A redemption that took is a redemption of the ledger's own entry.
  lemma TookUrl(w: World, op: Op) returns (i: nat)
    requires Inv(w) && w.clock <= op.now && op.Redeem?
    ensures i == FindToken(w.ledger, op.presented)
    ensures StoreStep(w.links, op).2 <==>
            Written(op.io) && op.via == Query && i < |w.ledger| && UrlOpens(w.ledger[i], op.now, op.presented)
  {
    i := FindToken(w.ledger, op.presented);
    if op.via == Query && Judge(w.links, op.now, op.presented, Query).Ok? {
      var j := FoundIsOpen(w, op.now, op.presented, Query);
      assert w.ledger[j].token == w.ledger[i].token;
    }
    if op.via == Query && i < |w.ledger| && UrlOpens(w.ledger[i], op.now, op.presented) {
      var j := OpenIsFound(w, i, op.now, op.presented, Query);
      assert EntrySound(w.ledger[i]);
    }
  }

  lemma IssuedStep(ops: seq<Op>, before: seq<Op>, op: Op, token: string)
    requires ops == before + [op]
    ensures Issued(ops, token) ==
            Issued(before, token) +
            if op.Redeem? && op.via == Query && op.presented == token && Took(ops, |before|) then [op.session] else []
  {
    assert ops[..|ops| - 1] == before;
  }

  // What call `op` must do to an entry for it to tell the story with that call in it.
  ghost predicate Follows(ops: seq<Op>, op: Op, e: Entry, e': Entry) {
    && e' == e.(usedAt := e'.usedAt, sessions := e'.sessions, revokedAt := e'.revokedAt)
    && e'.sessions == Issued(ops, e.token)
    && (e'.revokedAt.Some? <==> e.revokedAt.Some? || IsRevocation(op, e.id))
  }

  lemma TellsStep(ops: seq<Op>, before: seq<Op>, op: Op, k: nat, e: Entry, e': Entry)
    requires ops == before + [op] && Tells(before, k, e) && Follows(ops, op, e, e')
    ensures Tells(ops, k, e')
  {
    assert ops[..|ops| - 1] == before && ops[k] == before[k];
    RevokedSinceStep(ops, k, e.id);
  }

  lemma MintsStep(ops: seq<Op>, before: seq<Op>, op: Op)
    requires ops == before + [op]
    ensures Mints(ops) == Mints(before) + if LinkMinted(ops, |before|) then [|before|] else []
  {
    assert ops[..|ops| - 1] == before;
  }

  lemma FoundStays(a: Ledger, b: Ledger, token: string)
    requires |a| <= |b| && forall i :: 0 <= i < |a| ==> b[i].token == a[i].token
    requires FindToken(a, token) < |a|
    ensures FindToken(b, token) < |b|
  {
    assert b[FindToken(a, token)].token == token;
  }

  // The last call's effect on the ledger, by its kind.
  lemma MintShape(w: World, op: Op, e: Entry)
    requires Inv(w) && w.clock <= op.now && op.Mint?
    requires e == Entry(op.id, op.token, op.labelText, SatAdd(op.now, op.ttl), op.singleUse, None, [], None)
    ensures LedgerStep(w.ledger, op) == if StoreStep(w.links, op).2 then w.ledger + [e] else w.ledger
  {
    CountsAgree(w.ledger, w.savedAt, op.now);
  }

  // Every entry follows and a new one tells of its own minting: then all is told.
  lemma ToldStep(ops: seq<Op>, before: seq<Op>, op: Op, a: Ledger, b: Ledger)
    requires ops == before + [op] && LedgerTold(before) && a == Exec(before).ledger && b == Exec(ops).ledger
    requires |b| == |a| + if LinkMinted(ops, |before|) then 1 else 0
    requires forall i :: 0 <= i < |a| ==> Follows(ops, op, a[i], b[i])
    requires LinkMinted(ops, |before|) ==> Tells(ops, |before|, b[|a|])
    requires op.Redeem? && Took(ops, |before|) ==> FindToken(a, op.presented) < |a|
    ensures LedgerTold(ops)
  {
    MintsStep(ops, before, op);
    forall i | 0 <= i < |b|
      ensures Tells(ops, Mints(ops)[i], b[i])
    {
      if i < |a| { TellsStep(ops, before, op, Mints(before)[i], a[i], b[i]); }
    }
    forall token | Issued(ops, token) != []
      ensures FindToken(b, token) < |b|
    {
      IssuedStep(ops, before, op, token);
      FoundStays(a, b, token);
    }
  }

  lemma ToldAfterMint(ops: seq<Op>, before: seq<Op>, op: Op)
    requires ops == before + [op] && IsRun(ops) && op.Mint? && LedgerTold(before)
    ensures LedgerTold(ops)
  {
    assert ops[..|ops| - 1] == before;
    var w := Exec(before);
    Reachable(before);
    var e := Entry(op.id, op.token, op.labelText, SatAdd(op.now, op.ttl), op.singleUse, None, [], None);
    MintShape(w, op, e);
    forall i | 0 <= i < |w.ledger|
      ensures Follows(ops, op, w.ledger[i], Exec(ops).ledger[i])
    {
      assert Tells(before, Mints(before)[i], w.ledger[i]);
      IssuedStep(ops, before, op, w.ledger[i].token);
    }
    if LinkMinted(ops, |before|) {
      FreshTokenUnseen(ops, before, op);
      assert Tells(ops, |before|, e);
    }
    ToldStep(ops, before, op, w.ledger, Exec(ops).ledger);
  }

  lemma FreshTokenUnseen(ops: seq<Op>, before: seq<Op>, op: Op)
    requires ops == before + [op] && op.Mint? && LedgerTold(before) && FreshDraws(Exec(before).ledger, op)
    ensures Issued(ops, op.token) == []
  {
    var ledger := Exec(before).ledger;
    IssuedStep(ops, before, op, op.token);
    forall i | 0 <= i < |ledger|
      ensures ledger[i].token != op.token
    {
      assert ledger[i] in ledger;
    }
  }

  lemma ToldAfterRevoke(ops: seq<Op>, before: seq<Op>, op: Op)
    requires ops == before + [op] && IsRun(ops) && op.Revoke? && LedgerTold(before)
    ensures LedgerTold(ops)
  {
    assert ops[..|ops| - 1] == before;
    var w := Exec(before);
    Reachable(before);
    var found := FindEntry(w.ledger, op.id);
    forall i | 0 <= i < |w.ledger|
      ensures Follows(ops, op, w.ledger[i], Exec(ops).ledger[i])
    {
      assert Tells(before, Mints(before)[i], w.ledger[i]);
      IssuedStep(ops, before, op, w.ledger[i].token);
      assert i != found ==> w.ledger[i].id != op.id;
    }
    ToldStep(ops, before, op, w.ledger, Exec(ops).ledger);
  }

  lemma ToldAfterRedeem(ops: seq<Op>, before: seq<Op>, op: Op)
    requires ops == before + [op] && IsRun(ops) && op.Redeem? && LedgerTold(before)
    ensures LedgerTold(ops)
  {
    assert ops[..|ops| - 1] == before;
    var w := Exec(before);
    Reachable(before);
    var found := TookUrl(w, op);
    forall i | 0 <= i < |w.ledger|
      ensures Follows(ops, op, w.ledger[i], Exec(ops).ledger[i])
    {
      assert Tells(before, Mints(before)[i], w.ledger[i]);
      IssuedStep(ops, before, op, w.ledger[i].token);
      assert found < |w.ledger| && i != found ==> w.ledger[i].token != w.ledger[found].token;
    }
    ToldStep(ops, before, op, w.ledger, Exec(ops).ledger);
  }

  // The ledger is exactly what the calls say.
  lemma {:induction false} LedgerIsTold(ops: seq<Op>)
    requires IsRun(ops)
    ensures LedgerTold(ops)
  {
    if ops != [] {
      var before, op := ops[..|ops| - 1], ops[|ops| - 1];
      LedgerIsTold(before);
      assert ops == before + [op];
      match op {
        case Mint(_, _, _, _, _, _, _) => ToldAfterMint(ops, before, op);
        case Revoke(_, _, _) => ToldAfterRevoke(ops, before, op);
        case Redeem(_, _, _, _, _) => ToldAfterRedeem(ops, before, op);
      }
    }
  }

  // ---- the theorems -----------------------------------------------------------------

  lemma OpensIsAllowed(ops: seq<Op>, i: nat, now: U64, presented: string, via: Presentation)
    requires LedgerTold(ops) && i < |Mints(ops)|
    ensures Opens(Exec(ops).ledger[i], now, presented, via) <==> Allowed(ops, Mints(ops)[i], now, presented, via)
  {
    assert Mints(ops)[i] in Mints(ops);
    assert Tells(ops, Mints(ops)[i], Exec(ops).ledger[i]);
  }

  // After any run, the bounded file accepts exactly what the full history allows.
  lemma AcceptsExactlyTheAllowed(ops: seq<Op>, now: U64, presented: string, via: Presentation)
    requires IsRun(ops) && Exec(ops).clock <= now
    ensures Judge(Exec(ops).links, now, presented, via).Ok? <==> exists k: nat :: Allowed(ops, k, now, presented, via)
  {
    Reachable(ops);
    LedgerIsTold(ops);
    if Judge(Exec(ops).links, now, presented, via).Ok? {
      var i := FoundIsOpen(Exec(ops), now, presented, via);
      OpensIsAllowed(ops, i, now, presented, via);
    }
    if k: nat :| Allowed(ops, k, now, presented, via) {
      assert k in Mints(ops);
      var i :| 0 <= i < |Mints(ops)| && Mints(ops)[i] == k;
      OpensIsAllowed(ops, i, now, presented, via);
      var j := OpenIsFound(Exec(ops), i, now, presented, via);
    }
  }

  // A success names the link that allowed it, counts down to its expiry, and calls
  // itself the first use exactly when no URL redemption of that link came before.
  lemma ReceiptIsTrue(ops: seq<Op>, now: U64, presented: string, via: Presentation, session: string) returns (k: nat)
    requires IsRun(ops) && Exec(ops).clock <= now
    requires Judge(Exec(ops).links, now, presented, via).Ok?
    ensures Allowed(ops, k, now, presented, via)
    ensures var link := Exec(ops).links[Judge(Exec(ops).links, now, presented, via).value];
            Receipt(link, now, via, session) ==
            RedeemedLink(ops[k].id, ops[k].labelText, ops[k].singleUse, SatAdd(ops[k].now, ops[k].ttl) - now,
                         via == Query && Issued(ops, ops[k].token) == [],
                         if via == Query then Some(session) else None)
  {
    Reachable(ops);
    LedgerIsTold(ops);
    var i := FoundIsOpen(Exec(ops), now, presented, via);
    OpensIsAllowed(ops, i, now, presented, via);
    var j := OpenIsFound(Exec(ops), i, now, presented, via);
    k := Mints(ops)[i];
    assert EntrySound(Exec(ops).ledger[i]);
    assert Tells(ops, k, Exec(ops).ledger[i]);
  }

  // In every reachable state at most fifty links are active, now and later.
  lemma AtMostFiftyActive(ops: seq<Op>, now: U64)
    requires IsRun(ops) && Exec(ops).clock <= now
    ensures CountActive(Exec(ops).links, now) <= 50
  {
    Reachable(ops);
    var w := Exec(ops);
    CountsAgree(w.ledger, w.savedAt, now);
    ActiveShrinks(w.ledger, w.ledger, w.clock, now);
  }

  // How many URL presentations of `token` succeeded.
  ghost function UrlSuccesses(ops: seq<Op>, token: string): nat {
    if ops == [] then 0
    else
      var before, op := ops[..|ops| - 1], ops[|ops| - 1];
      UrlSuccesses(before, token) +
      if op.Redeem? && op.via == Query && op.presented == token && Answer(Exec(before), op).RedeemedOk? then 1 else 0
  }

  lemma {:induction false} SuccessesAreIssued(ops: seq<Op>, token: string)
    requires IsRun(ops)
    ensures UrlSuccesses(ops, token) <= |Issued(ops, token)|
  {
    if ops != [] {
      SuccessesAreIssued(ops[..|ops| - 1], token);
    }
  }

  // A single-use URL succeeds at most once, ever.
  lemma SingleUseSucceedsOnce(ops: seq<Op>, k: nat)
    requires IsRun(ops) && LinkMinted(ops, k) && ops[k].singleUse
    ensures UrlSuccesses(ops, ops[k].token) <= 1
  {
    Reachable(ops);
    LedgerIsTold(ops);
    SuccessesAreIssued(ops, ops[k].token);
    var i :| 0 <= i < |Mints(ops)| && Mints(ops)[i] == k;
    assert EntrySound(Exec(ops).ledger[i]);
  }
}
