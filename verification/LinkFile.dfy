// The store as the agent runs it: every operation re-reads the links file, edits the
// list and writes it back (native/src/local_auth.rs, `LinkStore`). The in-process mutex
// makes each method one atomic step.
module LinkFile {
  import opened Wrappers
  import opened LinkText
  import opened ShareLinks

  class LinkStore {
    var file: seq<ShareLink>   // the records in local-auth-links.json; absent reads as []

    constructor ()
      ensures file == []
    {
      file := [];
    }

    // Prune, then write. Every write goes through here.
    method Save(links: seq<ShareLink>, now: U64, io: Io) returns (ok: bool)
      modifies this
      ensures ok == (io.Fine? || io.LoadFails?)
      ensures file == if io.SaveFailsEarly? then old(file) else Retain(links, now)
    {
      if io.SaveFailsEarly? {
        return false;
      }
      file := Retain(links, now);
      ok := !io.SaveFailsLate?;
    }

    method MintAt(now: U64, ttl: U64, singleUse: bool, labelText: string, token: string, id: string, io: Io)
      returns (reply: Reply)
      modifies this
      ensures (file, reply) == (StoreStep(old(file), Mint(now, ttl, singleUse, labelText, token, id, io)).0,
                                StoreStep(old(file), Mint(now, ttl, singleUse, labelText, token, id, io)).1)
    {
      if io.LoadFails? {
        return StoreFailed;
      }
      var links := file;
      var active := CountActive(links, now);
      if active >= MAX_ACTIVE_LINKS {
        return TooManyActive(active);
      }
      var link := ShareLink(id, Sha256(token), labelText, SatAdd(now, ttl), singleUse, None, [], None);
      links := links + [link];
      var ok := Save(links, now, io);
      if !ok {
        return StoreFailed;
      }
      reply := MintedOk(id, link.expiresAt);
    }

    method RevokeAt(now: U64, id: string, io: Io) returns (reply: Reply)
      modifies this
      ensures (file, reply) == (StoreStep(old(file), Revoke(now, id, io)).0, StoreStep(old(file), Revoke(now, id, io)).1)
    {
      if io.LoadFails? {
        return StoreFailed;
      }
      var links := file;
      var k := FindId(links, id);
      if k == |links| {
        return NoSuchId;
      }
      if links[k].revokedAt.Some? {
        return AlreadyRevoked;
      }
      links := links[k := links[k].(revokedAt := Some(now))];
      var ok := Save(links, now, io);
      reply := if ok then RevokedOk else StoreFailed;
    }

    method RedeemAt(now: U64, presented: string, via: Presentation, session: string, io: Io) returns (reply: Reply)
      modifies this
      ensures (file, reply) == (StoreStep(old(file), Redeem(now, presented, via, session, io)).0,
                                StoreStep(old(file), Redeem(now, presented, via, session, io)).1)
    {
      if !LooksLikeLinkToken(presented) {
        return Refused(Unknown);
      }
      if io.LoadFails? {
        return Refused(Store);
      }
      var links := file;
      var k := FindSecret(links, Sha256(presented), via);
      if k == |links| {
        return Refused(Unknown);
      }
      var link := links[k];
      if link.revokedAt.Some? {
        return Refused(Revoked);
      }
      if now >= link.expiresAt {
        return Refused(Expired);
      }
      if link.singleUse && link.usedAt.Some? && via == Query {
        return Refused(AlreadyUsed);
      }
      var firstUse := via == Query && link.usedAt.None?;
      if firstUse {
        link := link.(usedAt := Some(now));
      }
      var issued: Option<string> := None;
      if via == Query {
        var hashes := link.sessionHashes + [Sha256(session)];
        var excess := if |hashes| > MAX_SESSIONS_PER_LINK then |hashes| - MAX_SESSIONS_PER_LINK else 0;
        link := link.(sessionHashes := hashes[excess..]);
        issued := Some(session);
        var ok := Save(links[k := link], now, io);
        if !ok {
          return Refused(Store);
        }
      }
      reply := RedeemedOk(RedeemedLink(link.id, link.labelText, link.singleUse, link.expiresAt - now, firstUse, issued));
    }
  }
}
