// Everything outside the ACME client: a CA that obeys section 7.1.6 of RFC 8555 and may
// otherwise answer as it likes, the DNS provider, the DNS checks and the clock. It also
// watches: a `Fault` is recorded the moment the client breaks a rule.
module AcmeWorld {
  import opened Wrappers
  import Dns01

  type Nonce = nat
  type KeyId = nat

  datatype OrderStatus = Pending | Ready | Processing | Valid | Invalid

  // `csr` is the key the CA was asked to certify; `asked` counts the finalize requests
  // the client sent for this order, those rejected for their nonce excepted; `authzs` is how
  // many authorizations it needs.
  datatype Order = Order(status: OrderStatus, csr: Option<KeyId>, asked: nat, authzs: nat)

  datatype Request =
    | NewAccount
    | NewOrder
    | GetAuthz(order: nat, authz: nat)
    | Respond(order: nat, authz: nat)
    | GetOrder(order: nat)
    | Finalize(order: nat, csr: KeyId)
    | Download(order: nat)

  datatype Status = Success | BadNonce | BadRequest | OtherFailure

  datatype AuthzStatus = AuthzPending | AuthzValid | AuthzInvalid(race: bool)

  datatype Body =
    | NoBody
    | AccountBody
    | NewOrderBody(order: nat, authzs: nat)
    | AuthzBody(txtValue: Option<string>, authzStatus: AuthzStatus)
    | OrderBody(status: OrderStatus, hasCert: bool)
    | CertBody(forKey: KeyId)

  datatype Response = Response(status: Status, nonce: Option<Nonce>, body: Body)

  // One DNS check for `value`: the last round of the authoritative one and its verdict, or its
  // failed look-up; or the answer of the public resolvers.
  datatype Check =
    | Looked(value: string, probes: seq<Dns01.Probe>, verdict: Dns01.Verdict)
    | LookupFailed(value: string)
    | Propagated(value: string)
    | NotPropagated(value: string)

  // What the CA last said of an authorization: the value its challenge asks for, and its state.
  datatype Challenge = Challenge(order: nat, authz: nat, value: Option<string>, status: AuthzStatus)

  // What the CA has told the client: that it has an account, its last word on an
  // authorization and how many such it gave, and which authorizations it called valid.
  datatype Told = Told(account: bool, challenge: Option<Challenge>, heard: nat, valid: set<(nat, nat)>)

  // After the answer to `req`, if one arrived.
  function Learned(t: Told, req: Request, resp: Option<Response>): Told {
    if resp.None? || !resp.value.status.Success? then t
    else match resp.value.body
         case AccountBody => t.(account := true)
         case AuthzBody(value, status) =>
           if !req.GetAuthz? then t
           else t.(challenge := Some(Challenge(req.order, req.authz, value, status)), heard := t.heard + 1,
                valid := if status.AuthzValid? then t.valid + {(req.order, req.authz)} else t.valid)
         case _ => t
  }

  predicate Grew(a: Told, b: Told) {
    (a.account ==> b.account) && a.heard <= b.heard && a.valid <= b.valid
  }

  datatype Fault =
    | NonceReused | NonceNotIssued          // section 6.5
    | Unregistered                          // a request before there is an account
    | WrongRecord | PublishedTwice          // a record no challenge asks for, or a second one
    | RespondedUnchecked                    // a challenge answered before its record was found
    | FinalizedUnvalidated | FinalizedTwice // an order not yet authorized, or already finalized

  // ---- the CA's own moves (RFC 8555, section 7.1.6) ---------------------------------------------

  predicate Moves(a: OrderStatus, b: OrderStatus) {
    match a
    case Pending => b.Pending? || b.Ready? || b.Invalid?
    case Ready => b.Ready? || b.Invalid?
    case Processing => b.Processing? || b.Valid? || b.Invalid?
    case Valid => b.Valid?
    case Invalid => b.Invalid?
  }

  predicate Evolves(a: Order, b: Order) {
    b.csr == a.csr && b.asked == a.asked && b.authzs == a.authzs && Moves(a.status, b.status)
  }

  predicate AllEvolve(a: seq<Order>, b: seq<Order>) {
    |a| == |b| && forall i :: 0 <= i < |a| ==> Evolves(a[i], b[i])
  }

  // An accepted finalize records the CSR. It starts from `ready`, which a pending order may
  // have reached on the way.
  predicate Finalized(a: Order, b: Order, csr: KeyId) {
    (a.status.Pending? || a.status.Ready?) && b.csr == Some(csr) && (b.status.Processing? || b.status.Valid? || b.status.Invalid?)
  }

  // What one request that was not rejected for its nonce can do to the orders. The answer
  // may be lost, so this holds whatever the client is told.
  predicate Handles(a: seq<Order>, b: seq<Order>, req: Request) {
    match req
    case NewOrder =>
      AllEvolve(a, b) ||
      (|b| == |a| + 1 && AllEvolve(a, b[..|a|]) && b[|a|].csr.None? && b[|a|].asked == 0
       && (b[|a|].status.Pending? || b[|a|].status.Ready? || b[|a|].status.Invalid?))
    case Finalize(o, csr) =>
      |a| == |b| && (forall i :: 0 <= i < |a| && i != o ==> Evolves(a[i], b[i]))
      && (o < |a| ==> b[o].asked == a[o].asked + 1 && b[o].authzs == a[o].authzs
                      && (Finalized(a[o], b[o], csr) || (b[o].csr == a[o].csr && Moves(a[o].status, b[o].status))))
    case _ => AllEvolve(a, b)
  }

  // What a successful answer truthfully says.
  predicate Tells(a: seq<Order>, b: seq<Order>, req: Request, body: Body) {
    match body
    case AccountBody => req == NewAccount
    case NewOrderBody(o, authzs) => req == NewOrder && o == |a| && |b| == |a| + 1 && b[o].authzs == authzs
    case AuthzBody(_, _) => req.GetAuthz?
    case OrderBody(status, hasCert) => req.GetOrder? && req.order < |b| && status == b[req.order].status && (hasCert ==> status.Valid?)
    case CertBody(key) => req.Download? && req.order < |b| && b[req.order].status.Valid? && b[req.order].csr == Some(key)
    case _ => true
  }

  lemma EvolveTwice(a: seq<Order>, b: seq<Order>, c: seq<Order>)
    requires AllEvolve(a, b) && AllEvolve(b, c)
    ensures AllEvolve(a, c)
  {
    forall i | 0 <= i < |a|
      ensures Evolves(a[i], c[i])
    {
      assert Evolves(a[i], b[i]) && Evolves(b[i], c[i]);
    }
  }

  lemma EvolveThenHandle(a: seq<Order>, b: seq<Order>, c: seq<Order>, req: Request)
    requires AllEvolve(a, b) && Handles(b, c, req)
    ensures Handles(a, c, req)
  {
    match req
    case NewOrder =>
      if AllEvolve(b, c) { EvolveTwice(a, b, c); } else { EvolveTwice(a, b, c[..|b|]); }
    case Finalize(o, csr) =>
      forall i | 0 <= i < |a| && i != o
        ensures Evolves(a[i], c[i])
      {
        assert Evolves(a[i], b[i]) && Evolves(b[i], c[i]);
      }
      if o < |a| { assert Evolves(a[o], b[o]); }
    case _ =>
      EvolveTwice(a, b, c);
  }

  // Certificates exist only for a CSR the CA was given.
  predicate Certified(orders: seq<Order>) {
    forall i :: 0 <= i < |orders| && (orders[i].status.Processing? || orders[i].status.Valid?) ==> orders[i].csr.Some?
  }

  // When a challenge for `value` may be answered: after one round in which every nameserver
  // served it and none answered without it; after one in which none answered at all,
  // followed by the propagation check where there is one; or with no checker, after that.
  ghost predicate MayRespond(hasChecker: bool, hasWaiter: bool, checks: seq<Check>, value: string) {
    var waited := if hasWaiter then [Propagated(value)] else [];
    if hasChecker then
      && checks != [] && checks[0].Looked? && checks[0].value == value
      && var probes := checks[0].probes;
      || (checks[1..] == [] && Dns01.AllServe(probes) && !Dns01.NoneAnswered(probes))
      || (checks[1..] == waited && Dns01.NoneAnswered(probes))
    else checks == waited
  }

  ghost function NonceFaults(nonce: Nonce, used: seq<Nonce>, issued: set<Nonce>): set<Fault> {
    (if nonce in used then {NonceReused} else {}) + (if nonce !in issued then {NonceNotIssued} else {})
  }

  class World {
    const hasChecker: bool
    const hasWaiter: bool
    var orders: seq<Order>
    var issued: set<Nonce>
    var clock: nat
    ghost var used: seq<Nonce>      // the nonce of every signed request, oldest first
    ghost var replies: seq<Option<Status>>   // what each of them was answered; None if lost
    ghost var txt: Option<string>   // published, and not told to be cleared since
    ghost var record: Option<string>   // what the zone may still hold
    ghost var clearFailed: bool     // the last clear did
    ghost var checks: seq<Check>    // DNS checks since it was published
    ghost var told: Told
    ghost var publishFailures: nat
    ghost var faults: set<Fault>

    constructor (hasChecker: bool, hasWaiter: bool)
      ensures orders == [] && issued == {} && used == [] && replies == [] && Tidy() && checks == [] && faults == {} && !told.account
      ensures this.hasChecker == hasChecker && this.hasWaiter == hasWaiter
    {
      this.hasChecker, this.hasWaiter := hasChecker, hasWaiter;
      orders, issued, clock, used, replies, checks, faults := [], {}, 0, [], [], [], {};
      txt, record, clearFailed, publishFailures := None, None, false, 0;
      told := Told(false, None, 0, {});
    }

    ghost predicate Sound()
      reads this
    {
      Certified(orders)
    }

    // Every record published was told to be cleared, and is gone unless the last clear failed.
    ghost predicate Tidy()
      reads this
    {
      txt.None? && (record.Some? ==> clearFailed)
    }

    // The record this challenge asks for is published, and was found where the CA will look.
    ghost predicate Confirmed(order: nat, authz: nat)
      reads this
    {
      && told.challenge.Some? && told.challenge.value.order == order && told.challenge.value.authz == authz
      && told.challenge.value.value.Some? && txt == told.challenge.value.value
      && MayRespond(hasChecker, hasWaiter, checks, txt.value)
    }

    ghost predicate AllValid(order: nat)
      reads this
      requires order < |orders|
    {
      forall i :: 0 <= i < orders[order].authzs ==> (order, i) in told.valid
    }

    // Sending `req` breaks no rule.
    ghost predicate MaySend(req: Request)
      reads this
    {
      && (req != NewAccount ==> told.account)
      && (req.Respond? ==> Confirmed(req.order, req.authz))
      && (req.Finalize? && req.order < |orders| ==> orders[req.order].asked == 0 && AllValid(req.order))
    }

    // The rules it breaks. A request rejected for its nonce finalizes nothing.
    ghost function RequestFaults(req: Request, rejected: bool): set<Fault>
      reads this
    {
      (if req != NewAccount && !told.account then {Unregistered} else {})
      + (if req.Respond? && !Confirmed(req.order, req.authz) then {RespondedUnchecked} else {})
      + (if req.Finalize? && req.order < |orders| && !AllValid(req.order) then {FinalizedUnvalidated} else {})
      + (if req.Finalize? && req.order < |orders| && orders[req.order].asked > 0 && !rejected then {FinalizedTwice} else {})
    }

    // Time passes, never backwards.
    method Wait(seconds: nat)
      modifies this`clock
      ensures clock >= old(clock) + seconds
    {
      var late: int := *;
      clock := clock + seconds + if late > 0 then late else 0;
    }

    // A nonce never issued before, or none.
    method Issue() returns (n: Option<Nonce>)
      modifies this`issued
      ensures n.Some? ==> n.value !in old(issued) && issued == old(issued) + {n.value}
      ensures n.None? ==> issued == old(issued)
    {
      var candidate: int := *;
      if candidate < 0 || candidate in issued {
        return None;
      }
      issued := issued + {candidate};
      n := Some(candidate);
    }

    // HEAD newNonce.
    method Head() returns (n: Option<Nonce>)
      requires Sound()
      modifies this`issued, this`clock
      ensures Sound() && clock >= old(clock)
      ensures n.Some? ==> n.value !in old(issued) && issued == old(issued) + {n.value}
      ensures n.None? ==> issued == old(issued)
    {
      Wait(0);
      n := Issue();
    }

    // A signed POST. None: the connection failed, whatever the CA made of it.
    method Post(nonce: Nonce, req: Request) returns (r: Option<Response>)
      requires Sound()
      modifies this`orders, this`issued, this`clock, this`used, this`replies, this`told, this`faults
      ensures Sound() && clock >= old(clock)
      ensures told == Learned(old(told), req, r)
      ensures used == old(used) + [nonce]
      ensures replies == old(replies) + [if r.Some? then Some(r.value.status) else None]
      ensures old(issued) <= issued
      ensures r.Some? && r.value.nonce.Some? ==> r.value.nonce.value !in old(issued) && issued == old(issued) + {r.value.nonce.value}
      ensures r.Some? && r.value.status.BadNonce? ==> AllEvolve(old(orders), orders)
      ensures !(r.Some? && r.value.status.BadNonce?) ==> Handles(old(orders), orders, req)
      ensures r.Some? && r.value.status.Success? ==> Tells(old(orders), orders, req, r.value.body)
      ensures faults == old(faults) + NonceFaults(nonce, old(used), old(issued))
                        + old(RequestFaults(req, r.Some? && r.value.status.BadNonce?))
    {
      var status: Status, lost: bool := *, *;
      var rejected := !lost && status == BadNonce;
      faults := faults + NonceFaults(nonce, used, issued) + RequestFaults(req, rejected);
      used := used + [nonce];
      replies := replies + [if lost then None else Some(status)];
      Wait(0);
      var body := Process(req, rejected);
      var newNonce := Issue();
      if lost {
        return None;
      }
      r := Some(Response(status, newNonce, body));
      told := Learned(told, req, r);
    }

    // What the CA makes of a request it did not reject, and a truthful body about it.
    method Process(req: Request, rejected: bool) returns (body: Body)
      requires Sound()
      modifies this`orders
      ensures Sound() && Tells(old(orders), orders, req, body)
      ensures if rejected then AllEvolve(old(orders), orders) else Handles(old(orders), orders, req)
    {
      var before := orders;
      var next: seq<Order>, wanted: Body := *, *;
      orders := if rejected then before else Default(before, req);
      if Certified(next) && (if rejected then AllEvolve(before, next) else Handles(before, next, req)) {
        orders := next;
      }
      body := if Tells(before, orders, req, wanted) then wanted else NoBody;
    }

    // The DNS provider. A failed publish may still have left the record.
    method SetTxt(value: string) returns (ok: bool)
      modifies this`clock, this`txt, this`record, this`checks, this`publishFailures, this`faults
      ensures clock >= old(clock) && txt == Some(value) && checks == []
      ensures publishFailures == old(publishFailures) + if ok then 0 else 1
      ensures faults == old(faults) + (if old(txt).Some? then {PublishedTwice} else {})
                        + (if told.challenge.Some? && told.challenge.value.value == Some(value) then {} else {WrongRecord})
    {
      Wait(0);
      ok := *;
      publishFailures := publishFailures + if ok then 0 else 1;
      faults := faults + (if txt.Some? then {PublishedTwice} else {})
      + (if told.challenge.Some? && told.challenge.value.value == Some(value) then {} else {WrongRecord});
      txt, record, checks := Some(value), Some(value), [];
    }

    // A failed clear may leave the record there.
    method ClearTxt() returns (ok: bool)
      modifies this`clock, this`txt, this`record, this`clearFailed
      ensures clock >= old(clock) && Tidy() && (ok ==> record.None?)
    {
      Wait(0);
      ok := *;
      txt, clearFailed := None, !ok;
      if ok {
        record := None;
      }
    }

    // The authoritative check: look the servers up, then wait for all of them. None: the
    // look-up failed.
    method WaitForAll(value: string) returns (v: Option<Dns01.Verdict>)
      modifies this`clock, this`checks
      ensures clock >= old(clock)
      ensures v.None? ==> checks == old(checks) + [LookupFailed(value)]
      ensures v.Some? ==>
                exists probes ::
                  && checks == old(checks) + [Looked(value, probes, v.value)]
                  && (v.value.NoneReachable? <==> Dns01.NoneAnswered(probes))
                  && (v.value.AllServing? <==> Dns01.AllServe(probes) && !Dns01.NoneAnswered(probes))
    {
      var servers: seq<(string, Dns01.Addr)> := *;
      if servers == [] {
        checks := checks + [LookupFailed(value)];
        return None;
      }
      var net := new Dns01.Network();
      var verdict := Dns01.WaitForAll(net, servers, Dns01.DEFAULT_TIMEOUT);
      Wait(net.clock);
      checks := checks + [Looked(value, net.rounds[|net.rounds| - 1], verdict)];
      v := Some(verdict);
    }

    // The public-resolver check.
    method WaitFor(value: string) returns (c: Check)
      modifies this`clock, this`checks
      ensures clock >= old(clock) && (c == Propagated(value) || c == NotPropagated(value)) && checks == old(checks) + [c]
    {
      Wait(0);
      var seen: bool := *;
      c := if seen then Propagated(value) else NotPropagated(value);
      checks := checks + [c];
    }
  }

  // A request that changes nothing, but for being counted.
  function Default(a: seq<Order>, req: Request): (b: seq<Order>)
    requires Certified(a)
    ensures Handles(a, b, req) && Certified(b)
  {
    if req.Finalize? && req.order < |a| then a[req.order := a[req.order].(asked := a[req.order].asked + 1)] else a
  }
}
