// The ACME client (native/src/acme_client.rs): nonces, whole-order retries, the gated
// DNS-01 challenge and its clean-up.
module AcmeClient {
  import opened Wrappers
  import opened AcmeWorld

  const POLL_TIMEOUT: nat := 120
  const POLL_INTERVAL: nat := 3
  const RETRY_BACKOFF: nat := 30

  datatype Error =
    | PublishFailed | AuthoritativeCheckFailed | PropagationCheckFailed | ValidationRace
    | AuthorizationInvalid | NotSettled | RequestFailed | Malformed | NoNonce | NotReady | NoRecordedError

  // The propagation race a fresh order can win.
  predicate IsDns01Failure(e: Error) {
    e.PublishFailed? || e.AuthoritativeCheckFailed? || e.PropagationCheckFailed? || e.ValidationRace?
  }

  const DNS01_FAILURES := {PublishFailed, AuthoritativeCheckFailed, PropagationCheckFailed, ValidationRace}

  // What a challenge ended with is what the CA last said of its authorization.
  predicate Verdict(said: Option<Challenge>, order: nat, authz: nat, r: Result<(), Error>) {
    && said.Some? && said.value.order == order && said.value.authz == authz
    && match said.value.status
       case AuthzValid => r == Ok(())
       case AuthzInvalid(true) => r == Err(ValidationRace)
       case AuthzInvalid(false) => r == Err(AuthorizationInvalid)
       case AuthzPending => r.Err? && r.error != ValidationRace && r.error != AuthorizationInvalid
  }

  predicate Undecided(said: Option<Challenge>, order: nat, authz: nat) {
    said.Some? && said.value.order == order && said.value.authz == authz && said.value.status == AuthzPending
  }

  datatype IssuedCert = IssuedCert(forKey: KeyId, key: KeyId)

  class AcmeClient {
    const world: World
    var nonce: Option<Nonce>
    var registered: bool

    // Every nonce used was issued, none is used twice, and the one in hand is unused.
    ghost predicate Valid()
      reads this, world
    {
      && world.Sound()
      && |world.replies| == |world.used|
      && (forall n :: n in world.used ==> n in world.issued)
      && (forall i, j :: 0 <= i < j < |world.used| ==> world.used[i] != world.used[j])
      && (nonce.Some? ==> nonce.value in world.issued && nonce.value !in world.used)
      && (registered ==> world.told.account)
    }

    constructor (hasChecker: bool, hasWaiter: bool)
      ensures Valid() && fresh(world) && world.faults == {} && world.Tidy() && world.orders == []
      ensures world.hasChecker == hasChecker && world.hasWaiter == hasWaiter
    {
      world := new World(hasChecker, hasWaiter);
      nonce := None;
      registered := false;
    }

    method FreshNonce() returns (n: Result<Nonce, Error>)
      requires Valid()
      modifies this`nonce, world`issued, world`clock
      ensures Valid() && nonce == None && world.clock >= old(world.clock) && old(world.issued) <= world.issued
      ensures n.Ok? ==> n.value in world.issued && n.value !in world.used
      ensures n.Err? ==> n == Err(NoNonce)
    {
      if nonce.Some? {
        n := Ok(nonce.value);
        nonce := None;
        return;
      }
      var header := world.Head();
      n := if header.Some? then Ok(header.value) else Err(NoNonce);
    }

    method CaptureNonce(resp: Response)
      modifies this`nonce
      ensures nonce == if resp.nonce.Some? then resp.nonce else old(nonce)
    {
      if resp.nonce.Some? {
        nonce := resp.nonce;
      }
    }

    // Take a nonce, sign, send, keep the nonce of the answer.
    method Send(req: Request) returns (r: Result<Response, Error>)
      requires Valid()
      modifies this`nonce, world`orders, world`issued, world`clock, world`used, world`replies, world`told, world`faults
      ensures Valid() && world.clock >= old(world.clock)
      ensures r.Err? ==> r.error == NoNonce || r.error == RequestFailed
      ensures world.used == old(world.used) || |world.used| == |old(world.used)| + 1
      ensures old(world.used) <= world.used && old(world.replies) <= world.replies
      ensures r.Ok? ==> |world.used| == |old(world.used)| + 1 && world.replies[|old(world.used)|] == Some(r.value.status)
      ensures world.told == Learned(old(world.told), req, if r.Ok? then Some(r.value) else None)
      ensures if r.Ok? && r.value.status.BadNonce? then AllEvolve(old(world.orders), world.orders)
              else AllEvolve(old(world.orders), world.orders) || Handles(old(world.orders), world.orders, req)
      ensures r.Ok? && r.value.status.Success? ==>
                Handles(old(world.orders), world.orders, req) && Tells(old(world.orders), world.orders, req, r.value.body)
      ensures old(world.MaySend(req)) ==> world.faults == old(world.faults)
    {
      EvolvesItself(world.orders);
      var n := FreshNonce();
      if n.Err? {
        return Err(n.error);
      }
      var resp := world.Post(n.value, req);
      if resp.None? {
        return Err(RequestFailed);
      }
      CaptureNonce(resp.value);
      r := Ok(resp.value);
    }

    // At most two requests, the second only after badNonce and with a new nonce.
    method PostSigned(req: Request) returns (r: Result<Response, Error>)
      requires Valid()
      modifies this`nonce, world`orders, world`issued, world`clock, world`used, world`replies, world`told, world`faults
      ensures Valid() && world.clock >= old(world.clock)
      ensures r.Err? ==> r.error == NoNonce || r.error == RequestFailed
      ensures old(world.used) <= world.used && |world.used| <= |old(world.used)| + 2 && old(world.replies) <= world.replies
      ensures |world.used| == |old(world.used)| + 2 ==> world.replies[|old(world.used)|] == Some(BadNonce)
      ensures world.told == Learned(old(world.told), req, if r.Ok? then Some(r.value) else None)
      ensures AllEvolve(old(world.orders), world.orders) || Handles(old(world.orders), world.orders, req)
      ensures r.Ok? && r.value.status.Success? ==>
                Handles(old(world.orders), world.orders, req) && Tells(old(world.orders), world.orders, req, r.value.body)
      ensures old(world.MaySend(req)) ==> world.faults == old(world.faults)
    {
      ghost var a := world.orders;
      EvolvesItself(a);
      for attempt := 0 to 2
        invariant Valid() && world.clock >= old(world.clock)
        invariant old(world.used) <= world.used && |world.used| == |old(world.used)| + attempt
        invariant old(world.replies) <= world.replies
        invariant attempt > 0 ==> world.replies[|old(world.used)|] == Some(BadNonce)
        invariant attempt < 2 && AllEvolve(a, world.orders)
        invariant old(world.MaySend(req)) ==> world.MaySend(req) && world.faults == old(world.faults)
        invariant world.told == old(world.told)
      {
        ghost var b := world.orders;
        r := Send(req);
        SendAfterEvolving(a, b, world.orders, req);
        if r.Err? {
          return;
        }
        if attempt == 0 {
          if r.value.status.BadNonce? {
            continue;
          }
          if r.value.status.BadRequest? {
            return Err(RequestFailed);
          }
        }
        return;
      }
      r := Err(RequestFailed);
    }

    // POST-as-GET: success or an error.
    method PostAsGet(req: Request) returns (r: Result<Body, Error>)
      requires Valid() && registered && (req.GetAuthz? || req.GetOrder? || req.Download?)
      modifies this`nonce, world`orders, world`issued, world`clock, world`used, world`replies, world`told, world`faults
      ensures Valid() && world.clock >= old(world.clock) && old(world.used) <= world.used
      ensures |world.used| <= |old(world.used)| + 2
      ensures AllEvolve(old(world.orders), world.orders) && world.faults == old(world.faults)
      ensures r.Ok? ==> Tells(old(world.orders), world.orders, req, r.value)
      ensures world.told == if r.Ok? then Learned(old(world.told), req, Some(Response(Success, None, r.value))) else old(world.told)
      ensures r.Err? ==> r.error == NoNonce || r.error == RequestFailed
    {
      var resp := PostSigned(req);
      if resp.Err? {
        return Err(resp.error);
      }
      r := if resp.value.status.Success? then Ok(resp.value.body) else Err(RequestFailed);
    }

    method RegisterAccount() returns (r: Result<(), Error>)
      requires Valid()
      modifies this, world`orders, world`issued, world`clock, world`used, world`replies, world`told, world`faults
      ensures Valid() && world.clock >= old(world.clock) && old(world.used) <= world.used
      ensures AllEvolve(old(world.orders), world.orders) && world.faults == old(world.faults)
      ensures r.Err? ==> !IsDns01Failure(r.error) && r.error != NoRecordedError
      ensures (r.Ok? ==> registered) && Grew(old(world.told), world.told)
    {
      var resp := PostSigned(NewAccount);
      if resp.Err? {
        return Err(resp.error);
      }
      if !resp.value.status.Success? {
        return Err(RequestFailed);
      }
      if !resp.value.body.AccountBody? {
        return Err(Malformed);
      }
      registered := true;
      r := Ok(());
    }

    // Tell the CA to validate, then poll the authorization until it settles or time is up.
    method CompleteChallenge(order: nat, authz: nat) returns (r: Result<(), Error>)
      requires Valid() && registered && world.Confirmed(order, authz)
      modifies this`nonce, world`orders, world`issued, world`clock, world`used, world`replies, world`told, world`faults
      ensures Valid() && old(world.used) <= world.used && world.clock >= old(world.clock)
      ensures AllEvolve(old(world.orders), world.orders) && world.faults == old(world.faults)
      ensures r.Err? ==> r.error != NoRecordedError
      ensures |world.used| <= |old(world.used)| + 86
      ensures Grew(old(world.told), world.told) && (r.Ok? ==> (order, authz) in world.told.valid) && r != Err(PublishFailed)
      ensures world.told.heard > old(world.told).heard ==> Verdict(world.told.challenge, order, authz, r)
      ensures r.Ok? || r == Err(ValidationRace) || r == Err(AuthorizationInvalid) ==> world.told.heard > old(world.told).heard
      ensures r == Err(NotSettled) ==> world.clock >= old(world.clock) + 120
    {
      ghost var a := world.orders;
      var resp := PostSigned(Respond(order, authz));
      if resp.Err? {
        return Err(resp.error);
      }
      if !resp.value.status.Success? {
        return Err(RequestFailed);
      }
      var deadline := world.clock + POLL_TIMEOUT;
      ghost var start, asked, n := world.clock, |world.used|, 0;
      while true
        invariant Valid() && old(world.used) <= world.used && world.clock >= old(world.clock)
        invariant world.clock >= start + POLL_INTERVAL * n && |world.used| <= asked + 2 * n
        invariant n > 0 ==> POLL_INTERVAL * (n - 1) < POLL_TIMEOUT
        invariant AllEvolve(a, world.orders) && world.faults == old(world.faults)
        invariant Grew(old(world.told), world.told)
        invariant world.told.heard > old(world.told).heard ==> Undecided(world.told.challenge, order, authz)
        decreases deadline - world.clock
      {
        ghost var b := world.orders;
        var body := PostAsGet(GetAuthz(order, authz));
        n := n + 1;
        EvolveTwice(a, b, world.orders);
        if body.Err? {
          return Err(body.error);
        }
        if body.value.AuthzBody? {
          match body.value.authzStatus {
            case AuthzValid => return Ok(());
            case AuthzInvalid(race) => return Err(if race then ValidationRace else AuthorizationInvalid);
            case AuthzPending =>
          }
        }
        if world.clock >= deadline {
          return Err(NotSettled);
        }
        world.Wait(POLL_INTERVAL);
      }
    }

    // The challenge is answered only once the record is where the CA will look.
    method ConfirmThenComplete(value: string, order: nat, authz: nat) returns (r: Result<(), Error>)
      requires Valid() && registered && world.checks == [] && world.txt == Some(value)
      requires world.told.challenge.Some? && world.told.challenge.value.value == Some(value)
      requires world.told.challenge.value.order == order && world.told.challenge.value.authz == authz
      modifies this`nonce, world`orders, world`issued, world`clock, world`used, world`replies, world`told, world`faults, world`checks
      ensures Valid() && old(world.used) <= world.used && world.clock >= old(world.clock)
      ensures AllEvolve(old(world.orders), world.orders) && world.faults == old(world.faults)
      ensures r.Err? ==> r.error != NoRecordedError
      ensures world.used != old(world.used) ==> MayRespond(world.hasChecker, world.hasWaiter, world.checks, value)
      ensures !MayRespond(world.hasChecker, world.hasWaiter, world.checks, value) ==>
                world.checks != [] &&
                r == Err(if world.checks[|world.checks| - 1].NotPropagated? then PropagationCheckFailed else AuthoritativeCheckFailed)
      ensures Grew(old(world.told), world.told) && (r.Ok? ==> (order, authz) in world.told.valid) && r != Err(PublishFailed)
      ensures world.told.heard > old(world.told).heard ==> Verdict(world.told.challenge, order, authz, r)
    {
      EvolvesItself(world.orders);
      if world.hasChecker {
        var v := world.WaitForAll(value);
        if v.Some? && v.value.AllServing? {
          r := CompleteChallenge(order, authz);
          return;
        }
        if v.None? || !v.value.NoneReachable? {
          return Err(AuthoritativeCheckFailed);
        }
      }
      if world.hasWaiter {
        var c := world.WaitFor(value);
        if c.Propagated? {
          r := CompleteChallenge(order, authz);
          return;
        }
        return Err(PropagationCheckFailed);
      }
      r := CompleteChallenge(order, authz);
    }

    // Publish, validate, and always clear.
    method ValidateAuthorization(order: nat, authz: nat) returns (r: Result<(), Error>)
      requires Valid() && registered && world.Tidy()
      modifies this`nonce, world
      ensures Valid() && world.Tidy() && old(world.used) <= world.used && world.clock >= old(world.clock)
      ensures Grew(old(world.told), world.told) && (r.Ok? ==> (order, authz) in world.told.valid)
      ensures world.publishFailures == old(world.publishFailures) + if r == Err(PublishFailed) then 1 else 0
      ensures AllEvolve(old(world.orders), world.orders) && world.faults == old(world.faults)
      ensures r.Err? ==> r.error != NoRecordedError
    {
      var body := PostAsGet(GetAuthz(order, authz));
      if body.Err? {
        return Err(body.error);
      }
      if !body.value.AuthzBody? || body.value.txtValue.None? {
        return Err(Malformed);
      }
      var value := body.value.txtValue.value;
      ghost var a, b := old(world.orders), world.orders;
      var published := world.SetTxt(value);
      if published {
        r := ConfirmThenComplete(value, order, authz);
        EvolveTwice(a, b, world.orders);
      } else {
        r := Err(PublishFailed);
      }
      var cleared := world.ClearTxt();   // best effort
    }

    // Poll until `settled` (finalized: valid or invalid; before: not pending or processing).
    method PollOrder(order: nat, finalized: bool) returns (r: Result<(OrderStatus, bool), Error>)
      requires Valid() && registered && order < |world.orders|
      modifies this`nonce, world`orders, world`issued, world`clock, world`used, world`replies, world`told, world`faults
      ensures Valid() && old(world.used) <= world.used && world.clock >= old(world.clock)
      ensures AllEvolve(old(world.orders), world.orders) && world.faults == old(world.faults)
      ensures r.Ok? ==> r.value.0 == world.orders[order].status && Settled(r.value.0, finalized)
      ensures r.Err? ==> !IsDns01Failure(r.error) && r.error != NoRecordedError
      ensures world.told == old(world.told)
      ensures |world.used| <= |old(world.used)| + 84
      ensures r == Err(NotSettled) ==> world.clock >= old(world.clock) + 120
    {
      ghost var a := world.orders;
      EvolvesItself(a);
      var deadline := world.clock + POLL_TIMEOUT;
      ghost var start, asked, n := world.clock, |world.used|, 0;
      while true
        invariant Valid() && old(world.used) <= world.used && world.clock >= old(world.clock)
        invariant world.clock >= start + POLL_INTERVAL * n && |world.used| <= asked + 2 * n
        invariant n > 0 ==> POLL_INTERVAL * (n - 1) < POLL_TIMEOUT
        invariant AllEvolve(a, world.orders) && world.faults == old(world.faults)
        invariant world.told == old(world.told)
        decreases deadline - world.clock
      {
        ghost var b := world.orders;
        var body := PostAsGet(GetOrder(order));
        n := n + 1;
        EvolveTwice(a, b, world.orders);
        if body.Err? {
          return Err(body.error);
        }
        if !body.value.OrderBody? {
          return Err(Malformed);
        }
        if Settled(body.value.status, finalized) {
          return Ok((body.value.status, body.value.hasCert));
        }
        if world.clock >= deadline {
          return Err(NotSettled);
        }
        world.Wait(POLL_INTERVAL);
      }
    }

    // One order, start to finish. `csr` is the key pair drawn for it.
    method IssueOnce(csr: KeyId) returns (r: Result<IssuedCert, Error>)
      requires Valid() && world.Tidy()
      modifies this, world
      ensures Valid() && world.Tidy() && world.faults == old(world.faults) && old(world.used) <= world.used && world.clock >= old(world.clock)
      ensures |world.orders| <= |old(world.orders)| + 1 && Kept(old(world.orders), world.orders)
      ensures r.Ok? ==> r.value.key == csr && Issued(world.orders, |old(world.orders)|, r.value.forKey, csr)
      ensures r.Err? ==> r.error != NoRecordedError
    {
      ghost var before := world.orders;
      EvolvesItself(before);
      if !registered {
        var account := RegisterAccount();
        if account.Err? {
          return Err(account.error);
        }
      }
      ghost var a := world.orders;
      var resp := PostSigned(NewOrder);
      KeptThrough(before, a, world.orders, NewOrder);
      if resp.Err? {
        return Err(resp.error);
      }
      if !resp.value.status.Success? {
        return Err(RequestFailed);
      }
      if !resp.value.body.NewOrderBody? {
        return Err(Malformed);
      }
      var order, authzs := resp.value.body.order, resp.value.body.authzs;
      ghost var b := world.orders;
      EvolvesItself(b);
      for i := 0 to authzs
        invariant Valid() && world.Tidy() && world.faults == old(world.faults) && old(world.used) <= world.used && world.clock >= old(world.clock)
        invariant AllEvolve(b, world.orders)
        invariant registered && forall k :: 0 <= k < i ==> (order, k) in world.told.valid
      {
        ghost var c := world.orders;
        var valid := ValidateAuthorization(order, i);
        EvolveTwice(b, c, world.orders);
        KeptEvolving(before, b, world.orders);
        if valid.Err? {
          return Err(valid.error);
        }
      }
      KeptEvolving(before, b, world.orders);
      assert Evolves(b[order], world.orders[order]);
      r := Settle(before, order, csr);
    }

    // The order's authorizations are done: wait for it, finalize it, fetch the certificate.
    method Settle(ghost before: seq<Order>, order: nat, csr: KeyId) returns (r: Result<IssuedCert, Error>)
      requires Valid() && registered && world.Tidy()
      requires order < |world.orders| && world.AllValid(order)
      requires order == |before| && |world.orders| == order + 1 && Kept(before, world.orders)
      requires world.orders[order].csr.None? && world.orders[order].asked == 0
      modifies this`nonce, world`orders, world`issued, world`clock, world`used, world`replies, world`told, world`faults
      ensures Valid() && world.faults == old(world.faults) && old(world.used) <= world.used && world.clock >= old(world.clock)
      ensures |world.orders| == |before| + 1 && Kept(before, world.orders)
      ensures r.Ok? ==> r.value.key == csr && Issued(world.orders, order, r.value.forKey, csr)
      ensures r.Err? ==> r.error != NoRecordedError
    {
      ghost var a := world.orders;
      var view := PollOrder(order, false);
      KeptEvolving(before, a, world.orders);
      assert Evolves(a[order], world.orders[order]);
      if view.Err? {
        return Err(view.error);
      }
      var (status, hasCert) := view.value;
      if !status.Ready? && !status.Processing? && !status.Valid? {
        return Err(NotReady);
      }
      if status.Ready? {
        ghost var b := world.orders;
        var resp := PostSigned(Finalize(order, csr));
        KeptThrough(before, b, world.orders, Finalize(order, csr));
        if resp.Err? {
          return Err(resp.error);
        }
        if !resp.value.status.Success? {
          return Err(RequestFailed);
        }
        ghost var c := world.orders;
        view := PollOrder(order, true);
        KeptEvolving(before, c, world.orders);
        assert Evolves(c[order], world.orders[order]);
        if view.Err? {
          return Err(view.error);
        }
        status, hasCert := view.value.0, view.value.1;
      }
      if !status.Valid? {
        return Err(NotReady);
      }
      if !hasCert {
        return Err(Malformed);
      }
      ghost var d := world.orders;
      var body := PostAsGet(Download(order));
      KeptEvolving(before, d, world.orders);
      assert Evolves(d[order], world.orders[order]);
      if body.Err? {
        return Err(body.error);
      }
      if !body.value.CertBody? {
        return Err(Malformed);
      }
      r := Ok(IssuedCert(body.value.forKey, csr));
    }

    // Whole-order retries. `retried` collects the errors that led to a further order.
    method IssueCertificateWithAttempts(csrs: seq<KeyId>, attempts: nat)
      returns (r: Result<IssuedCert, Error>, ghost retried: seq<Error>)
      requires Valid() && world.Tidy()
      requires |csrs| >= attempts && |csrs| >= 1   // a fresh key pair per attempt
      modifies this, world
      ensures Valid() && world.Tidy() && world.faults == old(world.faults) && old(world.used) <= world.used && world.clock >= old(world.clock)
      ensures r.Ok? ==> r.value.forKey == r.value.key && r.value.key in csrs
      ensures r.Err? ==> r.error != NoRecordedError
      ensures forall e :: e in retried ==> e in DNS01_FAILURES
      ensures r.Err? && r.error in DNS01_FAILURES ==> |retried| + 1 == if attempts > 1 then attempts else 1
      ensures |world.orders| <= |old(world.orders)| + |retried| + 1
      ensures world.clock >= old(world.clock) + 30 * |retried|
      ensures |retried| + 1 <= if attempts > 1 then attempts else 1
    {
      var lastError: Option<Error> := None;
      retried := [];
      var limit := if attempts > 1 then attempts else 1;
      var attempt := 1;
      while attempt <= limit
        invariant 1 <= attempt <= limit && |retried| == attempt - 1
        invariant Valid() && world.Tidy() && world.faults == old(world.faults) && old(world.used) <= world.used && world.clock >= old(world.clock)
        invariant forall e :: e in retried ==> IsDns01Failure(e)
        invariant |world.orders| <= |old(world.orders)| + |retried|
        invariant world.clock >= old(world.clock) + 30 * |retried|
        decreases limit - attempt
      {
        var issued := IssueOnce(csrs[attempt - 1]);
        if issued.Ok? {
          return Ok(issued.value), retried;
        }
        if !IsDns01Failure(issued.error) || attempt >= attempts {
          return Err(issued.error), retried;
        }
        lastError := Some(issued.error);
        retried := retried + [issued.error];
        world.Wait(RETRY_BACKOFF);
        attempt := attempt + 1;
      }
      r := Err(LastOr(lastError));   // never reached
    }
  }

  function LastOr(e: Option<Error>): Error {
    if e.Some? then e.value else NoRecordedError
  }

  // The orders there were before: only the CA moved them.
  ghost predicate Kept(before: seq<Order>, now: seq<Order>) {
    |now| >= |before| && AllEvolve(before, now[..|before|])
  }

  // The certificate was issued for the CSR this order was finalized with.
  predicate Issued(orders: seq<Order>, order: nat, forKey: KeyId, csr: KeyId) {
    order < |orders| && orders[order].csr == Some(csr) && forKey == csr
  }

  lemma KeptEvolving(before: seq<Order>, a: seq<Order>, b: seq<Order>)
    requires Kept(before, a) && AllEvolve(a, b)
    ensures Kept(before, b)
  {
    EvolveTwice(before, a[..|before|], b[..|before|]);
  }

  // A request about no earlier order keeps the earlier ones.
  lemma KeptThrough(before: seq<Order>, a: seq<Order>, b: seq<Order>, req: Request)
    requires Kept(before, a) && (AllEvolve(a, b) || Handles(a, b, req))
    requires req.Finalize? ==> req.order >= |before|
    ensures Kept(before, b)
  {
    if AllEvolve(a, b) {
      KeptEvolving(before, a, b);
    } else {
      assert AllEvolve(a[..|before|], b[..|before|]) by {
        forall i | 0 <= i < |before|
          ensures Evolves(a[i], b[i])
        {
          if req == NewOrder { assert b[..|a|][i] == b[i]; }
        }
      }
      EvolveTwice(before, a[..|before|], b[..|before|]);
    }
  }

  predicate Settled(status: OrderStatus, finalized: bool) {
    if finalized then status.Valid? || status.Invalid? else !status.Pending? && !status.Processing?
  }

  lemma EvolvesItself(a: seq<Order>)
    ensures AllEvolve(a, a)
  {
  }

  // A request after the CA moved on its own is a request from where it started.
  lemma SendAfterEvolving(a: seq<Order>, b: seq<Order>, c: seq<Order>, req: Request)
    requires AllEvolve(a, b)
    ensures AllEvolve(b, c) ==> AllEvolve(a, c)
    ensures Handles(b, c, req) ==> Handles(a, c, req)
  {
    if AllEvolve(b, c) { EvolveTwice(a, b, c); }
    if Handles(b, c, req) { EvolveThenHandle(a, b, c, req); }
  }
}
