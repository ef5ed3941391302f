// Onboarding once, with a single-use join token, and restoring ever after
// (native/src/onboard.rs).
module Onboard {
  import opened Wrappers

  type Key = string
  type AgentId = string
  type TenantId = string

  // 32 bytes, or something else.
  datatype KeyContent = Secret(key: Key) | Junk

  datatype Files = Files(
    identity: Option<KeyContent>,
    agent: Option<AgentId>,
    tenant: Option<TenantId>,
    identityNew: Option<KeyContent>,
    agentNew: Option<AgentId>,
    tenantNew: Option<TenantId>)

  const EMPTY := Files(None, None, None, None, None, None)

  // A join token names the tenant it was issued for.
  datatype JoinToken = JoinToken(id: nat, tenant: TenantId)

  // Made by redeeming `token`, whose tenant it has.
  datatype Binding = Binding(agent: AgentId, key: Key, tenant: TenantId, token: JoinToken)

  // The control plane: tokens already redeemed, and every binding it made, newest last.
  datatype ControlPlane = ControlPlane(spent: set<JoinToken>, bound: seq<Binding>)

  // What redeeming `token` binds.
  function Bound(agent: AgentId, key: Key, token: JoinToken): Binding {
    Binding(agent, key, token.tenant, token)
  }

  function Redeem(cp: ControlPlane, token: JoinToken, agent: AgentId, key: Key): (r: Result<ControlPlane, ()>)
    ensures r.Ok? <==> token !in cp.spent
  {
    if token in cp.spent then Err(())
    else Ok(ControlPlane(cp.spent + {token}, cp.bound + [Bound(agent, key, token)]))
  }

  // What is on disk for this agent id: nothing usable, an identity, or a broken state.
  function Restore(f: Files, agent: AgentId): Result<Option<(Key, TenantId)>, ()> {
    if f.identity.None? then Ok(None)
    else if f.agent.None? then Err(())
    else if f.agent.value != agent then Ok(None)
    else if !f.identity.value.Secret? then Err(())
    else if f.tenant.None? then Err(())
    else Ok(Some((f.identity.value.key, f.tenant.value)))
  }

  // How a boot's reads go: well, or the identity file cannot even be looked up (which counts
  // as not there), or one that is there cannot be read.
  datatype Sight = Clear | Hidden | ReadFails

  // `restore` under that sight.
  function Restored(f: Files, agent: AgentId, sight: Sight): Result<Option<(Key, TenantId)>, ()> {
    match sight
    case Clear => Restore(f, agent)
    case Hidden => Ok(None)
    case ReadFails => if f.identity.None? then Ok(None) else Err(())
  }

  // `stage` of the three renames have happened: identity, agent, tenant.
  predicate AtStage(f: Files, b: Binding, stage: nat, e: Files) {
    && e.identity == (if stage >= 1 then Some(Secret(b.key)) else f.identity)
    && e.agent == (if stage >= 2 then Some(b.agent) else f.agent)
    && e.tenant == (if stage >= 3 then Some(b.tenant) else f.tenant)
  }

  predicate Untouched(f: Files, e: Files) {
    e.identity == f.identity && e.agent == f.agent && e.tenant == f.tenant
  }

  ghost predicate PersistReaches(f: Files, b: Binding, e: Files) {
    exists stage: nat :: stage <= 3 && AtStage(f, b, stage, e)
  }

  datatype State = State(files: Files, cp: ControlPlane)

  // One boot: the configured join token, the key it would draw and how its reads go.
  datatype Boot = Boot(token: JoinToken, draw: Key, sight: Sight)

  // Every state a boot can stop in. The redeem may be lost before the control plane sees
  // it, or its answer lost after.
  ghost predicate BootReaches(s: State, agent: AgentId, b: Boot, e: State) {
    var redeemed := Redeem(s.cp, b.token, agent, b.draw);
    if Restored(s.files, agent, b.sight) != Ok(None) || redeemed.Err? then Untouched(s.files, e.files) && e.cp == s.cp
    else
      || (Untouched(s.files, e.files) && e.cp == s.cp)
      || (PersistReaches(s.files, Bound(agent, b.draw, b.token), e.files) && e.cp == redeemed.value)
  }

  datatype BootError = CpError | IoError

  class Agent {
    var state: State
    ghost var seen: seq<State>   // every state of disk and control plane, newest last
    ghost var errors: nat        // system calls that failed, redeems lost or answered in vain

    ghost predicate Valid()
      reads this
    {
      seen != [] && seen[|seen| - 1] == state
    }

    constructor (state: State)
      ensures Valid() && this.state == state && seen == [state]
    {
      this.state := state;
      seen := [state];
      errors := 0;
    }

    method Call(after: Files) returns (ok: bool)
      requires Valid()
      modifies this
      ensures Valid() && seen == old(seen) + [state]
      ensures state == if ok then old(state).(files := after) else old(state)
      ensures errors == old(errors) + if ok then 0 else 1
    {
      ok := *;
      errors := errors + if ok then 0 else 1;
      if ok {
        state := state.(files := after);
      }
      seen := seen + [state];
    }

    // The redeem call: refused, lost on the way, answered, or answered in vain.
    method CallRedeem(token: JoinToken, agent: AgentId, key: Key) returns (tenant: Option<TenantId>)
      requires Valid()
      modifies this
      ensures Valid() && seen == old(seen) + [state] && state.files == old(state).files
      ensures state == old(state) || (Redeem(old(state).cp, token, agent, key) == Ok(state.cp))
      ensures tenant.Some? ==> tenant == Some(token.tenant) && Redeem(old(state).cp, token, agent, key) == Ok(state.cp)
      ensures errors >= old(errors) && (tenant.Some? <==> token !in old(state).cp.spent && errors == old(errors))
    {
      var delivered: bool, answered: bool := *, *;
      tenant := None;
      var r := Redeem(state.cp, token, agent, key);
      errors := errors + if delivered && (answered || r.Err?) then 0 else 1;
      if delivered && r.Ok? {
        state := state.(cp := r.value);
        if answered {
          tenant := Some(token.tenant);
        }
      }
      seen := seen + [state];
    }

    // Write all three beside the real ones; on an error take them away again.
    method StageAll(b: Binding) returns (ok: bool)
      requires Valid()
      modifies this
      ensures Valid() && old(seen) <= seen
      ensures forall i :: |old(seen)| <= i < |seen| ==> seen[i].cp == old(state).cp && AtStage(old(state).files, b, 0, seen[i].files)
      ensures state.cp == old(state).cp && AtStage(old(state).files, b, 0, state.files)
      ensures ok ==> state.files.identityNew == Some(Secret(b.key))
                     && state.files.agentNew == Some(b.agent) && state.files.tenantNew == Some(b.tenant)
      ensures errors >= old(errors) && (ok <==> errors == old(errors))
    {
      ok := Call(state.files.(identityNew := Some(Secret(b.key))));
      if ok {
        ok := Call(state.files.(agentNew := Some(b.agent)));
      }
      if ok {
        ok := Call(state.files.(tenantNew := Some(b.tenant)));
      }
      if !ok {
        var c := Call(state.files.(identityNew := None));
        c := Call(state.files.(agentNew := None));
        c := Call(state.files.(tenantNew := None));
      }
    }

    method Persist(b: Binding) returns (ok: bool)
      requires Valid()
      modifies this
      ensures Valid() && old(seen) <= seen && state.cp == old(state).cp
      ensures forall i :: |old(seen)| <= i < |seen| ==>
                            seen[i].cp == old(state).cp && PersistReaches(old(state).files, b, seen[i].files)
      ensures ok ==> AtStage(old(state).files, b, 3, state.files)
      ensures errors >= old(errors) && (ok <==> errors == old(errors))
    {
      ghost var f := state.files;
      assert forall e: Files, k: nat :: k <= 3 && AtStage(f, b, k, e) ==> PersistReaches(f, b, e);
      ok := StageAll(b);
      if !ok {
        return;
      }
      ok := Call(state.files.(identity := state.files.identityNew, identityNew := None));
      assert AtStage(f, b, if ok then 1 else 0, state.files);
      if !ok {
        return;
      }
      ok := Call(state.files.(agent := state.files.agentNew, agentNew := None));
      assert AtStage(f, b, if ok then 2 else 1, state.files);
      if !ok {
        return;
      }
      ok := Call(state.files.(tenant := state.files.tenantNew, tenantNew := None));
      assert AtStage(f, b, if ok then 3 else 2, state.files);
      if !ok {
        return;
      }
      ok := Call(state.files);
    }

    method OnboardOrRestore(agent: AgentId, b: Boot) returns (r: Result<(Key, TenantId), BootError>)
      requires Valid()
      modifies this
      ensures Valid() && old(seen) <= seen
      ensures forall i :: |old(seen)| <= i < |seen| ==> BootReaches(old(state), agent, b, seen[i])
      ensures var restored := Restored(old(state).files, agent, b.sight);
              && (restored.Err? ==> r == Err(IoError) && state == old(state))
              && (restored.Ok? && restored.value.Some? ==> r == Ok(restored.value.value) && state == old(state))
              && (r.Ok? && restored == Ok(None) ==>
                    && r.value == (b.draw, b.token.tenant)
                    && AtStage(old(state).files, Bound(agent, b.draw, b.token), 3, state.files)
                    && Redeem(old(state).cp, b.token, agent, b.draw) == Ok(state.cp))
              && (restored == Ok(None) ==> (r.Ok? <==> b.token !in old(state).cp.spent && errors == old(errors)))
    {
      ghost var s := state;
      var restored := Restored(state.files, agent, b.sight);
      if restored.Err? {
        return Err(IoError);
      }
      if restored.value.Some? {
        return Ok(restored.value.value);
      }
      var tenant := CallRedeem(b.token, agent, b.draw);
      assert AtStage(s.files, Bound(agent, b.draw, b.token), 0, state.files);
      if tenant.None? {
        return Err(CpError);
      }
      var ok := Persist(Binding(agent, b.draw, tenant.value, b.token));
      r := if ok then Ok((b.draw, tenant.value)) else Err(IoError);
    }
  }

  // What a finished persist left is restored by its own agent, key and tenant, and by no other.
  lemma PersistThenRestore(f: Files, b: Binding, e: Files, agent: AgentId)
    requires AtStage(f, b, 3, e)
    ensures Restore(e, agent) == Ok(if agent == b.agent then Some((b.key, b.tenant)) else None)
  {
  }

  // ---- any number of boots and crashes of one agent ------------------------------------------

  // The control plane's latest binding is this agent's, under this key.
  predicate LatestBinding(cp: ControlPlane, agent: AgentId, key: KeyContent) {
    cp.bound != [] && cp.bound[|cp.bound| - 1].agent == agent && Secret(cp.bound[|cp.bound| - 1].key) == key
  }

  // Each file is there only if the one renamed before it is, and all tell of that binding.
  ghost predicate Consistent(s: State, agent: AgentId) {
    var f := s.files;
    && (f.identity.Some? ==> LatestBinding(s.cp, agent, f.identity.value))
    && (f.agent.Some? ==> f.identity.Some? && f.agent.value == agent)
    && (f.tenant.Some? ==> f.agent.Some? && f.tenant.value == s.cp.bound[|s.cp.bound| - 1].tenant)
  }

  ghost predicate Boots(ss: seq<State>, agent: AgentId, boots: seq<Boot>) {
    |ss| == |boots| + 1 && forall i :: 0 <= i < |boots| ==> BootReaches(ss[i], agent, boots[i], ss[i + 1])
  }

  // No boot is blind to the identity file.
  predicate AllSee(boots: seq<Boot>) {
    forall i :: 0 <= i < |boots| ==> !boots[i].sight.Hidden?
  }

  // They are all configured with this join token.
  predicate AllUse(boots: seq<Boot>, token: JoinToken) {
    forall i :: 0 <= i < |boots| ==> boots[i].token == token
  }

  lemma BootKeepsConsistent(s: State, agent: AgentId, b: Boot, e: State)
    requires Consistent(s, agent) && !b.sight.Hidden? && BootReaches(s, agent, b, e)
    ensures Consistent(e, agent)
  {
  }

  lemma {:induction false} AlwaysConsistent(ss: seq<State>, agent: AgentId, boots: seq<Boot>)
    requires Boots(ss, agent, boots) && Consistent(ss[0], agent) && AllSee(boots)
    ensures Consistent(ss[|boots|], agent)
  {
    var n := |boots|;
    if n > 0 {
      AlwaysConsistent(ss[..n], agent, boots[..n - 1]);
      BootKeepsConsistent(ss[n - 1], agent, boots[n - 1], ss[n]);
    }
  }

  // Whatever is restored is, key and tenant together, the control plane's latest binding
  // of this agent, over any boots, crashes and join tokens from an empty state directory.
  lemma RestoredIsBound(ss: seq<State>, agent: AgentId, boots: seq<Boot>)
    requires Boots(ss, agent, boots) && ss[0] == START && AllSee(boots)
    ensures RestoresLatest(ss[|boots|], agent)
  {
    AlwaysConsistent(ss, agent, boots);
  }

  const START := State(EMPTY, ControlPlane({}, []))

  ghost predicate RestoresLatest(s: State, agent: AgentId) {
    var r := Restore(s.files, agent);
    r.Ok? && r.value.Some? ==>
      s.cp.bound != [] &&
      var last := s.cp.bound[|s.cp.bound| - 1];
      last.agent == agent && r.value.value == (last.key, last.tenant)
  }

  // A boot that cannot look the identity file up takes it for a first boot. An onboarded
  // agent's identity survives every crash point of a boot exactly when the boot can look,
  // or its join token is spent anyway.
  lemma IdentityKeptIff(s: State, agent: AgentId, b: Boot)
    requires Consistent(s, agent) && s.files.tenant.Some?
    requires s.files.identity != Some(Secret(b.draw))
    ensures (forall e :: BootReaches(s, agent, b, e) ==> Untouched(s.files, e.files) && RestoresLatest(e, agent)) <==>
            !b.sight.Hidden? || b.token in s.cp.spent
  {
    if b.sight.Hidden? && b.token !in s.cp.spent {
      var bound := Bound(agent, b.draw, b.token);
      var e := State(s.files.(identity := Some(Secret(b.draw))), Redeem(s.cp, b.token, agent, b.draw).value);
      assert AtStage(s.files, bound, 1, e.files);
      assert PersistReaches(s.files, bound, e.files);
      assert BootReaches(s, agent, b, e);
    }
  }

  // Once an identity key is on disk the control plane is never asked again, and every later
  // boot restores what the first of them would.
  lemma {:induction false} NeverRedeemsAgain(ss: seq<State>, agent: AgentId, boots: seq<Boot>)
    requires Boots(ss, agent, boots) && Consistent(ss[0], agent) && ss[0].files.identity.Some? && AllSee(boots)
    ensures ss[|boots|].cp == ss[0].cp && Untouched(ss[0].files, ss[|boots|].files)
    ensures Restore(ss[|boots|].files, agent) == Restore(ss[0].files, agent) != Ok(None)
  {
    var n := |boots|;
    if n > 0 {
      NeverRedeemsAgain(ss[..n], agent, boots[..n - 1]);
      assert BootReaches(ss[n - 1], agent, boots[n - 1], ss[n]);
    }
  }

  // A join token makes at most one binding, over any boots with any tokens.
  ghost predicate OncePerToken(cp: ControlPlane) {
    && (forall b :: b in cp.bound ==> b.token in cp.spent && b.tenant == b.token.tenant)
    && (forall i, j :: 0 <= i < j < |cp.bound| ==> cp.bound[i].token != cp.bound[j].token)
  }

  lemma {:induction false} OneBindingPerToken(ss: seq<State>, agent: AgentId, boots: seq<Boot>)
    requires Boots(ss, agent, boots) && OncePerToken(ss[0].cp)
    ensures OncePerToken(ss[|boots|].cp)
  {
    var n := |boots|;
    if n > 0 {
      OneBindingPerToken(ss[..n], agent, boots[..n - 1]);
      assert BootReaches(ss[n - 1], agent, boots[n - 1], ss[n]);
    }
  }

  // ---- onboardings that can never finish -----------------------------------------------------

  // With an identity file there, all later boots restore it if the tenant file is there too,
  // and all of them fail if it is not.
  lemma RestoresIffTenant(ss: seq<State>, agent: AgentId, boots: seq<Boot>)
    requires Boots(ss, agent, boots) && Consistent(ss[0], agent) && ss[0].files.identity.Some? && AllSee(boots)
    ensures Restore(ss[|boots|].files, agent).Ok? <==> ss[0].files.tenant.Some?
  {
    NeverRedeemsAgain(ss, agent, boots);
  }

  // Some sequence of boots with `token`, however their crashes fall, ends with an identity
  // that restores.
  ghost predicate CanFinish(s: State, agent: AgentId, token: JoinToken) {
    exists ss: seq<State>, boots: seq<Boot> ::
      && Boots(ss, agent, boots) && ss[0] == s && AllSee(boots) && AllUse(boots, token)
      && RestoresSome(ss[|boots|], agent)
  }

  ghost predicate RestoresSome(s: State, agent: AgentId) {
    var r := Restore(s.files, agent); r.Ok? && r.value.Some?
  }

  // Onboarding can still finish exactly when it has, or nothing is on disk and the join
  // token is unspent. It is stuck for good after a crash between the renames, and after a
  // redeem whose answer never arrived.
  lemma CanFinishIff(s: State, agent: AgentId, token: JoinToken)
    requires Consistent(s, agent)
    ensures CanFinish(s, agent, token) <==> s.files.tenant.Some? || (s.files.identity.None? && token !in s.cp.spent)
  {
    if s.files.tenant.Some? {
      var ss, boots: seq<Boot> := [s], [];
      assert Boots(ss, agent, boots) && RestoresSome(ss[|boots|], agent);
    } else if s.files.identity.None? && token !in s.cp.spent {
      var e, b := Finishes(s, agent, token);
      var ss, boots := [s, e], [b];
      assert Boots(ss, agent, boots) && RestoresSome(ss[|boots|], agent);
    } else {
      forall ss: seq<State>, boots: seq<Boot> |
        Boots(ss, agent, boots) && ss[0] == s && AllSee(boots) && AllUse(boots, token)
        ensures !RestoresSome(ss[|boots|], agent)
      {
        StaysStuck(ss, agent, boots, token);
      }
    }
  }

  lemma Finishes(s: State, agent: AgentId, token: JoinToken) returns (e: State, b: Boot)
    requires s.files.identity.None? && token !in s.cp.spent
    ensures b.token == token && b.sight.Clear? && BootReaches(s, agent, b, e) && RestoresSome(e, agent)
  {
    b := Boot(token, "", Clear);
    var f := s.files.(identity := Some(Secret(b.draw)), agent := Some(agent), tenant := Some(token.tenant));
    e := State(f, Redeem(s.cp, token, agent, b.draw).value);
    assert AtStage(s.files, Bound(agent, b.draw, token), 3, f);
    assert PersistReaches(s.files, Bound(agent, b.draw, token), f);
  }

  lemma {:induction false} StaysStuck(ss: seq<State>, agent: AgentId, boots: seq<Boot>, token: JoinToken)
    requires Boots(ss, agent, boots) && Consistent(ss[0], agent) && AllSee(boots)
    requires AllUse(boots, token)
    requires ss[0].files.tenant.None? && (ss[0].files.identity.Some? || token in ss[0].cp.spent)
    ensures Untouched(ss[0].files, ss[|boots|].files) && ss[|boots|].cp == ss[0].cp
    ensures !RestoresSome(ss[|boots|], agent)
  {
    var n := |boots|;
    if n > 0 {
      StaysStuck(ss[..n], agent, boots[..n - 1], token);
      AlwaysConsistent(ss[..n], agent, boots[..n - 1]);
      assert BootReaches(ss[n - 1], agent, boots[n - 1], ss[n]);
    }
  }

  // With one join token from an empty directory: stuck exactly when the token is spent and
  // the tenant file is not there.
  lemma SingleTokenFinishesIff(ss: seq<State>, agent: AgentId, boots: seq<Boot>, token: JoinToken)
    requires Boots(ss, agent, boots) && ss[0] == START && AllSee(boots)
    requires AllUse(boots, token)
    ensures CanFinish(ss[|boots|], agent, token) <==> ss[|boots|].files.tenant.Some? || token !in ss[|boots|].cp.spent
  {
    AlwaysConsistent(ss, agent, boots);
    IdentitySpendsToken(ss, agent, boots, token);
    CanFinishIff(ss[|boots|], agent, token);
  }

  lemma {:induction false} IdentitySpendsToken(ss: seq<State>, agent: AgentId, boots: seq<Boot>, token: JoinToken)
    requires Boots(ss, agent, boots) && ss[0] == START
    requires AllUse(boots, token)
    ensures ss[|boots|].files.identity.Some? ==> token in ss[|boots|].cp.spent
  {
    var n := |boots|;
    if n > 0 {
      IdentitySpendsToken(ss[..n], agent, boots[..n - 1], token);
      assert BootReaches(ss[n - 1], agent, boots[n - 1], ss[n]);
    }
  }

  // Both ways of getting stuck are one boot away from an empty directory, for every agent
  // and token: a crash after the first or the second rename, and a lost answer.
  lemma StuckAfterOneBoot(agent: AgentId, b: Boot, renames: nat) returns (e: State)
    requires renames <= 2 && b.sight.Clear?
    ensures BootReaches(START, agent, b, e) && !CanFinish(e, agent, b.token)
    ensures Restore(e.files, agent).Err? <==> renames > 0
  {
    var f := EMPTY.(identity := if renames >= 1 then Some(Secret(b.draw)) else None,
    agent := if renames >= 2 then Some(agent) else None);
    e := State(f, Redeem(START.cp, b.token, agent, b.draw).value);
    assert AtStage(EMPTY, Bound(agent, b.draw, b.token), renames, f);
    assert PersistReaches(EMPTY, Bound(agent, b.draw, b.token), f);
    CanFinishIff(e, agent, b.token);
  }

  // ---- mixing two onboardings -----------------------------------------------------------------

  // `agent` reads back the binding `b` whole, or whatever `f` held for it before.
  ghost predicate Unmixed(f: Files, b: Binding, e: Files, agent: AgentId) {
    var r := Restore(e, agent);
    r.Ok? && r.value.Some? ==>
      r == Restore(f, agent) || (agent == b.agent && r.value.value == (b.key, b.tenant))
  }

  // Persisting over what is there never mixes two onboardings, for any agent id and any
  // crash point, exactly when no tenant file is there yet, or the one there already names
  // the new tenant and no other agent's id stands beside it.
  lemma PersistNeverMixesIff(f: Files, b: Binding)
    requires f.identity != Some(Secret(b.key))
    ensures (forall e, agent :: PersistReaches(f, b, e) ==> Unmixed(f, b, e, agent)) <==>
            f.tenant.None? || (f.tenant == Some(b.tenant) && (f.agent.None? || f.agent == Some(b.agent)))
  {
    if f.tenant.Some? && f.tenant != Some(b.tenant) {
      var e := f.(identity := Some(Secret(b.key)), agent := Some(b.agent));
      assert AtStage(f, b, 2, e);
      assert PersistReaches(f, b, e) && !Unmixed(f, b, e, b.agent);
    } else if f.tenant.Some? && f.agent.Some? && f.agent != Some(b.agent) {
      var e := f.(identity := Some(Secret(b.key)));
      assert AtStage(f, b, 1, e);
      assert PersistReaches(f, b, e) && !Unmixed(f, b, e, f.agent.value);
    }
  }
}
