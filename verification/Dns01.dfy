// Waiting until every authoritative nameserver serves a TXT value
// (native/src/dns01_authoritative.rs). Times are seconds.
module Dns01 {
  import opened Wrappers

  type Addr = string

  // What one direct query told us.
  datatype Answer = Present | Absent | Unreachable

  datatype Probe = Probe(host: string, addr: Addr, answer: Answer)

  predicate Answered(probes: seq<Probe>, host: string) {
    exists i :: 0 <= i < |probes| && probes[i].host == host && !probes[i].answer.Unreachable?
  }

  predicate IsAbsent(p: Probe) {
    p.answer.Absent?
  }

  function Missing(probes: seq<Probe>): seq<Probe> {
    Filter(IsAbsent, probes)
  }

  // Unreachable, and its host answered nowhere in `all`.
  function IsSilent(all: seq<Probe>): Probe -> bool {
    (p: Probe) => p.answer.Unreachable? && !Answered(all, p.host)
  }

  function Silent(probes: seq<Probe>, all: seq<Probe>): seq<Probe> {
    Filter(IsSilent(all), probes)
  }

  method PendingServers(probes: seq<Probe>) returns (missing: seq<Probe>, unreachable: seq<Probe>)
    ensures missing == Missing(probes) && unreachable == Silent(probes, probes)
  {
    missing, unreachable := [], [];
    for i := 0 to |probes|
      invariant missing == Missing(probes[..i]) && unreachable == Silent(probes[..i], probes)
    {
      assert probes[..i + 1][..i] == probes[..i];
      match probes[i].answer {
        case Present =>
        case Absent => missing := missing + [probes[i]];
        case Unreachable =>
          if !Answered(probes, probes[i].host) {
            unreachable := unreachable + [probes[i]];
          }
      }
    }
    assert probes[..|probes|] == probes;
  }

  // ---- what a round means ------------------------------------------------------------------

  // Every nameserver name has an address serving the value, and no address answered
  // without it.
  ghost predicate AllServe(probes: seq<Probe>) {
    && (forall i :: 0 <= i < |probes| ==> !probes[i].answer.Absent?)
    && (forall i :: 0 <= i < |probes| ==> Serves(probes, probes[i].host))
  }

  ghost predicate Serves(probes: seq<Probe>, host: string) {
    exists j :: 0 <= j < |probes| && probes[j].host == host && probes[j].answer.Present?
  }

  ghost predicate NoneAnswered(probes: seq<Probe>) {
    forall i :: 0 <= i < |probes| ==> probes[i].answer.Unreachable?
  }

  lemma {:induction false} MissingIsAbsent(probes: seq<Probe>)
    ensures Missing(probes) == [] <==> forall i :: 0 <= i < |probes| ==> !probes[i].answer.Absent?
  {
    if probes != [] {
      MissingIsAbsent(probes[..|probes| - 1]);
    }
  }

  lemma {:induction false} SilentCounts(probes: seq<Probe>, all: seq<Probe>)
    ensures |Silent(probes, all)| <= |probes|
    ensures Silent(probes, all) == [] <==>
            forall i :: 0 <= i < |probes| && probes[i].answer.Unreachable? ==> Answered(all, probes[i].host)
    ensures |Silent(probes, all)| == |probes| <==>
            forall i :: 0 <= i < |probes| ==> probes[i].answer.Unreachable? && !Answered(all, probes[i].host)
  {
    if probes != [] {
      SilentCounts(probes[..|probes| - 1], all);
    }
  }

  // Nothing is pending exactly when every server serves the value.
  lemma NothingPendingIffAllServe(probes: seq<Probe>)
    ensures Missing(probes) == [] && Silent(probes, probes) == [] <==> AllServe(probes)
  {
    MissingIsAbsent(probes);
    SilentCounts(probes, probes);
    if Missing(probes) == [] && Silent(probes, probes) == [] {
      forall i | 0 <= i < |probes|
        ensures Serves(probes, probes[i].host)
      {
        if probes[i].answer.Unreachable? {
          var j :| 0 <= j < |probes| && probes[j].host == probes[i].host && !probes[j].answer.Unreachable?;
          assert probes[j].answer.Present?;
        }
      }
    }
    if AllServe(probes) {
      forall i | 0 <= i < |probes| && probes[i].answer.Unreachable?
        ensures Answered(probes, probes[i].host)
      {
        assert Serves(probes, probes[i].host);
      }
    }
  }

  // Every address is counted unreachable exactly when no probe at all was answered.
  lemma AllSilentIffNoneAnswered(probes: seq<Probe>)
    ensures |Silent(probes, probes)| == |probes| <==> NoneAnswered(probes)
  {
    SilentCounts(probes, probes);
    if |Silent(probes, probes)| == |probes| {
      assert forall i :: 0 <= i < |probes| ==> probes[i].answer.Unreachable?;
    }
  }

  // ---- the waiting loop ---------------------------------------------------------------------

  const POLL_INTERVAL: nat := 5
  const DEFAULT_TIMEOUT: nat := 300

  datatype Verdict = AllServing | NoneReachable | StillPending

  // The network and the clock as the loop meets them: one probe round at a time.
  class Network {
    var clock: nat
    ghost var rounds: seq<seq<Probe>>   // what each round saw

    constructor ()
      ensures rounds == [] && clock == 0
    {
      clock, rounds := 0, [];
    }

    // Ask every address once; any answers, any time taken.
    method ProbeAll(servers: seq<(string, Addr)>) returns (probes: seq<Probe>)
      modifies this
      ensures |probes| == |servers|
      ensures forall i :: 0 <= i < |servers| ==> probes[i].host == servers[i].0 && probes[i].addr == servers[i].1
      ensures rounds == old(rounds) + [probes] && clock >= old(clock)
    {
      probes := [];
      for i := 0 to |servers|
        invariant |probes| == i
        invariant forall k :: 0 <= k < i ==> probes[k].host == servers[k].0 && probes[k].addr == servers[k].1
        invariant clock >= old(clock) && rounds == old(rounds)
      {
        var answer: Answer := *;
        var took: int := *;
        clock := clock + if took > 0 then took else 0;
        probes := probes + [Probe(servers[i].0, servers[i].1, answer)];
      }
      rounds := rounds + [probes];
    }

    method Sleep(seconds: nat)
      modifies this
      ensures clock >= old(clock) + seconds && rounds == old(rounds)
    {
      var late: int := *;
      clock := clock + seconds + if late > 0 then late else 0;
    }
  }

  // `wait_for_all`, after the servers were looked up. The verdict is about the last round
  // alone; the loop ends because each turn sleeps towards the deadline.
  method WaitForAll(net: Network, servers: seq<(string, Addr)>, timeout: nat) returns (v: Verdict)
    modifies net
    ensures |net.rounds| > |old(net.rounds)| && old(net.rounds) <= net.rounds
    ensures var last := net.rounds[|net.rounds| - 1];
            && |last| == |servers|
            && (forall i :: 0 <= i < |servers| ==> last[i].host == servers[i].0)
            && (v.NoneReachable? <==> NoneAnswered(last))
            && (v.AllServing? <==> AllServe(last) && !NoneAnswered(last))
    ensures v.StillPending? ==> net.clock >= old(net.clock) + timeout
    ensures |net.rounds| - |old(net.rounds)| <= timeout / POLL_INTERVAL + 2
  {
    var deadline := net.clock + timeout;
    ghost var start := net.clock;
    ghost var n := 0;
    while true
      invariant |net.rounds| == |old(net.rounds)| + n && old(net.rounds) <= net.rounds
      invariant net.clock >= start + POLL_INTERVAL * n
      invariant n > 0 ==> POLL_INTERVAL * (n - 1) < timeout
      decreases deadline - net.clock
    {
      var probes := net.ProbeAll(servers);
      n := n + 1;
      var missing, unreachable := PendingServers(probes);
      AllSilentIffNoneAnswered(probes);
      NothingPendingIffAllServe(probes);
      if |unreachable| == |servers| {
        return NoneReachable;
      }
      if missing == [] && unreachable == [] {
        return AllServing;
      }
      if net.clock >= deadline {
        return StillPending;
      }
      net.Sleep(POLL_INTERVAL);
    }
  }
}
