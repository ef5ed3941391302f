// Obtaining and renewing the certificate (native/src/acme_orchestrate.rs): when it is due,
// and how the new key and certificate reach the disk. Times are nanoseconds since 1970.
module Renewal {
  import opened Wrappers

  type Time = nat

  const DAY: Time := 24 * 60 * 60 * 1_000_000_000
  const RENEW_AFTER_DAYS: nat := 60

  type KeyId = string

  // A certificate chain: the key it was issued for, and its leaf's validity window when
  // that parses.
  datatype Cert = Cert(forKey: KeyId, validity: Option<(Time, Time)>)

  datatype CertFile = CertFile(cert: Cert, modified: Time)

  datatype Files = Files(
    key: Option<KeyId>,
    cert: Option<CertFile>,
    keyNew: Option<KeyId>,
    certNew: Option<CertFile>)

  predicate RenewalDueByValidity(notBefore: Time, notAfter: Time, now: Time) {
    notAfter < notBefore || now >= notBefore + (notAfter - notBefore) * 2 / 3
  }

  // A clock before the file's time counts as due.
  predicate RenewalDue(issuedAt: Time, now: Time) {
    now < issuedAt || now - issuedAt >= RENEW_AFTER_DAYS * DAY
  }

  predicate Due(file: CertFile, now: Time) {
    match file.cert.validity
    case Some(window) => RenewalDueByValidity(window.0, window.1, now)
    case None => RenewalDue(file.modified, now)
  }

  // What the due check could read: the certificate file, and the time of its last change.
  datatype Sight = Sight(cert: bool, time: bool)

  predicate NeedsRenewal(f: Files, now: Time, sight: Sight) {
    || f.cert.None? || !sight.cert
    || (f.cert.value.cert.validity.None? && !sight.time)
    || Due(f.cert.value, now)
  }

  // It read all it needed to judge the certificate there.
  predicate Informed(f: Files, sight: Sight) {
    f.cert.Some? ==> sight.cert && (f.cert.value.cert.validity.Some? || sight.time)
  }

  // One run: when the due check and the write of the new certificate happen, what the check
  // could read, and what the CA issued, if it got that far.
  datatype Run = Run(checkedAt: Time, sight: Sight, wroteAt: Time, issued: Option<Cert>)

  predicate Starts(f: Files, r: Run) {
    NeedsRenewal(f, r.checkedAt, r.sight)
  }

  // `stage` of the two renames have happened.
  predicate AtStage(f: Files, r: Run, stage: nat, e: Files)
    requires r.issued.Some?
  {
    && e.key == (if stage >= 1 then Some(r.issued.value.forKey) else f.key)
    && e.cert == (if stage >= 2 then Some(CertFile(r.issued.value, r.wroteAt)) else f.cert)
  }

  predicate Untouched(f: Files, e: Files) {
    e.key == f.key && e.cert == f.cert
  }

  // Every state of the files a run can stop in.
  ghost predicate RunReaches(f: Files, r: Run, e: Files) {
    if Starts(f, r) && r.issued.Some? then exists stage: nat :: stage <= 2 && AtStage(f, r, stage, e)
    else Untouched(f, e)
  }

  datatype Outcome = Renewed | NothingToDo | Failed

  class CertDir {
    var files: Files
    ghost var seen: seq<Files>   // every state the files have been in, newest last
    ghost var errors: nat        // system calls that failed

    ghost predicate Valid()
      reads this
    {
      seen != [] && seen[|seen| - 1] == files
    }

    constructor (files: Files)
      ensures Valid() && this.files == files && seen == [files]
    {
      this.files := files;
      seen := [files];
      errors := 0;
    }

    method Call(after: Files) returns (ok: bool)
      requires Valid()
      modifies this
      ensures Valid() && seen == old(seen) + [files]
      ensures files == if ok then after else old(files)
      ensures errors == old(errors) + if ok then 0 else 1
    {
      ok := *;
      if ok {
        files := after;
      }
      errors := errors + if ok then 0 else 1;
      seen := seen + [files];
    }

    // `mayIssue` is the admission broker's answer, if it gave one; `r.issued` the CA's.
    method ObtainOrRenew(r: Run, mayIssue: Option<bool>) returns (outcome: Outcome)
      requires Valid()
      modifies this
      ensures Valid() && old(seen) <= seen
      ensures forall i :: |old(seen)| <= i < |seen| ==> RunReaches(old(files), r, seen[i])
      ensures outcome.Renewed? ==> Starts(old(files), r) && mayIssue == Some(true) && r.issued.Some? && AtStage(old(files), r, 2, files)
      ensures outcome.NothingToDo? ==> files == old(files)
      ensures outcome.NothingToDo? <==> !Starts(old(files), r) || mayIssue == Some(false)
      ensures Starts(old(files), r) && mayIssue == Some(true) && r.issued.Some? ==> (outcome.Renewed? <==> errors == old(errors))
    {
      ghost var f := files;
      if !Starts(files, r) {
        return NothingToDo;
      }
      if mayIssue.None? {
        return Failed;
      }
      if !mayIssue.value {
        return NothingToDo;
      }
      if r.issued.None? {
        return Failed;
      }
      assert forall e: Files :: AtStage(f, r, 0, e) || AtStage(f, r, 1, e) || AtStage(f, r, 2, e) ==> RunReaches(f, r, e);
      var cert := r.issued.value;
      var ok := Call(files.(keyNew := Some(cert.forKey)));
      if !ok {
        return Failed;
      }
      ok := Call(files.(certNew := Some(CertFile(cert, r.wroteAt))));
      if !ok {
        var cleaned := Call(files.(keyNew := None));
        return Failed;
      }
      ok := Call(files.(key := files.keyNew, keyNew := None));
      if !ok {
        return Failed;
      }
      ok := Call(files.(cert := files.certNew, certNew := None));
      if !ok {
        return Failed;
      }
      ok := Call(files);
      outcome := if ok then Renewed else Failed;
    }
  }

  // ---- when it is due --------------------------------------------------------------------------

  // By its own validity: from two thirds of its lifetime on, to the nanosecond, and so no
  // later than its expiry; never before it starts, always if the window makes no sense.
  lemma DueFromTwoThirds(notBefore: Time, notAfter: Time, now: Time)
    ensures notAfter < notBefore ==> RenewalDueByValidity(notBefore, notAfter, now)
    ensures notBefore <= notAfter && now < notBefore ==> !RenewalDueByValidity(notBefore, notAfter, now)
    ensures notBefore <= notAfter && notBefore <= now ==>
              (RenewalDueByValidity(notBefore, notAfter, now) <==> 3 * (now - notBefore) + 2 >= 2 * (notAfter - notBefore))
    ensures notAfter <= now ==> RenewalDueByValidity(notBefore, notAfter, now)
  {
  }

  // Day 60 of a 90-day certificate, day 30 of a 45-day one.
  lemma DueDays(notBefore: Time, now: Time)
    ensures RenewalDueByValidity(notBefore, notBefore + 90 * 86_400_000_000_000, now) <==>
            now >= notBefore + 60 * 86_400_000_000_000
    ensures RenewalDueByValidity(notBefore, notBefore + 45 * 86_400_000_000_000, now) <==>
            now >= notBefore + 30 * 86_400_000_000_000
  {
  }

  // By the file's age: from 60 days on, or if its time lies ahead.
  lemma DueByAge(issuedAt: Time, now: Time)
    ensures RenewalDue(issuedAt, now) <==> now < issuedAt || now >= issuedAt + 5_184_000_000_000_000
  {
  }

  // A run starts exactly when no certificate is there, it could not be judged, or two thirds
  // of its lifetime (60 days of its file's, where its validity does not parse) have passed.
  lemma StartsIff(f: Files, r: Run)
    requires f.cert.Some? && Informed(f, r.sight)
    requires f.cert.value.cert.validity.Some? ==>
               var (notBefore, notAfter) := f.cert.value.cert.validity.value; notBefore <= notAfter && notBefore <= r.checkedAt
    ensures Starts(f, r) <==>
            match f.cert.value.cert.validity
            case Some(window) => 3 * (r.checkedAt - window.0) + 2 >= 2 * (window.1 - window.0)
            case None => r.checkedAt < f.cert.value.modified || r.checkedAt >= f.cert.value.modified + 5_184_000_000_000_000
  {
    match f.cert.value.cert.validity
    case Some(window) => DueFromTwoThirds(window.0, window.1, r.checkedAt);
    case None => DueByAge(f.cert.value.modified, r.checkedAt);
  }

  lemma StartsUninformed(f: Files, r: Run)
    requires f.cert.None? || !Informed(f, r.sight)
    ensures Starts(f, r)
  {
  }

  // ---- any number of runs and crashes --------------------------------------------------------

  ghost predicate KeyMatches(f: Files) {
    f.cert.Some? ==> f.key == Some(f.cert.value.cert.forKey)
  }

  // The certificate is judged by its own validity, or by a file time not in the future.
  predicate Datable(file: CertFile, now: Time) {
    file.cert.validity.Some? || file.modified <= now
  }

  // A certificate without its own key beside it is due, and stays due.
  ghost predicate Sound(f: Files, now: Time) {
    f.cert.Some? ==> Datable(f.cert.value, now) && (KeyMatches(f) || Due(f.cert.value, now))
  }

  // A certificate once due is due ever after.
  lemma DueStaysDue(file: CertFile, now: Time, later: Time)
    requires Due(file, now) && now <= later
    requires Datable(file, now)
    ensures Due(file, later)
  {
  }

  // Runs on a clock that never steps back, each of which could read what it needed.
  ghost predicate Runs(fs: seq<Files>, runs: seq<Run>) {
    && |fs| == |runs| + 1
    && (forall i :: 0 <= i < |runs| ==>
                      runs[i].checkedAt <= runs[i].wroteAt && Informed(fs[i], runs[i].sight) && RunReaches(fs[i], runs[i], fs[i + 1]))
    && (forall i :: 0 <= i < |runs| - 1 ==> runs[i].wroteAt <= runs[i + 1].checkedAt)
  }

  // Over any sequence of such runs and crashes: whenever a certificate on disk is not due
  // its own key is beside it, so the one mixed state (new key, old certificate) is always
  // repaired by the next run.
  lemma {:induction false} FreshCertHasItsKey(fs: seq<Files>, runs: seq<Run>, start: Time, now: Time)
    requires Runs(fs, runs) && Sound(fs[0], start)
    requires runs != [] ==> start <= runs[0].checkedAt && runs[|runs| - 1].wroteAt <= now
    requires runs == [] ==> start <= now
    ensures Sound(fs[|runs|], now)
    ensures fs[|runs|].cert.Some? && !Due(fs[|runs|].cert.value, now) ==> KeyMatches(fs[|runs|])
  {
    var n := |runs|;
    if n == 0 {
      SoundLater(fs[0], start, now);
    } else {
      FreshCertHasItsKey(fs[..n], runs[..n - 1], start, runs[n - 1].checkedAt);
      RunIsSound(fs[n - 1], runs[n - 1], fs[n]);
      SoundLater(fs[n], runs[n - 1].wroteAt, now);
    }
  }

  lemma SoundLater(f: Files, now: Time, later: Time)
    requires Sound(f, now) && now <= later
    ensures Sound(f, later)
  {
    if f.cert.Some? && Due(f.cert.value, now) { DueStaysDue(f.cert.value, now, later); }
  }

  lemma RunIsSound(f: Files, r: Run, e: Files)
    requires Sound(f, r.checkedAt) && r.checkedAt <= r.wroteAt && Informed(f, r.sight) && RunReaches(f, r, e)
    ensures Sound(e, r.wroteAt)
  {
    SoundLater(f, r.checkedAt, r.wroteAt);
    if Starts(f, r) && f.cert.Some? { DueStaysDue(f.cert.value, r.checkedAt, r.wroteAt); }
  }

  // A file that cannot be read counts as due. A run that finds a fresh certificate with its
  // own key keeps the two together at every crash point exactly when it could read what it
  // needed to see that: otherwise it renews, and a crash between the renames leaves a new
  // key beside an old certificate that is not due.
  lemma FreshPairSurvivesIffInformed(f: Files, r: Run)
    requires f.cert.Some? && KeyMatches(f) && Datable(f.cert.value, r.checkedAt) && r.checkedAt <= r.wroteAt
    requires !Due(f.cert.value, r.wroteAt)
    requires r.issued.Some? && Some(r.issued.value.forKey) != f.key   // a fresh key
    ensures (forall e :: RunReaches(f, r, e) ==> Sound(e, r.wroteAt)) <==> Informed(f, r.sight)
  {
    if Informed(f, r.sight) {
      forall e | RunReaches(f, r, e)
        ensures Sound(e, r.wroteAt)
      {
        RunIsSound(f, r, e);
      }
    } else {
      var e := f.(key := Some(r.issued.value.forKey));
      assert AtStage(f, r, 1, e);
      assert RunReaches(f, r, e) && !Sound(e, r.wroteAt);
    }
  }

  // The old certificate of the mixed state is due at every later moment exactly when it was
  // due by what its file says, judged by its validity or by a time not in the future: a
  // future one is due only until the clock reaches it.
  lemma MixedStateStaysDueIff(file: CertFile, checkedAt: Time)
    ensures (forall later: Time :: checkedAt <= later ==> Due(file, later)) <==>
            Due(file, checkedAt) && Datable(file, checkedAt)
  {
    if Due(file, checkedAt) && !Datable(file, checkedAt) {
      assert !Due(file, file.modified);
    }
  }

  // So a run may be cut off between its renames without harm, whenever the next one comes,
  // exactly when it renewed because the certificate was due and stays so.
  lemma CutOffIsRepairedIff(f: Files, r: Run)
    requires f.cert.Some? && Starts(f, r) && r.issued.Some?
    ensures (forall e, later: Time, sight ::
               AtStage(f, r, 1, e) && r.checkedAt <= later ==> NeedsRenewal(e, later, sight)) <==>
            Due(f.cert.value, r.checkedAt) && Datable(f.cert.value, r.checkedAt)
  {
    MixedStateStaysDueIff(f.cert.value, r.checkedAt);
    var e := f.(key := Some(r.issued.value.forKey));
    var sight := Sight(true, true);
    assert AtStage(f, r, 1, e);
    forall later: Time | r.checkedAt <= later
      ensures NeedsRenewal(e, later, sight) <==> Due(f.cert.value, later)
    {
    }
  }
}
