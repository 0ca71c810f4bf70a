/** What firmware requests and status messages do to a device's records, told by the records alone, and over runs. */
module FirmwareReports {
  import opened Wrappers
  import opened Calls
  import opened Firmware

  // ---- Requests ---------------------------------------------------------------------------------

  ghost predicate SomePending(records: seq<Record>, version: int) {
    exists i :: 0 <= i < |records| && records[i].version == version && records[i].status == Pending
  }

  lemma PendingLaw(records: seq<Record>, version: int)
    ensures HasPending(records, version) <==> SomePending(records, version)
  {
    if HasPending(records, version) {
      var r :| r in records && r.version == version && r.status == Pending;
    }
    if SomePending(records, version) {
      var i :| 0 <= i < |records| && records[i].version == version && records[i].status == Pending;
      assert records[i] in records;
    }
  }

  /** A new record is pending for the timeout and timed out after it. */
  predicate Awaits(r: Record, since: int, timeout: nat) {
    && r.status == Pending && r.requestedAt == since
    && ComputeStatus(r, since + timeout, timeout) == PendingShown && ComputeStatus(r, since + timeout + 1, timeout) == TimeoutShown
  }

  /** A confirm is accepted exactly for an owned device without a pending record of the release. It asks for the release. */
  lemma ConfirmLaw(u: Update, owned: bool, release: Option<int>, nonce: nat, now: int, timeout: nat, reply: Reply)
    ensures var (u', r) := Confirm(u, owned, release, nonce, now, reply);
            var allowed := owned && release.Some? && !SomePending(u.records, release.value);
            && (r.Ok? <==> allowed && reply.publish.Accepted? && reply.stored)
            && (!owned ==> r == Err(DeviceNotFound))
            && (owned && release.None? ==> r == Err(NoRelease))
            && (owned && release.Some? && SomePending(u.records, release.value) ==> r == Err(AlreadyPending))
            && (!allowed ==> u' == u)
            && (r.Err? ==> u'.records == u.records)
            && (allowed && !TakesEffect(reply.publish) ==> u' == u)
            && (allowed && TakesEffect(reply.publish) ==> u'.manifest == Some(Manifest(release.value, nonce)))
            && (r.Ok? ==>
                  && |u'.records| == |u.records| + 1 && u'.records[..|u.records|] == u.records
                  && var new' := u'.records[|u.records|];
                  && new'.version == release.value && new'.nonce == nonce && new'.lastError == None && Awaits(new', now, timeout))
            && u'.reported == u.reported
  {
    if release.Some? {
      PendingLaw(u.records, release.value);
    }
  }

  /** The latest record has failed, or is pending and has timed out. */
  predicate MayRetry(u: Update, now: int, timeout: nat) {
    u.records != []
    && var latest := u.records[|u.records| - 1];
    latest.status == Failing || (latest.status == Pending && now > latest.requestedAt + timeout)
  }

  /** A retry is accepted exactly for such a record. It publishes the release and asks again for the record's version. */
  lemma RetryLaw(u: Update, owned: bool, release: Option<int>, nonce: nat, now: int, timeout: nat, reply: Reply)
    ensures var (u', r) := Retry(u, owned, release, nonce, now, timeout, reply);
            var allowed := owned && release.Some? && MayRetry(u, now, timeout);
            && (r.Ok? <==> allowed && reply.publish.Accepted? && reply.stored)
            && (!owned ==> r == Err(DeviceNotFound))
            && (owned && release.None? ==> r == Err(NoRelease))
            && (owned && release.Some? && !allowed ==> r == Err(NothingToRetry))
            && (!allowed ==> u' == u)
            && (r.Err? ==> u'.records == u.records)
            && (allowed && !TakesEffect(reply.publish) ==> u' == u)
            && (allowed && TakesEffect(reply.publish) ==> u'.manifest == Some(Manifest(release.value, nonce)))
            && (r.Ok? ==>
                  && var last := |u.records| - 1;
                  && |u'.records| == |u.records| && u'.records[..last] == u.records[..last]
                  && u'.records[last].version == u.records[last].version && u'.records[last].nonce == nonce
                  && u'.records[last].lastError == None && Awaits(u'.records[last], now, timeout))
            && u'.reported == u.reported
  {
  }

  // ---- Status messages --------------------------------------------------------------------------

  /** Record `i` is the last pending one, of the version if one is given. */
  ghost predicate IsLastPending(records: seq<Record>, version: Option<int>, i: nat) {
    && i < |records| && records[i].status == Pending && (version.Some? ==> records[i].version == version.value)
    && forall k | i < k < |records| :: records[k].status != Pending || (version.Some? && records[k].version != version.value)
  }

  lemma LastPendingLaw(records: seq<Record>, version: Option<int>, i: nat)
    requires IsLastPending(records, version, i)
    ensures LastPending(records, version) == i
  {
    var j := LastPending(records, version);
    assert j >= i;
  }

  /** Only record `i` has changed. */
  ghost predicate OnlyRecord(before: seq<Record>, after: seq<Record>, i: nat) {
    |after| == |before| && forall k | 0 <= k < |before| && k != i :: after[k] == before[k]
  }

  /**
   * A failure report fails the last pending record, of whatever version, with the reason given: it is shown as
   * failed at every time, and if it is the latest, the owner may retry at once.
   */
  lemma FailureReported(u: Update, version: int, reason: string, i: nat, release: int, nonce: nat, now: int, timeout: nat)
    requires IsLastPending(u.records, None, i)
    ensures var u' := Ingest(u, version, ReportsFailure(reason), true);
            && OnlyRecord(u.records, u'.records, i)
            && u'.records[i] == u.records[i].(status := Failing, lastError := Some(reason))
            && ComputeStatus(u'.records[i], now, timeout) == FailedShown
            && u'.manifest == u.manifest && u'.reported == Some(version)
            && (i == |u.records| - 1 ==> Retry(u', true, Some(release), nonce, now, timeout, Reply(Accepted, true)).1 == Ok(()))
  {
    LastPendingLaw(u.records, None, i);
  }

  /** An ok report completes the last pending record of its version, which is then shown as succeeded at every time. */
  lemma OkReported(u: Update, version: int, i: nat, now: int, timeout: nat)
    requires IsLastPending(u.records, Some(version), i)
    ensures var u' := Ingest(u, version, ReportsOk, true);
            && OnlyRecord(u.records, u'.records, i)
            && u'.records[i] == u.records[i].(status := Succeeded)
            && ComputeStatus(u'.records[i], now, timeout) == SucceededShown
            && u'.manifest == u.manifest && u'.reported == Some(version)
  {
    LastPendingLaw(u.records, Some(version), i);
  }

  /** A report that matches no pending record, and one without a result, change the reported version only. */
  lemma NothingReported(u: Update, version: int, report: Report)
    requires match report
             case ReportsOk => forall i | 0 <= i < |u.records| :: u.records[i].status != Pending || u.records[i].version != version
             case ReportsFailure(_) => forall i | 0 <= i < |u.records| :: u.records[i].status != Pending
             case ReportsOther => true
    ensures Ingest(u, version, report, true) == u.(reported := Some(version))
    ensures Ingest(u, version, report, false) == u
  {
  }

  // ---- Every run --------------------------------------------------------------------------------

  /** Record `i` has succeeded; or it has failed for this reason. */
  predicate Has(records: seq<Record>, i: nat, reason: Option<string>) {
    i < |records| && if reason.None? then records[i].status == Succeeded
                     else records[i].status == Failing && records[i].lastError == reason
  }

  /** The step reports success for the version; or a failure with this reason. */
  predicate Tells(step: Step, version: int, reason: Option<string>) {
    && step.Ingesting? && step.stored
    && if reason.None? then step.version == version && step.report == ReportsOk
       else step.report == ReportsFailure(reason.value)
  }

  lemma StepTells(s: State, step: Step, timeout: nat, i: nat, reason: Option<string>)
    requires Has(Apply(s, step, timeout).update.records, i, reason)
    ensures Has(s.update.records, i, reason) || Tells(step, Apply(s, step, timeout).update.records[i].version, reason)
  {
  }

  lemma {:induction false} VersionsStay(s: State, steps: seq<Step>, timeout: nat)
    ensures var records, records' := s.update.records, Exec(s, steps, timeout).update.records;
            |records| <= |records'| && forall i | 0 <= i < |records| :: records'[i].version == records[i].version
    decreases |steps|
  {
    if steps != [] {
      StepMovesRecords(s, steps[0], timeout);
      VersionsStay(Apply(s, steps[0], timeout), steps[1..], timeout);
    }
  }

  lemma {:induction false} RunTells(s: State, steps: seq<Step>, timeout: nat, i: nat, reason: Option<string>)
    requires Has(Exec(s, steps, timeout).update.records, i, reason) && !Has(s.update.records, i, reason)
    ensures exists k :: 0 <= k < |steps| && Tells(steps[k], Exec(s, steps, timeout).update.records[i].version, reason)
    decreases |steps|
  {
    if steps != [] {
      var s1 := Apply(s, steps[0], timeout);
      VersionsStay(s1, steps[1..], timeout);
      if Has(s1.update.records, i, reason) {
        StepTells(s, steps[0], timeout, i, reason);
        assert Tells(steps[0], Exec(s, steps, timeout).update.records[i].version, reason);
      } else {
        RunTells(s1, steps[1..], timeout, i, reason);
        var k :| 0 <= k < |steps[1..]| && Tells(steps[1..][k], Exec(s, steps, timeout).update.records[i].version, reason);
        assert Tells(steps[k + 1], Exec(s, steps, timeout).update.records[i].version, reason);
      }
    }
  }

  /**
   * In every run a record succeeds only through an ok report for its own version, and fails only through a failure
   * report with the reason it shows.
   */
  lemma OnlyReportsDecide(steps: seq<Step>, timeout: nat, i: nat)
    requires i < |Exec(START, steps, timeout).update.records|
    ensures var r := Exec(START, steps, timeout).update.records[i];
            && (r.status == Succeeded ==> exists k :: 0 <= k < |steps| && steps[k] == Ingesting(r.version, ReportsOk, true))
            && (r.status == Failing && r.lastError.Some? ==>
                  exists k :: 0 <= k < |steps| && steps[k].Ingesting? && steps[k].stored && steps[k].report == ReportsFailure(r.lastError.value))
            && (r.status == Failing ==> r.lastError.Some?)
  {
    var r := Exec(START, steps, timeout).update.records[i];
    if r.status == Succeeded {
      RunTells(START, steps, timeout, i, None);
      var k :| 0 <= k < |steps| && Tells(steps[k], r.version, None);
    }
    RunNamesReasons(START, steps, timeout);
    if r.status == Failing {
      RunTells(START, steps, timeout, i, r.lastError);
      var k :| 0 <= k < |steps| && Tells(steps[k], r.version, r.lastError);
    }
  }

  ghost predicate ReasonsNamed(records: seq<Record>) {
    forall i | 0 <= i < |records| && records[i].status == Failing :: records[i].lastError.Some?
  }

  lemma {:induction false} RunNamesReasons(s: State, steps: seq<Step>, timeout: nat)
    requires ReasonsNamed(s.update.records)
    ensures ReasonsNamed(Exec(s, steps, timeout).update.records)
    decreases |steps|
  {
    if steps != [] {
      RunNamesReasons(Apply(s, steps[0], timeout), steps[1..], timeout);
    }
  }
}
