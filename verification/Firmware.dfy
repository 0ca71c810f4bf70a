/** Firmware updates: confirming, retrying and ingesting device status over a device's history of records. */
module Firmware {
  import opened Wrappers
  import opened Calls

  datatype Status = Pending | Succeeded | Failing

  /** A row of device_firmware_updates. Versions are numbered in release order. */
  datatype Record = Record(version: int, nonce: nat, status: Status, lastError: Option<string>, requestedAt: int)

  datatype Manifest = Manifest(version: int, nonce: nat)

  /** What the server knows about one device: its records in creation order and its retained manifest. */
  datatype Update = Update(records: seq<Record>, manifest: Option<Manifest>, reported: Option<int>)

  datatype Refusal = DeviceNotFound | NoRelease | AlreadyPending | NothingToRetry | PublishFailed | StoreFailed

  datatype Shown = IdleShown | PendingShown | SucceededShown | FailedShown | TimeoutShown

  /** What a device reports about its last update. */
  datatype Report = ReportsOk | ReportsFailure(reason: string) | ReportsOther

  /** The environment's part in a confirm or retry: the publish, and whether the record write succeeds. */
  datatype Reply = Reply(publish: Call, stored: bool)

  function ComputeStatus(r: Record, now: int, timeout: nat): Shown {
    match r.status
    case Succeeded => SucceededShown
    case Failing => FailedShown
    case Pending => if now - r.requestedAt > timeout then TimeoutShown else PendingShown
  }

  predicate HasPending(records: seq<Record>, version: int) {
    exists r | r in records :: r.version == version && r.status == Pending
  }

  function Latest(records: seq<Record>): Option<Record> {
    if records == [] then None else Some(records[|records| - 1])
  }

  /** The last pending record that satisfies `version`, or -1. */
  function LastPending(records: seq<Record>, version: Option<int>): (i: int)
    ensures -1 <= i < |records|
    ensures i >= 0 ==> records[i].status == Pending && (version.Some? ==> records[i].version == version.value)
    ensures forall k | i < k < |records| && records[k].status == Pending :: version.Some? && records[k].version != version.value
  {
    if records == [] then -1
    else
      var r := records[|records| - 1];
      if r.status == Pending && (version.Some? ==> r.version == version.value) then |records| - 1
      else LastPending(records[..|records| - 1], version)
  }

  function MarkSucceeded(records: seq<Record>, version: int): (r: seq<Record>)
    ensures |r| == |records|
  {
    var i := LastPending(records, Some(version));
    if i < 0 then records else records[i := records[i].(status := Succeeded)]
  }

  function MarkFailed(records: seq<Record>, reason: string): (r: seq<Record>)
    ensures |r| == |records|
  {
    var i := LastPending(records, None);
    if i < 0 then records else records[i := records[i].(status := Failing, lastError := Some(reason))]
  }

  /** Retrying writes a new nonce to the latest record and keeps its version. */
  function ResetPending(records: seq<Record>, nonce: nat, now: int): (r: seq<Record>)
    requires records != []
    ensures |r| == |records|
  {
    var last := |records| - 1;
    records[last := records[last].(nonce := nonce, status := Pending, requestedAt := now, lastError := None)]
  }

  function Published(u: Update, m: Manifest, call: Call): Update {
    if TakesEffect(call) then u.(manifest := Some(m)) else u
  }

  /** The manifest is published before the record is written. */
  function Confirm(u: Update, owned: bool, release: Option<int>, nonce: nat, now: int, reply: Reply): (Update, Result<(), Refusal>) {
    if !owned then (u, Err(DeviceNotFound))
    else if release.None? then (u, Err(NoRelease))
    else if HasPending(u.records, release.value) then (u, Err(AlreadyPending))
    else
      var u' := Published(u, Manifest(release.value, nonce), reply.publish);
      if !reply.publish.Accepted? then (u', Err(PublishFailed))
      else if !reply.stored then (u', Err(StoreFailed))
      else (u'.(records := u.records + [Record(release.value, nonce, Pending, None, now)]), Ok(()))
  }

  predicate RetryAllowed(u: Update, now: int, timeout: nat) {
    u.records != []
    && var status := ComputeStatus(u.records[|u.records| - 1], now, timeout); status == FailedShown || status == TimeoutShown
  }

  /** A retry publishes the current release, whatever version the latest record asked for. */
  function Retry(u: Update, owned: bool, release: Option<int>, nonce: nat, now: int, timeout: nat, reply: Reply): (Update, Result<(), Refusal>) {
    if !owned then (u, Err(DeviceNotFound))
    else if release.None? then (u, Err(NoRelease))
    else if !RetryAllowed(u, now, timeout) then (u, Err(NothingToRetry))
    else
      var u' := Published(u, Manifest(release.value, nonce), reply.publish);
      if !reply.publish.Accepted? then (u', Err(PublishFailed))
      else if !reply.stored then (u', Err(StoreFailed))
      else (u'.(records := ResetPending(u.records, nonce, now)), Ok(()))
  }

  /** A status message: the version write may fail, and then the report is not looked at. */
  function Ingest(u: Update, version: int, report: Report, stored: bool): Update {
    if !stored then u
    else
      var u' := u.(reported := Some(version));
      match report
      case ReportsOk => u'.(records := MarkSucceeded(u.records, version))
      case ReportsFailure(reason) => u'.(records := MarkFailed(u.records, reason))
      case ReportsOther => u'
  }

  // ---- The service, working on the record table and the broker in place -------------------------

  class FirmwareService {
    var updates: map<string, Update>
    var release: Option<int>
    const timeout: nat

    constructor (timeout: nat)
      ensures updates == map[] && release == None && this.timeout == timeout
    {
      updates, release := map[], None;
      this.timeout := timeout;
    }

    function Of(device: string): Update
      reads this
    {
      if device in updates then updates[device] else Update([], None, None)
    }

    ghost predicate OnlyChanged(before: map<string, Update>, device: string)
      reads this
    {
      updates.Keys == before.Keys + {device} && forall d | d in before && d != device :: updates[d] == before[d]
    }

    method ConfirmUpdate(device: string, owned: bool, nonce: nat, now: int, reply: Reply) returns (r: Result<(), Refusal>)
      modifies this`updates
      ensures (Of(device), r) == Confirm(old(Of(device)), owned, release, nonce, now, reply)
      ensures updates == old(updates) || OnlyChanged(old(updates), device)
    {
      if !owned {
        return Err(DeviceNotFound);
      }
      if release.None? {
        return Err(NoRelease);
      }
      var u := Of(device);
      var pending := HasPending(u.records, release.value);
      if pending {
        return Err(AlreadyPending);
      }
      if TakesEffect(reply.publish) {
        updates := updates[device := Of(device).(manifest := Some(Manifest(release.value, nonce)))];
      }
      if !reply.publish.Accepted? {
        return Err(PublishFailed);
      }
      if !reply.stored {
        return Err(StoreFailed);
      }
      updates := updates[device := Of(device).(records := Of(device).records + [Record(release.value, nonce, Pending, None, now)])];
      return Ok(());
    }

    method RetryUpdate(device: string, owned: bool, nonce: nat, now: int, reply: Reply) returns (r: Result<(), Refusal>)
      modifies this`updates
      ensures (Of(device), r) == Retry(old(Of(device)), owned, release, nonce, now, timeout, reply)
      ensures updates == old(updates) || OnlyChanged(old(updates), device)
    {
      if !owned {
        return Err(DeviceNotFound);
      }
      if release.None? {
        return Err(NoRelease);
      }
      var latest := Latest(Of(device).records);
      if latest.None? {
        return Err(NothingToRetry);
      }
      var status := ComputeStatus(latest.value, now, timeout);
      if status != FailedShown && status != TimeoutShown {
        return Err(NothingToRetry);
      }
      if TakesEffect(reply.publish) {
        updates := updates[device := Of(device).(manifest := Some(Manifest(release.value, nonce)))];
      }
      if !reply.publish.Accepted? {
        return Err(PublishFailed);
      }
      if !reply.stored {
        return Err(StoreFailed);
      }
      updates := updates[device := Of(device).(records := ResetPending(Of(device).records, nonce, now))];
      return Ok(());
    }

    method IngestStatus(device: string, version: int, report: Report, stored: bool)
      modifies this`updates
      ensures Of(device) == Ingest(old(Of(device)), version, report, stored)
      ensures updates == old(updates) || OnlyChanged(old(updates), device)
    {
      if !stored {
        return;
      }
      updates := updates[device := Of(device).(reported := Some(version))];
      match report {
        case ReportsOk =>
          updates := updates[device := Of(device).(records := MarkSucceeded(Of(device).records, version))];
        case ReportsFailure(reason) =>
          updates := updates[device := Of(device).(records := MarkFailed(Of(device).records, reason))];
        case ReportsOther =>
      }
    }
  }

  // ---- Every serial run -------------------------------------------------------------------------

  /**
   * One device, the current release and the clock. Two fields record history: whether the last publish was
   * not followed by its record write, and whether the latest record was retried under a newer release.
   */
  datatype State = State(update: Update, release: Option<int>, now: int, torn: bool, moved: bool)

  datatype Step =
    | Confirming(owned: bool, nonce: nat, reply: Reply)
    | Retrying(owned: bool, nonce: nat, reply: Reply)
    | Ingesting(version: int, report: Report, stored: bool)
    | Releasing(version: int)
    | Waiting(time: nat)

  const START := State(Update([], None, None), None, 0, false, false)

  /** A publish that took effect without a record to match it. */
  predicate Tears(before: Update, after: Update, r: Result<(), Refusal>) {
    r.Err? && after.manifest != before.manifest
  }

  function Apply(s: State, step: Step, timeout: nat): State {
    match step
    case Confirming(owned, nonce, reply) =>
      var (u, r) := Confirm(s.update, owned, s.release, nonce, s.now, reply);
      s.(update := u, torn := if r.Err? then s.torn || Tears(s.update, u, r) else false, moved := s.moved && r.Err?)
    case Retrying(owned, nonce, reply) =>
      var (u, r) := Retry(s.update, owned, s.release, nonce, s.now, timeout, reply);
      s.(update := u, torn := if r.Err? then s.torn || Tears(s.update, u, r) else false,
         moved := if r.Err? then s.moved else s.release.value != u.records[|u.records| - 1].version)
    case Ingesting(version, report, stored) => s.(update := Ingest(s.update, version, report, stored))
    case Releasing(version) => s.(release := Some(version))
    case Waiting(time) => s.(now := s.now + time)
  }

  /** Releases that never go back to an earlier version. */
  predicate Forward(s: State, step: Step) {
    step.Releasing? && s.release.Some? ==> s.release.value <= step.version
  }

  ghost predicate AllForward(s: State, steps: seq<Step>, timeout: nat)
    decreases |steps|
  {
    steps == [] || (Forward(s, steps[0]) && AllForward(Apply(s, steps[0], timeout), steps[1..], timeout))
  }

  function Exec(s: State, steps: seq<Step>, timeout: nat): State
    decreases |steps|
  {
    if steps == [] then s else Exec(Apply(s, steps[0], timeout), steps[1..], timeout)
  }

  /** Of two records for one version the earlier is not pending. */
  ghost predicate OnePending(records: seq<Record>) {
    forall i, j | 0 <= i < j < |records| && records[i].version == records[j].version :: records[i].status != Pending
  }

  /** A step appends a record for a release that has none pending, or keeps all versions and may revive the latest. */
  ghost predicate RecordsMove(records: seq<Record>, records': seq<Record>, release: Option<int>) {
    if |records'| == |records| then
      forall i | 0 <= i < |records| ::
        && records'[i].version == records[i].version
        && (records'[i].status == Pending ==> records[i].status == Pending || i == |records| - 1)
    else
      && |records'| == |records| + 1 && release.Some?
      && (forall i | 0 <= i < |records| ::
            records'[i] == records[i] && (records[i].version == release.value ==> records[i].status != Pending))
      && records'[|records|].version == release.value
  }

  lemma StepMovesRecords(s: State, step: Step, timeout: nat)
    ensures RecordsMove(s.update.records, Apply(s, step, timeout).update.records, s.release)
  {
    var records, records' := s.update.records, Apply(s, step, timeout).update.records;
    if step.Confirming? && |records'| > |records| {
      assert forall i | 0 <= i < |records| :: records[i] in records;
    }
  }

  lemma StepKeepsOnePending(s: State, step: Step, timeout: nat)
    requires OnePending(s.update.records)
    ensures OnePending(Apply(s, step, timeout).update.records)
  {
    StepMovesRecords(s, step, timeout);
  }

  lemma {:induction false} RunKeepsOnePending(s: State, steps: seq<Step>, timeout: nat)
    requires OnePending(s.update.records)
    ensures OnePending(Exec(s, steps, timeout).update.records)
    decreases |steps|
  {
    if steps != [] {
      StepKeepsOnePending(s, steps[0], timeout);
      RunKeepsOnePending(Apply(s, steps[0], timeout), steps[1..], timeout);
    }
  }

  /**
   * After any serial run, whatever the releases, at most one record per version is pending, namely the last
   * one; so once the device reports ok for a version nothing is pending for it.
   */
  lemma OkClearsPending(steps: seq<Step>, timeout: nat, version: int)
    ensures var u := Exec(START, steps, timeout).update;
            && OnePending(u.records)
            && !HasPending(Ingest(u, version, ReportsOk, true).records, version)
  {
    RunKeepsOnePending(START, steps, timeout);
    var records := Exec(START, steps, timeout).update.records;
    var i := LastPending(records, Some(version));
    forall k | 0 <= k < |records| && records[k].version == version && k != i ensures records[k].status != Pending {
    }
  }

  /** A pending record that is not the latest was for an earlier release. */
  ghost predicate Superseded(s: State) {
    var records := s.update.records;
    && (forall i | 0 <= i < |records| :: s.release.Some? && records[i].version <= s.release.value)
    && (forall i, j | 0 <= i < j < |records| && records[i].status == Pending :: records[i].version < records[j].version)
  }

  lemma StepKeepsSuperseded(s: State, step: Step, timeout: nat)
    requires Superseded(s) && Forward(s, step)
    ensures Superseded(Apply(s, step, timeout))
  {
    StepMovesRecords(s, step, timeout);
    MoveKeepsSuperseded(s, Apply(s, step, timeout));
  }

  lemma MoveKeepsSuperseded(s: State, s': State)
    requires Superseded(s) && RecordsMove(s.update.records, s'.update.records, s.release)
    requires s.release.Some? ==> s'.release.Some? && s.release.value <= s'.release.value
    ensures Superseded(s')
  {
    var records, records' := s.update.records, s'.update.records;
    assert forall i | 0 <= i < |records| :: records'[i].version == records[i].version;
    forall i, j | 0 <= i < j < |records'| && records'[i].status == Pending ensures records'[i].version < records'[j].version {
      assert records[i].status == Pending && records[i].version <= s.release.value;
    }
  }

  lemma {:induction false} RunKeepsSuperseded(s: State, steps: seq<Step>, timeout: nat)
    requires Superseded(s) && AllForward(s, steps, timeout)
    ensures Superseded(Exec(s, steps, timeout))
    decreases |steps|
  {
    if steps != [] {
      StepKeepsSuperseded(s, steps[0], timeout);
      RunKeepsSuperseded(Apply(s, steps[0], timeout), steps[1..], timeout);
    }
  }

  // ---- When confirm and retry are both refused for ever -----------------------------------------

  const FINE := Reply(Accepted, true)

  predicate RefusedAt(u: Update, version: int, now: int, timeout: nat) {
    Confirm(u, true, Some(version), 0, now, FINE).1.Err? && Retry(u, true, Some(version), 0, now, timeout, FINE).1.Err?
  }

  /** While nothing else happens, the owner can neither confirm nor retry, however long one waits. */
  ghost predicate Wedged(u: Update, version: int, now: int, timeout: nat) {
    forall later: int | now <= later :: RefusedAt(u, version, later, timeout)
  }

  /** A record of the release is pending, and a later one has succeeded. */
  predicate Stuck(u: Update, version: int) {
    HasPending(u.records, version) && u.records != [] && u.records[|u.records| - 1].status == Succeeded
  }

  /** A device is wedged exactly when it is stuck, whatever its history, the time and the timeout. */
  lemma WedgedIffStuck(u: Update, version: int, now: int, timeout: nat)
    ensures Wedged(u, version, now, timeout) <==> Stuck(u, version)
  {
    if Wedged(u, version, now, timeout) {
      assert RefusedAt(u, version, now, timeout);
      var latest := u.records[|u.records| - 1];
      var expired := latest.requestedAt + timeout + 1;
      assert RefusedAt(u, version, if now <= expired then expired else now, timeout);
    }
  }

  lemma PendingReleaseIsLatest(s: State)
    requires Superseded(s) && s.release.Some? && HasPending(s.update.records, s.release.value)
    ensures var latest := s.update.records[|s.update.records| - 1]; latest.status == Pending && latest.version == s.release.value
  {
    var records := s.update.records;
    var r :| r in records && r.version == s.release.value && r.status == Pending;
    var i :| 0 <= i < |records| && records[i] == r;
    var last := |records| - 1;
    assert i <= last && records[last].version <= records[i].version;
  }

  /**
   * Firmware never wedges: if releases only move forward, no run leaves a device wedged, and whenever a confirm
   * is refused as already pending, the pending record is the latest one, and a retry is accepted exactly when
   * it has timed out.
   */
  lemma NeverWedges(steps: seq<Step>, timeout: nat, nonce: nat, nonce': nat)
    requires AllForward(START, steps, timeout)
    ensures var s := Exec(START, steps, timeout); s.release.Some? ==> !Wedged(s.update, s.release.value, s.now, timeout)
    ensures var s := Exec(START, steps, timeout);
            Confirm(s.update, true, s.release, nonce, s.now, FINE).1 == Err(AlreadyPending) ==>
              && s.update.records != []
              && var latest := s.update.records[|s.update.records| - 1];
              && latest.status == Pending && latest.version == s.release.value
              && (Retry(s.update, true, s.release, nonce', s.now, timeout, FINE).1.Ok? <==> s.now - latest.requestedAt > timeout)
  {
    RunKeepsSuperseded(START, steps, timeout);
    var s := Exec(START, steps, timeout);
    if s.release.Some? {
      WedgedIffStuck(s.update, s.release.value, s.now, timeout);
      if HasPending(s.update.records, s.release.value) {
        PendingReleaseIsLatest(s);
      }
    }
  }

  /** The steps to a state in which version 1 is pending again although version 2 has succeeded. */
  lemma PendingBehindSuccess(timeout: nat)
    ensures Exec(START, [Releasing(1), Confirming(true, 1, FINE), Releasing(2), Confirming(true, 2, FINE)], timeout)
         == START.(update := Update([Record(1, 1, Pending, None, 0), Record(2, 2, Pending, None, 0)], Some(Manifest(2, 2)), None),
                   release := Some(2))
  {
    var one, two := Record(1, 1, Pending, None, 0), Record(2, 2, Pending, None, 0);
    var s1 := START.(release := Some(1));
    var s2 := s1.(update := Update([one], Some(Manifest(1, 1)), None));
    var s3 := s2.(release := Some(2));
    var s4 := s3.(update := Update([one, two], Some(Manifest(2, 2)), None));
    Reaches(s3, Confirming(true, 2, FINE), s4, [], timeout);
    Reaches(s2, Releasing(2), s3, [Confirming(true, 2, FINE)], timeout);
    var rest := [Releasing(2), Confirming(true, 2, FINE)];
    Reaches(s1, Confirming(true, 1, FINE), s2, rest, timeout);
    Reaches(START, Releasing(1), s1, [Confirming(true, 1, FINE)] + rest, timeout);
    assert [Releasing(1)] + ([Confirming(true, 1, FINE)] + rest)
        == [Releasing(1), Confirming(true, 1, FINE), Releasing(2), Confirming(true, 2, FINE)];
  }

  /** If a release is withdrawn, a device can get wedged. */
  lemma WithdrawnReleaseWedges(timeout: nat, time: nat)
    ensures var s := Exec(START, [Releasing(1), Confirming(true, 1, FINE), Releasing(2), Confirming(true, 2, FINE)]
                                 + [Ingesting(2, ReportsOk, true), Releasing(1), Waiting(time)], timeout);
            && s.release == Some(1) && Wedged(s.update, 1, s.now, timeout)
            && Confirm(s.update, true, s.release, 3, s.now, FINE).1 == Err(AlreadyPending)
            && Retry(s.update, true, s.release, 3, s.now, timeout, FINE).1 == Err(NothingToRetry)
  {
    var one, two := Record(1, 1, Pending, None, 0), Record(2, 2, Pending, None, 0);
    PendingBehindSuccess(timeout);
    ExecSplits(START, [Releasing(1), Confirming(true, 1, FINE), Releasing(2), Confirming(true, 2, FINE)],
               [Ingesting(2, ReportsOk, true), Releasing(1), Waiting(time)], timeout);
    var s4 := START.(update := Update([one, two], Some(Manifest(2, 2)), None), release := Some(2));
    var s5 := s4.(update := Update([one, two.(status := Succeeded)], Some(Manifest(2, 2)), Some(2)));
    var s6 := s5.(release := Some(1));
    var s := s6.(now := time);
    Reaches(s6, Waiting(time), s, [], timeout);
    Reaches(s5, Releasing(1), s6, [Waiting(time)], timeout);
    Reaches(s4, Ingesting(2, ReportsOk, true), s5, [Releasing(1), Waiting(time)], timeout);
    assert [Ingesting(2, ReportsOk, true)] + [Releasing(1), Waiting(time)] == [Ingesting(2, ReportsOk, true), Releasing(1), Waiting(time)];
    assert one in s.update.records;
    WedgedIffStuck(s.update, 1, s.now, timeout);
  }

  lemma {:induction false} ExecSplits(s: State, one: seq<Step>, other: seq<Step>, timeout: nat)
    ensures Exec(s, one + other, timeout) == Exec(Exec(s, one, timeout), other, timeout)
    decreases |one|
  {
    if one == [] {
      assert one + other == other;
    } else {
      assert (one + other)[0] == one[0] && (one + other)[1..] == one[1..] + other;
      ExecSplits(Apply(s, one[0], timeout), one[1..], other, timeout);
    }
  }

  lemma Reaches(s: State, step: Step, s': State, rest: seq<Step>, timeout: nat)
    requires Apply(s, step, timeout) == s'
    ensures Exec(s, [step] + rest, timeout) == Exec(s', rest, timeout)
  {
    assert ([step] + rest)[1..] == rest;
  }

  // ---- The retained manifest --------------------------------------------------------------------

  /** The manifest belongs to the latest record. */
  ghost predicate ManifestFits(s: State) {
    var records := s.update.records;
    if s.torn then true
    else if records == [] then s.update.manifest == None
    else
      var latest := records[|records| - 1];
      && s.update.manifest.Some?
      && s.update.manifest.value.nonce == latest.nonce
      && (s.moved <==> s.update.manifest.value.version != latest.version)
  }

  ghost predicate ManifestNotOlder(s: State) {
    var records := s.update.records;
    !s.torn && records != [] ==>
      s.update.manifest.Some? && records[|records| - 1].version <= s.update.manifest.value.version
  }

  lemma StepKeepsManifest(s: State, step: Step, timeout: nat)
    requires ManifestFits(s)
    ensures ManifestFits(Apply(s, step, timeout))
  {
  }

  lemma StepKeepsNotOlder(s: State, step: Step, timeout: nat)
    requires ManifestNotOlder(s) && Superseded(s) && Forward(s, step)
    ensures ManifestNotOlder(Apply(s, step, timeout))
  {
  }

  lemma {:induction false} RunKeepsManifest(s: State, steps: seq<Step>, timeout: nat)
    requires ManifestFits(s)
    ensures ManifestFits(Exec(s, steps, timeout))
    ensures AllForward(s, steps, timeout) && Superseded(s) && ManifestNotOlder(s) ==> ManifestNotOlder(Exec(s, steps, timeout))
    decreases |steps|
  {
    if steps != [] {
      StepKeepsManifest(s, steps[0], timeout);
      if AllForward(s, steps, timeout) && Superseded(s) && ManifestNotOlder(s) {
        StepKeepsNotOlder(s, steps[0], timeout);
        StepKeepsSuperseded(s, steps[0], timeout);
      }
      RunKeepsManifest(Apply(s, steps[0], timeout), steps[1..], timeout);
    }
  }

  /**
   * Manifest agreement: unless the last publish lacks its record write, the retained manifest carries the
   * latest record's nonce, and its version differs from the record's exactly when the record was last retried
   * under another release; with releases moving forward it is never older.
   */
  lemma ManifestAgrees(steps: seq<Step>, timeout: nat)
    requires var s := Exec(START, steps, timeout); !s.torn && s.update.records != []
    ensures var s := Exec(START, steps, timeout);
            var latest := s.update.records[|s.update.records| - 1];
            && s.update.manifest.Some?
            && s.update.manifest.value.nonce == latest.nonce
            && (s.update.manifest.value.version != latest.version <==> s.moved)
            && (AllForward(START, steps, timeout) ==> latest.version <= s.update.manifest.value.version)
  {
    RunKeepsManifest(START, steps, timeout);
  }

  /**
   * A device that installs the retained manifest and reports ok for its version completes the latest pending
   * record exactly when the versions agree, that is unless the record was retried under another release.
   */
  lemma InstallingManifestCompletes(steps: seq<Step>, timeout: nat)
    requires var s := Exec(START, steps, timeout);
             !s.torn && s.update.records != [] && s.update.records[|s.update.records| - 1].status == Pending
    ensures var s := Exec(START, steps, timeout);
            && s.update.manifest.Some?
            && var after := Ingest(s.update, s.update.manifest.value.version, ReportsOk, true).records;
               (after[|after| - 1].status == Succeeded <==> !s.moved)
  {
    RunKeepsManifest(START, steps, timeout);
    var s := Exec(START, steps, timeout);
    var records, last := s.update.records, |s.update.records| - 1;
    var i := LastPending(records, Some(s.update.manifest.value.version));
    assert records[last].version == s.update.manifest.value.version ==> i == last;
  }
}
