/** When a device is reported ready, and what the broker then knows about its credentials. */
module Readiness {
  import opened Wrappers
  import opened Calls
  import opened Events
  import opened Outbox
  import opened Delivery
  import opened Tables
  import M = SystemMachine
  import C = Convergence

  type Sys = M.Sys

  datatype DeviceStatus = Ready(username: string, password: string) | NotReady | Unknown

  /** The activation status query. */
  function ActivationStatus(db: Db, rows: seq<Row>, device: Id): DeviceStatus {
    if device !in db.devices || db.devices[device].deleted then Unknown
    else
      var d := db.devices[device];
      if d.username.None? || d.password.None? || (exists r | r in rows :: r.payload.device == device && Live(r)) then NotReady
      else DeviceStatus.Ready(d.username.value, d.password.value)
  }

  /**
   * In every reachable state a device is ready exactly when it is not deleted, its credentials have been
   * enqueued for the broker, and no event of the device is waiting or in flight.
   */
  lemma ReadyIff(s: Sys, device: Id, maxAttempts: nat)
    requires M.Reachable(s, maxAttempts)
    ensures ActivationStatus(s.db, s.world.core.rows, device).Ready?
       <==> && device in s.db.devices && !s.db.devices[device].deleted
            && (exists i :: 0 <= i < |s.world.core.rows| && s.world.core.rows[i].payload.Provision? && s.world.core.rows[i].payload.device == device)
            && (forall i | 0 <= i < |s.world.core.rows| && s.world.core.rows[i].payload.device == device ::
                  s.world.core.rows[i].status == Completed || s.world.core.rows[i].status == Dead)
  {
    if device in s.db.devices {
      ReachableCredentialsAgree(s, maxAttempts);
      ActivatedIffEnqueued(s.db, s.world.core.rows, device);
    }
    assert forall r | r in s.world.core.rows :: Live(r) <==> !(r.status == Completed || r.status == Dead);
  }

  lemma ReachableCredentialsAgree(s: Sys, maxAttempts: nat)
    requires M.Reachable(s, maxAttempts)
    ensures CredentialsAgree(s.db, M.Log(s))
  {
    C.ReachableInvariant(s, maxAttempts);
  }

  lemma ActivatedIffEnqueued(db: Db, rows: seq<Row>, device: Id)
    requires CredentialsAgree(db, Payloads(rows)) && device in db.devices
    ensures db.devices[device].username.Some? == db.devices[device].password.Some?
    ensures db.devices[device].username.Some?
       <==> exists i :: 0 <= i < |rows| && rows[i].payload.Provision? && rows[i].payload.device == device
  {
    var log := Payloads(rows);
    if db.devices[device].username.Some? {
      var p := Provision(device, db.devices[device].username.value, db.devices[device].password.value);
      assert p in log;
      var i :| 0 <= i < |rows| && log[i] == p;
      assert rows[i].payload.Provision? && rows[i].payload.device == device;
    } else {
      forall i | 0 <= i < |rows| && rows[i].payload.Provision? ensures rows[i].payload.device != device {
        assert log[i] in log;
      }
    }
  }

  // ---- Credentials at the broker ----------------------------------------------------------------

  /** The provisioning worker is between creating the credential of `u` and the end of its attempt. */
  predicate MidFlight(s: Sys, u: Id) {
    Busy(s.world, PROVISION)
    && var k := s.world.workers[PROVISION];
       k.queue[0].payload.Provision? && k.queue[0].payload.username == u && (k.phase == Attaching || k.phase == Undoing)
  }

  predicate Succeeding(s: Sys, u: Id) {
    Busy(s.world, PROVISION)
    && var k := s.world.workers[PROVISION];
       k.queue[0].payload.Provision? && k.queue[0].payload.username == u && k.phase == Succeeded
  }

  ghost predicate Provisioned(s: Sys, u: Id) {
    exists i :: 0 <= i < |s.world.core.rows| && s.world.core.rows[i].status == Completed
                && s.world.core.rows[i].payload.Provision? && s.world.core.rows[i].payload.username == u
  }

  ghost predicate ProvisionEnqueued(s: Sys, u: Id, password: string) {
    exists i :: 0 <= i < |s.world.core.rows| && s.world.core.rows[i].payload == Provision(u, u, password)
  }

  /** The credential of a device that is not deleted, as far as the calls made for it determine it. */
  ghost predicate CredentialFits(s: Sys, u: Id) {
    var creds := s.world.core.creds;
    && (u in creds ==> ProvisionEnqueued(s, u, creds[u].password))
    && (MidFlight(s, u) ==> u in creds && (s.world.workers[PROVISION].phase == Attaching ==> !creds[u].role))
    && (u in s.orphans <==> u in creds && !creds[u].role && !MidFlight(s, u))
    && (u in s.dropped ==> u !in creds)
    && (Provisioned(s, u) ==> (u in creds && !MidFlight(s, u)) || u in s.dropped)
    && (Succeeding(s, u) ==> u in creds || u in s.dropped)
  }

  predicate Undeleted(db: Db, u: Id) {
    u in db.devices ==> !db.devices[u].deleted
  }

  ghost predicate CredentialsFit(s: Sys) {
    forall u: Id | Undeleted(s.db, u) :: CredentialFits(s, u)
  }

  /** Nothing about the credential of `u` has changed. */
  lemma Unaffected(s: Sys, s': Sys, u: Id)
    requires CredentialFits(s, u)
    requires (u in s'.world.core.creds <==> u in s.world.core.creds)
    requires u in s.world.core.creds ==> s'.world.core.creds[u] == s.world.core.creds[u]
    requires (u in s'.orphans <==> u in s.orphans) && (u in s'.dropped <==> u in s.dropped)
    requires MidFlight(s', u) <==> MidFlight(s, u)
    requires MidFlight(s, u) ==> s'.world.workers[PROVISION].phase == s.world.workers[PROVISION].phase
    requires Succeeding(s', u) ==> Succeeding(s, u)
    requires |s.world.core.rows| <= |s'.world.core.rows|
    requires forall i | 0 <= i < |s.world.core.rows| :: s'.world.core.rows[i].payload == s.world.core.rows[i].payload
    requires Provisioned(s', u) ==> Provisioned(s, u)
    ensures CredentialFits(s', u)
  {
    if u in s.world.core.creds {
      assert ProvisionEnqueued(s, u, s.world.core.creds[u].password);
      assert ProvisionEnqueued(s', u, s.world.core.creds[u].password);
    }
  }

  lemma ProvisionStep(s: Sys, out: Outcome, maxAttempts: nat)
    requires Busy(s.world, PROVISION) && PhaseRank(s.world.workers[PROVISION].phase) > 0
    requires s.world.workers[PROVISION].queue[0].payload.Provision?
    ensures var k, s' := s.world.workers[PROVISION], M.Worked(s, PROVISION, out, maxAttempts);
            var Provision(_, username, password) := k.queue[0].payload;
            var (creds, next) := ProvisionEffect(s.world.core.creds, username, password, k.phase, out);
            && s'.world == World(s.world.core.(creds := creds), s.world.workers[PROVISION := Worker(k.queue, next)])
            && s'.orphans == (if M.Orphaning(s.world.core.creds, username, k.phase, out) then s.orphans + {username} else s.orphans)
            && s'.dropped == if M.Dropping(k.phase, out) then s.dropped + {username}
                             else if M.Creating(s.world.core.creds, username, k.phase, out) then s.dropped - {username}
                             else s.dropped
  {
  }

  lemma UnreadableStep(s: Sys, out: Outcome, maxAttempts: nat)
    requires Busy(s.world, PROVISION) && PhaseRank(s.world.workers[PROVISION].phase) > 0
    requires s.world.workers[PROVISION].queue[0].payload.Unreadable?
    ensures var k, s' := s.world.workers[PROVISION], M.Worked(s, PROVISION, out, maxAttempts);
            && s'.world == World(s.world.core, s.world.workers[PROVISION := Worker(k.queue, Errored)])
            && s'.orphans == s.orphans && s'.dropped == s.dropped
  {
  }

  /** The worker's call on behalf of `u` itself. */
  lemma OwnCall(s: Sys, s': Sys, u: Id, password: string, out: Outcome)
    requires CredentialFits(s, u) && ProvisionEnqueued(s, u, password) && !Provisioned(s, u)
    requires Busy(s.world, PROVISION) && PhaseRank(s.world.workers[PROVISION].phase) > 0
    requires s.world.workers[PROVISION].queue[0].payload == Provision(u, u, password)
    requires var k := s.world.workers[PROVISION];
             var (creds, next) := ProvisionEffect(s.world.core.creds, u, password, k.phase, out);
             && s'.world == World(s.world.core.(creds := creds), s.world.workers[PROVISION := Worker(k.queue, next)])
             && s'.orphans == (if M.Orphaning(s.world.core.creds, u, k.phase, out) then s.orphans + {u} else s.orphans)
             && s'.dropped == if M.Dropping(k.phase, out) then s.dropped + {u}
                              else if M.Creating(s.world.core.creds, u, k.phase, out) then s.dropped - {u}
                              else s.dropped
    ensures CredentialFits(s', u)
  {
    assert Provisioned(s', u) <==> Provisioned(s, u);
    assert forall p :: ProvisionEnqueued(s, u, p) <==> ProvisionEnqueued(s', u, p);
  }

  /** A device whose provision event is being delivered has no completed one. */
  lemma NotYetProvisioned(s: Sys, u: Id)
    requires CredentialsAgree(s.db, M.Log(s)) && C.QueuesFit(s) && Busy(s.world, PROVISION)
    requires var p := s.world.workers[PROVISION].queue[0].payload; p.Provision? && p.username == u
    ensures !Provisioned(s, u)
  {
    var e, rows, log := s.world.workers[PROVISION].queue[0], s.world.core.rows, M.Log(s);
    assert C.QueueFits(rows, PROVISION, s.world.workers[PROVISION].queue);
    forall i | 0 <= i < |rows| && rows[i].payload.Provision? && rows[i].payload.username == u ensures i == e.id {
      assert log[i] in log && log[e.id] in log;
      assert log[i].device == log[e.id].device;
    }
  }

  /** The worker's call on behalf of another device. */
  lemma CallForOther(s: Sys, out: Outcome, maxAttempts: nat, u: Id)
    requires CredentialFits(s, u) && Busy(s.world, PROVISION) && PhaseRank(s.world.workers[PROVISION].phase) > 0
    requires var p := s.world.workers[PROVISION].queue[0].payload; p.Provision? && p.username != u
    ensures CredentialFits(M.Worked(s, PROVISION, out, maxAttempts), u)
  {
    var s' := M.Worked(s, PROVISION, out, maxAttempts);
    ProvisionStep(s, out, maxAttempts);
    assert Provisioned(s', u) <==> Provisioned(s, u);
    Unaffected(s, s', u);
  }

  lemma UnreadableCall(s: Sys, out: Outcome, maxAttempts: nat, u: Id)
    requires CredentialFits(s, u) && Busy(s.world, PROVISION) && PhaseRank(s.world.workers[PROVISION].phase) > 0
    requires s.world.workers[PROVISION].queue[0].payload.Unreadable?
    ensures CredentialFits(M.Worked(s, PROVISION, out, maxAttempts), u)
  {
    var s' := M.Worked(s, PROVISION, out, maxAttempts);
    UnreadableStep(s, out, maxAttempts);
    assert Provisioned(s', u) <==> Provisioned(s, u);
    Unaffected(s, s', u);
  }

  lemma CallForOwn(s: Sys, out: Outcome, maxAttempts: nat, u: Id)
    requires CredentialsAgree(s.db, M.Log(s)) && C.QueuesFit(s) && CredentialFits(s, u)
    requires Busy(s.world, PROVISION) && PhaseRank(s.world.workers[PROVISION].phase) > 0
    requires var p := s.world.workers[PROVISION].queue[0].payload; p.Provision? && p.username == u
    ensures CredentialFits(M.Worked(s, PROVISION, out, maxAttempts), u)
  {
    var e := s.world.workers[PROVISION].queue[0];
    assert C.QueueFits(s.world.core.rows, PROVISION, s.world.workers[PROVISION].queue);
    assert M.Log(s)[e.id] == e.payload && e.payload in M.Log(s);
    assert s.world.core.rows[e.id].payload == Provision(u, u, e.payload.password);
    NotYetProvisioned(s, u);
    ProvisionStep(s, out, maxAttempts);
    OwnCall(s, M.Worked(s, PROVISION, out, maxAttempts), u, e.payload.password, out);
  }

  lemma ProvisionCall(s: Sys, out: Outcome, maxAttempts: nat, u: Id)
    requires CredentialsAgree(s.db, M.Log(s)) && C.QueuesFit(s) && CredentialFits(s, u)
    requires Busy(s.world, PROVISION) && PhaseRank(s.world.workers[PROVISION].phase) > 0
    ensures CredentialFits(M.Worked(s, PROVISION, out, maxAttempts), u)
  {
    var e := s.world.workers[PROVISION].queue[0];
    assert C.QueueFits(s.world.core.rows, PROVISION, s.world.workers[PROVISION].queue);
    if !e.payload.Provision? {
      UnreadableCall(s, out, maxAttempts, u);
    } else if e.payload.username != u {
      CallForOther(s, out, maxAttempts, u);
    } else {
      CallForOwn(s, out, maxAttempts, u);
    }
  }

  /** A row write that completes no provisioning row of `u` leaves `u` as unprovisioned as it was. */
  lemma ProvisionedBefore(s: Sys, s': Sys, id: nat, u: Id)
    requires |s'.world.core.rows| == |s.world.core.rows|
    requires forall i | 0 <= i < |s.world.core.rows| && i != id :: s'.world.core.rows[i] == s.world.core.rows[i]
    requires id < |s.world.core.rows|
    requires var r := s'.world.core.rows[id]; !(r.payload.Provision? && r.payload.username == u && r.status == Completed)
    requires Provisioned(s', u)
    ensures Provisioned(s, u)
  {
    var rows, rows' := s.world.core.rows, s'.world.core.rows;
    var i :| 0 <= i < |rows'| && rows'[i].status == Completed && rows'[i].payload.Provision? && rows'[i].payload.username == u;
    assert rows[i] == rows'[i];
  }

  lemma ProvisionSettles(s: Sys, s': Sys, u: Id)
    requires C.QueuesFit(s) && CredentialFits(s, u) && C.RowWritten(s, s', PROVISION)
    requires PhaseRank(s.world.workers[PROVISION].phase) == 0
    requires s'.world.core.creds == s.world.core.creds && s'.orphans == s.orphans && s'.dropped == s.dropped
    requires var e := s.world.workers[PROVISION].queue[0];
             s'.world.core.rows[e.id].status == Completed ==> Succeeding(s, u) || e.payload.Unreadable? || e.payload.username != u
    ensures CredentialFits(s', u)
  {
    var e := s.world.workers[PROVISION].queue[0];
    var rows, rows' := s.world.core.rows, s'.world.core.rows;
    assert C.QueueFits(rows, PROVISION, s.world.workers[PROVISION].queue);
    if Provisioned(s', u) && !(rows[e.id].payload.Provision? && rows[e.id].payload.username == u && rows'[e.id].status == Completed) {
      ProvisionedBefore(s, s', e.id, u);
    }
    if u in s.world.core.creds {
      assert ProvisionEnqueued(s, u, s.world.core.creds[u].password);
      assert ProvisionEnqueued(s', u, s.world.core.creds[u].password);
    }
  }

  lemma WrittenElsewhere(s: Sys, s': Sys, t: string)
    requires C.QueuesFit(s) && C.RowWritten(s, s', t) && t != PROVISION
    ensures SameProvisioner(s, s')
    ensures var e := s.world.workers[t].queue[0]; e.id < |s'.world.core.rows| && !s'.world.core.rows[e.id].payload.Provision?
  {
    assert C.QueueFits(s.world.core.rows, t, s.world.workers[t].queue);
  }

  /** Another worker's row write completes no provisioning row. */
  lemma OtherSettles(s: Sys, s': Sys, t: string, u: Id)
    requires C.QueuesFit(s) && CredentialFits(s, u) && C.RowWritten(s, s', t) && t != PROVISION
    requires s'.world.core.creds == s.world.core.creds && s'.orphans == s.orphans && s'.dropped == s.dropped
    ensures CredentialFits(s', u)
  {
    var rows, rows' := s.world.core.rows, s'.world.core.rows;
    WrittenElsewhere(s, s', t);
    SameFlight(s, s', u);
    if Provisioned(s', u) {
      ProvisionedBefore(s, s', s.world.workers[t].queue[0].id, u);
    }
    assert forall i | 0 <= i < |rows| :: rows'[i].payload == rows[i].payload;
    Unaffected(s, s', u);
  }

  lemma PushCallEffect(s: Sys, t: string, out: Outcome, maxAttempts: nat)
    requires Busy(s.world, t) && PhaseRank(s.world.workers[t].phase) > 0
    requires !s.world.workers[t].queue[0].payload.Provision?
    ensures var s' := M.Worked(s, t, out, maxAttempts);
            && s'.world.core.rows == s.world.core.rows && s'.world.core.creds == s.world.core.creds
            && s'.orphans == s.orphans && s'.dropped == s.dropped
            && t in s'.world.workers && s'.world.workers == s.world.workers[t := s'.world.workers[t]]
  {
  }

  /** The provisioning worker is where it was. */
  predicate SameProvisioner(s: Sys, s': Sys) {
    && (PROVISION in s'.world.workers <==> PROVISION in s.world.workers)
    && (PROVISION in s.world.workers ==> s'.world.workers[PROVISION] == s.world.workers[PROVISION])
  }

  lemma SameFlight(s: Sys, s': Sys, u: Id)
    requires SameProvisioner(s, s')
    ensures (MidFlight(s', u) <==> MidFlight(s, u)) && (Succeeding(s', u) <==> Succeeding(s, u))
    ensures MidFlight(s, u) ==> s'.world.workers[PROVISION].phase == s.world.workers[PROVISION].phase
  {
  }

  lemma OtherCalls(s: Sys, t: string, out: Outcome, maxAttempts: nat, u: Id)
    requires C.QueuesFit(s) && CredentialFits(s, u) && t != PROVISION
    requires Busy(s.world, t) && PhaseRank(s.world.workers[t].phase) > 0
    ensures CredentialFits(M.Worked(s, t, out, maxAttempts), u)
  {
    var s' := M.Worked(s, t, out, maxAttempts);
    assert C.QueueFits(s.world.core.rows, t, s.world.workers[t].queue);
    PushCallEffect(s, t, out, maxAttempts);
    SameFlight(s, s', u);
    assert Provisioned(s', u) <==> Provisioned(s, u);
    Unaffected(s, s', u);
  }

  lemma WorkKeepsCredentials(s: Sys, t: string, out: Outcome, maxAttempts: nat, u: Id)
    requires C.Invariant(s) && CredentialFits(s, u) && Busy(s.world, t)
    ensures CredentialFits(M.Worked(s, t, out, maxAttempts), u)
  {
    if PhaseRank(s.world.workers[t].phase) > 0 {
      if t == PROVISION {
        ProvisionCall(s, out, maxAttempts, u);
      } else {
        OtherCalls(s, t, out, maxAttempts, u);
      }
    } else {
      C.SettleSummary(s, t, out, maxAttempts);
      SettleCredentials(s, t, out, maxAttempts);
      if t == PROVISION {
        ProvisionSettles(s, M.Worked(s, t, out, maxAttempts), u);
      } else {
        OtherSettles(s, M.Worked(s, t, out, maxAttempts), t, u);
      }
    }
  }

  lemma SettleCredentials(s: Sys, t: string, out: Outcome, maxAttempts: nat)
    requires C.QueuesFit(s) && Busy(s.world, t) && PhaseRank(s.world.workers[t].phase) == 0
    ensures var s', e := M.Worked(s, t, out, maxAttempts), s.world.workers[t].queue[0];
            && s'.world.core.creds == s.world.core.creds && s'.orphans == s.orphans && s'.dropped == s.dropped
            && e.id < |s.world.core.rows|
            && (s'.world.core.rows[e.id].status == Completed ==> s.world.workers[t].phase == Succeeded)
  {
    assert C.QueueFits(s.world.core.rows, t, s.world.workers[t].queue);
    C.SettledRow(s, t, out, maxAttempts);
  }

  lemma ClaimKeepsCredentials(s: Sys, batch: seq<nat>, u: Id)
    requires CredentialFits(s, u) && M.Enabled(s, M.Claim(batch))
    ensures CredentialFits(M.Ticked(s, batch), u)
  {
    var s' := M.Ticked(s, batch);
    var rows, rows' := s.world.core.rows, s'.world.core.rows;
    if Provisioned(s', u) {
      var i :| 0 <= i < |rows'| && rows'[i].status == Completed && rows'[i].payload.Provision? && rows'[i].payload.username == u;
      assert rows[i] == rows'[i];
      assert Provisioned(s, u);
    }
    Unaffected(s, s', u);
  }

  lemma CredsOfOthers(db: Db, log: seq<Payload>, r: Request, creds: map<string, Credential>, detach: Call, remove: Call, u: Id)
    requires CredentialsAgree(db, log) && Undeleted(Handle(db, r).0, u)
    ensures var creds' := M.CredsAfter(db, r, creds, detach, remove);
            (u in creds' <==> u in creds) && (u in creds ==> creds'[u] == creds[u])
  {
    if r.DeviceDeletion? && Owned(db, r.device, r.user) && db.devices[r.device].username.Some? {
      assert Provision(r.device, db.devices[r.device].username.value, db.devices[r.device].password.value) in log;
      assert db.devices[r.device].username.value == r.device;
      assert Handle(db, r).0.devices[r.device].deleted;
    }
  }

  lemma ServedRows(s: Sys, r: Request, detach: Call, remove: Call, u: Id)
    ensures var rows, rows' := s.world.core.rows, M.Served(s, r, detach, remove).world.core.rows;
            |rows| <= |rows'| && forall i | 0 <= i < |rows| :: rows'[i] == rows[i]
    ensures Provisioned(M.Served(s, r, detach, remove), u) ==> Provisioned(s, u)
    ensures SameProvisioner(s, M.Served(s, r, detach, remove))
  {
    var s' := M.Served(s, r, detach, remove);
    var rows, rows' := s.world.core.rows, s'.world.core.rows;
    assert forall i | |rows| <= i < |rows'| :: rows'[i].status == Pending;
    if Provisioned(s', u) {
      var i :| 0 <= i < |rows'| && rows'[i].status == Completed && rows'[i].payload.Provision? && rows'[i].payload.username == u;
      assert rows[i] == rows'[i];
    }
  }

  lemma ServeKeepsCredentials(s: Sys, r: Request, detach: Call, remove: Call, u: Id)
    requires CredentialsAgree(s.db, M.Log(s)) && CredentialFits(s, u)
    requires Undeleted(Handle(s.db, r).0, u)
    ensures CredentialFits(M.Served(s, r, detach, remove), u)
  {
    var s' := M.Served(s, r, detach, remove);
    CredsOfOthers(s.db, M.Log(s), r, s.world.core.creds, detach, remove, u);
    ServedRows(s, r, detach, remove, u);
    SameFlight(s, s', u);
    Unaffected(s, s', u);
  }

  lemma StepKeepsCredentials(s: Sys, step: M.Step, maxAttempts: nat)
    requires C.Invariant(s) && CredentialsFit(s) && M.Enabled(s, step)
    ensures CredentialsFit(M.Apply(s, step, maxAttempts))
  {
    var s' := M.Apply(s, step, maxAttempts);
    forall u: Id | Undeleted(s'.db, u) ensures CredentialFits(s', u) {
      match step
      case Serve(request, detach, remove) =>
        StaysDeleted(s.db, request, u);
        ServeKeepsCredentials(s, request, detach, remove, u);
      case Wait(time) => Unaffected(s, s', u);
      case Claim(batch) => ClaimKeepsCredentials(s, batch, u);
      case Work(t, out) =>
        assert s'.db == s.db;
        WorkKeepsCredentials(s, t, out, maxAttempts, u);
    }
  }

  lemma StaysDeleted(db: Db, r: Request, u: Id)
    requires Undeleted(Handle(db, r).0, u)
    ensures Undeleted(db, u)
  {
  }

  lemma {:induction false} RunKeepsCredentials(s: Sys, steps: seq<M.Step>, maxAttempts: nat)
    requires C.Invariant(s) && CredentialsFit(s) && M.CanRun(s, steps, maxAttempts)
    ensures CredentialsFit(M.Exec(s, steps, maxAttempts))
    decreases |steps|
  {
    if steps != [] {
      StepKeepsCredentials(s, steps[0], maxAttempts);
      C.StepKeepsInvariant(s, steps[0], maxAttempts);
      RunKeepsCredentials(M.Apply(s, steps[0], maxAttempts), steps[1..], maxAttempts);
    }
  }

  /**
   * Once the provision event of a device that is not deleted is completed, however often it was delivered, the
   * broker holds the stored password with the role attached if and only if none of these calls was made for it:
   * a create that reported an error after it had taken effect; an attach and a compensating delete neither of
   * which took effect; and, since the last create that took effect, a compensating delete after an attach
   * refused with 409.
   */
  lemma ProvisionedCredential(s: Sys, i: nat, maxAttempts: nat)
    requires M.Reachable(s, maxAttempts) && i < |s.world.core.rows|
    requires s.world.core.rows[i].payload.Provision? && s.world.core.rows[i].status == Completed
    requires s.world.core.rows[i].payload.device in s.db.devices && !s.db.devices[s.world.core.rows[i].payload.device].deleted
    ensures var d := s.world.core.rows[i].payload.device;
            && s.db.devices[d].username == Some(d) && s.db.devices[d].password.Some?
            && ((d in s.world.core.creds && s.world.core.creds[d] == Credential(s.db.devices[d].password.value, true))
                <==> d !in s.orphans && d !in s.dropped)
            && (d in s.world.core.creds <==> d !in s.dropped)
  {
    ReachableCredentials(s, maxAttempts);
    var d := s.world.core.rows[i].payload.device;
    assert M.Log(s)[i] in M.Log(s);
    assert CredentialFits(s, d) && Provisioned(s, d);
    if d in s.world.core.creds {
      var password := s.world.core.creds[d].password;
      assert ProvisionEnqueued(s, d, password);
      var j :| 0 <= j < |s.world.core.rows| && s.world.core.rows[j].payload == Provision(d, d, password);
      assert M.Log(s)[j] in M.Log(s);
    }
  }

  /**
   * The answer to a device: it is unknown exactly if it does not exist or is deleted; and a ready one is told its
   * own id and the password of its provision event, which is completed or dead. If it is completed, the broker
   * accepts exactly these credentials, with the role, under the conditions on the broker calls.
   */
  lemma ReadyAnswer(s: Sys, device: Id, maxAttempts: nat) returns (i: nat)
    requires M.Reachable(s, maxAttempts)
    ensures ActivationStatus(s.db, s.world.core.rows, device) == Unknown <==> device !in s.db.devices || s.db.devices[device].deleted
    ensures match ActivationStatus(s.db, s.world.core.rows, device)
            case Ready(username, password) =>
              && username == device && s.db.devices[device].username == Some(username) && s.db.devices[device].password == Some(password)
              && i < |s.world.core.rows| && s.world.core.rows[i].payload == Provision(device, username, password)
              && M.Over(s.world.core.rows[i])
              && (s.world.core.rows[i].status == Completed ==>
                    ((username in s.world.core.creds && s.world.core.creds[username] == Credential(password, true))
                     <==> device !in s.orphans && device !in s.dropped))
            case _ => true
  {
    i := 0;
    ReadyIff(s, device, maxAttempts);
    if ActivationStatus(s.db, s.world.core.rows, device).Ready? {
      ReachableCredentialsAgree(s, maxAttempts);
      var d := s.db.devices[device];
      i :| 0 <= i < |M.Log(s)| && M.Log(s)[i] == Provision(device, d.username.value, d.password.value);
      assert M.Log(s)[i] in M.Log(s);
      assert s.world.core.rows[i].payload.device == device;
      if s.world.core.rows[i].status == Completed {
        ProvisionedCredential(s, i, maxAttempts);
      }
    }
  }

  lemma ReachableCredentials(s: Sys, maxAttempts: nat)
    requires M.Reachable(s, maxAttempts)
    ensures CredentialsAgree(s.db, M.Log(s))
    ensures forall u: Id | Undeleted(s.db, u) :: CredentialFits(s, u)
  {
    var steps :| M.CanRun(M.INITIAL, steps, maxAttempts) && M.Exec(M.INITIAL, steps, maxAttempts) == s;
    InitialFits();
    RunKeepsCredentials(M.INITIAL, steps, maxAttempts);
    C.ReachableInvariant(s, maxAttempts);
  }

  lemma InitialFits()
    ensures C.Invariant(M.INITIAL) && CredentialsFit(M.INITIAL)
  {
    C.InitialInvariant();
    C.InitialWorkers();
  }

  /**
   * When an attempt leaves a credential behind without its role: it was there without its role before, or
   * the create took effect although it reported an error, or the attach and the compensating delete both
   * failed without taking effect.
   */
  lemma WhenOrphaned(c: Core, device: Id, username: string, password: string, out: Outcome)
    ensures var c' := Attempt(c, Provision(device, username, password), Start, out).0;
            (username in c'.creds && !c'.creds[username].role)
            <==> if username in c.creds then !c.creds[username].role
                 else out.create == Failed(true)
                      || (out.create == Accepted && out.attach == Failed(false) && out.undo == Failed(false))
  {
  }

  /**
   * An attempt is taken for a success although no credential is left exactly when there was none, the create
   * was accepted, attaching the role was refused with 409, and the compensating delete took effect.
   */
  lemma WhenDropped(c: Core, device: Id, username: string, password: string, out: Outcome)
    ensures var (c', succeeded) := Attempt(c, Provision(device, username, password), Start, out);
            (succeeded && username !in c'.creds)
            <==> username !in c.creds && out.create == Accepted && !out.attach.Accepted? && out.conflict && TakesEffect(out.undo)
  {
  }
}
