/**
 * From a request to the broker: after an accepted request, and until the next one about the same thing, what its
 * topic holds once it is delivered and up to date is what the request asked for.
 */
module EndToEnd {
  import opened Wrappers
  import opened Calls
  import opened Events
  import opened Addressing
  import opened Outbox
  import opened Delivery
  import opened Tables
  import opened RequestLaws
  import M = SystemMachine
  import C = Convergence
  import R = Readiness
  import T = ClearedTopics

  type Sys = M.Sys

  // ---- What requests leave alone ----------------------------------------------------------------

  predicate AboutTrigger(r: Request, id: Id) {
    (r.TriggerUpdate? || r.TriggerDeletion?) && r.id == id
  }

  predicate AboutPeripheral(r: Request, id: Id) {
    r.Removal? && r.id == id
  }

  predicate Occupies(r: Request, device: Id, kind: string, pin: nat) {
    r.Registration? && r.device == device && r.kind == kind && r.port.pin == pin
  }

  predicate AboutTimezone(r: Request, user: Id) {
    r.TimezoneChange? && r.user == user
  }

  lemma RequestLeavesTrigger(db: Db, r: Request, id: Id)
    requires id in db.triggers && !AboutTrigger(r, id)
    ensures id in Handle(db, r).0.triggers && Handle(db, r).0.triggers[id] == db.triggers[id]
  {
  }

  lemma RequestLeavesPeripheral(db: Db, r: Request, id: Id)
    requires id in db.peripherals && !AboutPeripheral(r, id)
    ensures id in Handle(db, r).0.peripherals && Handle(db, r).0.peripherals[id] == db.peripherals[id]
  {
  }

  lemma RequestLeavesVacant(db: Db, r: Request, device: Id, kind: string, pin: nat)
    requires (forall id :: !C.Occupant(db, id, device, kind, pin)) && !Occupies(r, device, kind, pin)
    ensures forall id :: !C.Occupant(Handle(db, r).0, id, device, kind, pin)
  {
    forall id ensures !C.Occupant(Handle(db, r).0, id, device, kind, pin) {
      assert !C.Occupant(db, id, device, kind, pin);
    }
  }

  lemma RequestLeavesTimezone(db: Db, r: Request, user: Id)
    requires user in db.timezones && !AboutTimezone(r, user)
    ensures user in Handle(db, r).0.timezones && Handle(db, r).0.timezones[user] == db.timezones[user]
  {
  }

  /** The credentials stored by an activation are never changed. */
  lemma RequestLeavesCredentials(db: Db, r: Request, device: Id)
    requires device in db.devices && db.devices[device].username.Some?
    ensures var db' := Handle(db, r).0;
            device in db'.devices && db'.devices[device].(deleted := db.devices[device].deleted) == db.devices[device]
  {
  }

  lemma StepDb(s: Sys, step: M.Step, maxAttempts: nat)
    requires M.Enabled(s, step)
    ensures M.Apply(s, step, maxAttempts).db == if step.Serve? then Handle(s.db, step.request).0 else s.db
  {
  }

  // ---- ... and over runs ------------------------------------------------------------------------

  lemma {:induction false} RunLeavesTrigger(s: Sys, steps: seq<M.Step>, maxAttempts: nat, id: Id)
    requires M.CanRun(s, steps, maxAttempts) && id in s.db.triggers
    requires forall k | 0 <= k < |steps| && steps[k].Serve? :: !AboutTrigger(steps[k].request, id)
    ensures var db' := M.Exec(s, steps, maxAttempts).db; id in db'.triggers && db'.triggers[id] == s.db.triggers[id]
    decreases |steps|
  {
    if steps != [] {
      StepDb(s, steps[0], maxAttempts);
      if steps[0].Serve? {
        RequestLeavesTrigger(s.db, steps[0].request, id);
      }
      RunLeavesTrigger(M.Apply(s, steps[0], maxAttempts), steps[1..], maxAttempts, id);
    }
  }

  lemma {:induction false} RunLeavesPeripheral(s: Sys, steps: seq<M.Step>, maxAttempts: nat, id: Id)
    requires M.CanRun(s, steps, maxAttempts) && id in s.db.peripherals
    requires forall k | 0 <= k < |steps| && steps[k].Serve? :: !AboutPeripheral(steps[k].request, id)
    ensures var db' := M.Exec(s, steps, maxAttempts).db; id in db'.peripherals && db'.peripherals[id] == s.db.peripherals[id]
    decreases |steps|
  {
    if steps != [] {
      StepDb(s, steps[0], maxAttempts);
      if steps[0].Serve? {
        RequestLeavesPeripheral(s.db, steps[0].request, id);
      }
      RunLeavesPeripheral(M.Apply(s, steps[0], maxAttempts), steps[1..], maxAttempts, id);
    }
  }

  lemma {:induction false} RunLeavesVacant(s: Sys, steps: seq<M.Step>, maxAttempts: nat, device: Id, kind: string, pin: nat)
    requires M.CanRun(s, steps, maxAttempts) && forall id :: !C.Occupant(s.db, id, device, kind, pin)
    requires forall k | 0 <= k < |steps| && steps[k].Serve? :: !Occupies(steps[k].request, device, kind, pin)
    ensures forall id :: !C.Occupant(M.Exec(s, steps, maxAttempts).db, id, device, kind, pin)
    decreases |steps|
  {
    if steps != [] {
      StepDb(s, steps[0], maxAttempts);
      if steps[0].Serve? {
        RequestLeavesVacant(s.db, steps[0].request, device, kind, pin);
      }
      RunLeavesVacant(M.Apply(s, steps[0], maxAttempts), steps[1..], maxAttempts, device, kind, pin);
    }
  }

  lemma {:induction false} RunLeavesTimezone(s: Sys, steps: seq<M.Step>, maxAttempts: nat, user: Id)
    requires M.CanRun(s, steps, maxAttempts) && user in s.db.timezones
    requires forall k | 0 <= k < |steps| && steps[k].Serve? :: !AboutTimezone(steps[k].request, user)
    ensures var db' := M.Exec(s, steps, maxAttempts).db; user in db'.timezones && db'.timezones[user] == s.db.timezones[user]
    decreases |steps|
  {
    if steps != [] {
      StepDb(s, steps[0], maxAttempts);
      if steps[0].Serve? {
        RequestLeavesTimezone(s.db, steps[0].request, user);
      }
      RunLeavesTimezone(M.Apply(s, steps[0], maxAttempts), steps[1..], maxAttempts, user);
    }
  }

  lemma {:induction false} RunLeavesCredentials(s: Sys, steps: seq<M.Step>, maxAttempts: nat, device: Id)
    requires M.CanRun(s, steps, maxAttempts) && device in s.db.devices && s.db.devices[device].username.Some?
    ensures var db' := M.Exec(s, steps, maxAttempts).db;
            device in db'.devices && db'.devices[device].username == s.db.devices[device].username
            && db'.devices[device].password == s.db.devices[device].password
    decreases |steps|
  {
    if steps != [] {
      StepDb(s, steps[0], maxAttempts);
      if steps[0].Serve? {
        RequestLeavesCredentials(s.db, steps[0].request, device);
      }
      RunLeavesCredentials(M.Apply(s, steps[0], maxAttempts), steps[1..], maxAttempts, device);
    }
  }

  /** The request is served in a reachable state, and the run goes on from there to `s'`. */
  ghost predicate ThenRuns(s: Sys, r: Request, steps: seq<M.Step>, s': Sys, maxAttempts: nat) {
    && M.Reachable(s, maxAttempts) && Faithful(s.db, r)
    && exists detach: Call, remove: Call ::
         M.CanRun(M.Served(s, r, detach, remove), steps, maxAttempts) && M.Exec(M.Served(s, r, detach, remove), steps, maxAttempts) == s'
  }

  lemma ThenReaches(s: Sys, r: Request, steps: seq<M.Step>, s': Sys, maxAttempts: nat) returns (s1: Sys)
    requires ThenRuns(s, r, steps, s', maxAttempts)
    ensures s1.db == Handle(s.db, r).0 && M.CanRun(s1, steps, maxAttempts) && M.Exec(s1, steps, maxAttempts) == s'
    ensures M.Log(s1) == M.Log(s) + Handle(s.db, r).1
    ensures M.Reachable(s1, maxAttempts) && M.Reachable(s', maxAttempts)
  {
    var detach: Call, remove: Call :|
      M.CanRun(M.Served(s, r, detach, remove), steps, maxAttempts) && M.Exec(M.Served(s, r, detach, remove), steps, maxAttempts) == s';
    s1 := M.Served(s, r, detach, remove);
    M.ReachableNext(s, M.Serve(r, detach, remove), maxAttempts);
    C.ServedLog(s, r, detach, remove);
    M.ReachableRun(s1, steps, maxAttempts);
  }

  lemma {:induction false} RunExtendsLog(s: Sys, steps: seq<M.Step>, maxAttempts: nat)
    requires M.Reachable(s, maxAttempts) && M.CanRun(s, steps, maxAttempts)
    ensures M.Log(s) <= M.Log(M.Exec(s, steps, maxAttempts))
    decreases |steps|
  {
    if steps != [] {
      C.ReachableInvariant(s, maxAttempts);
      C.StepExtendsLog(s, steps[0], maxAttempts);
      M.ReachableNext(s, steps[0], maxAttempts);
      RunExtendsLog(M.Apply(s, steps[0], maxAttempts), steps[1..], maxAttempts);
    }
  }

  // ---- Triggers ---------------------------------------------------------------------------------

  /** The topic holds the upsert of these fields. */
  predicate HoldsUpsert(s: Sys, device: Id, id: Id, enabled: bool, condition: string, actions: seq<Action>, cooldown: int) {
    var topic := TriggerTopic(device, id);
    && topic in s.world.core.retained
    && s.world.core.retained[topic] == TriggerUpsert(id, TriggerBody(enabled, condition, actions, cooldown))
  }

  /** A created trigger reaches its device enabled, with the given condition, cooldown and actions. */
  lemma CreationArrives(s: Sys, r: Request, steps: seq<M.Step>, s': Sys, maxAttempts: nat) returns (actions: seq<Action>)
    requires r.TriggerCreation? && r.device in s.db.devices && r.id !in s.db.triggers
    requires forall k | 0 <= k < |r.actions| :: Acceptable(s.db, r.user, r.device, r.actions[k])
    requires ThenRuns(s, r, steps, s', maxAttempts)
    requires forall k | 0 <= k < |steps| && steps[k].Serve? :: !AboutTrigger(steps[k].request, r.id)
    requires C.Delivered(s', TriggerTopic(r.device, r.id))
    ensures AllComplete(s.db, r.device, r.actions, actions)
    ensures C.UpToDate(s', TriggerTopic(r.device, r.id)) <==> HoldsUpsert(s', r.device, r.id, true, r.condition, actions, r.cooldown)
  {
    CreationLaw(s.db, r.device, r.user, r.name, r.condition, r.actions, r.cooldown, r.id);
    var s1 := ThenReaches(s, r, steps, s', maxAttempts);
    RunLeavesTrigger(s1, steps, maxAttempts, r.id);
    C.TriggersConverge(s', r.id, maxAttempts);
    actions := s1.db.triggers[r.id].actions;
  }

  /** An updated trigger reaches its device with the patch's fields, and the stored ones where the patch gives none. */
  lemma UpdateArrives(s: Sys, r: Request, steps: seq<M.Step>, s': Sys, maxAttempts: nat) returns (t: Trigger)
    requires r.TriggerUpdate? && Holds(s.db, r.user, r.device)
    requires r.id in s.db.triggers && s.db.triggers[r.id].device == r.device && !s.db.triggers[r.id].deleted
    requires r.patch.actions.Some? ==>
               forall k | 0 <= k < |r.patch.actions.value| :: Acceptable(s.db, r.user, r.device, r.patch.actions.value[k])
    requires ThenRuns(s, r, steps, s', maxAttempts)
    requires forall k | 0 <= k < |steps| && steps[k].Serve? :: !AboutTrigger(steps[k].request, r.id)
    requires C.Delivered(s', TriggerTopic(r.device, r.id))
    ensures Merges(s.db, s.db.triggers[r.id].(actions := r.hydrated), r.patch, t)
    ensures C.UpToDate(s', TriggerTopic(r.device, r.id)) <==> HoldsUpsert(s', r.device, r.id, t.enabled, t.condition, t.actions, t.cooldown)
  {
    UpdateLaw(s.db, r.device, r.user, r.id, r.patch, r.hydrated);
    var s1 := ThenReaches(s, r, steps, s', maxAttempts);
    RunLeavesTrigger(s1, steps, maxAttempts, r.id);
    C.TriggersConverge(s', r.id, maxAttempts);
    t := s1.db.triggers[r.id];
  }

  /** A deleted trigger is gone from its topic for good, except for the delete message if the clearing call failed. */
  lemma DeletionArrives(s: Sys, r: Request, steps: seq<M.Step>, s': Sys, maxAttempts: nat)
    requires r.TriggerDeletion? && Holds(s.db, r.user, r.device)
    requires r.id in s.db.triggers && s.db.triggers[r.id].device == r.device && !s.db.triggers[r.id].deleted
    requires ThenRuns(s, r, steps, s', maxAttempts)
    requires forall k | 0 <= k < |steps| && steps[k].Serve? :: !AboutTrigger(steps[k].request, r.id)
    requires C.Delivered(s', TriggerTopic(r.device, r.id)) && C.UpToDate(s', TriggerTopic(r.device, r.id))
    ensures var topic := TriggerTopic(r.device, r.id);
            && topic in s'.cleared
            && (topic !in s'.world.core.retained <==> s'.cleared[topic])
            && (topic in s'.world.core.retained ==> s'.world.core.retained[topic] == TriggerDelete(r.id))
  {
    TriggerDeletionLaw(s.db, r.device, r.user, r.id);
    var s1 := ThenReaches(s, r, steps, s', maxAttempts);
    RunLeavesTrigger(s1, steps, maxAttempts, r.id);
    T.DeletedTriggerCleared(s', r.id, maxAttempts);
  }

  // ---- Peripherals ------------------------------------------------------------------------------

  predicate HoldsPeripheral(s: Sys, device: Id, kind: string, pin: nat, placement: Option<Placement>) {
    var topic := PeripheralTopic(device, KindPin(kind, pin));
    topic in s.world.core.retained && s.world.core.retained[topic] == PeripheralMessage(device, KindPin(kind, pin), placement)
  }

  /** A registered peripheral reaches its device with the given kind, pin and purpose. */
  lemma RegistrationArrives(s: Sys, r: Request, steps: seq<M.Step>, s': Sys, maxAttempts: nat)
    requires r.Registration?
    requires Register(s.db, r.device, r.user, r.name, r.kind, r.category, r.purpose, r.port, r.id).Commit?
    requires ThenRuns(s, r, steps, s', maxAttempts)
    requires forall k | 0 <= k < |steps| && steps[k].Serve? :: !AboutPeripheral(steps[k].request, r.id)
    requires C.Delivered(s', PeripheralTopic(r.device, KindPin(r.kind, r.port.pin)))
    ensures C.UpToDate(s', PeripheralTopic(r.device, KindPin(r.kind, r.port.pin)))
       <==> HoldsPeripheral(s', r.device, r.kind, r.port.pin, Some(Placement(r.kind, r.port.pin, r.purpose)))
  {
    RegistrationLaw(s.db, r.device, r.user, r.name, r.kind, r.category, r.purpose, r.port, r.id);
    var s1 := ThenReaches(s, r, steps, s', maxAttempts);
    RunLeavesPeripheral(s1, steps, maxAttempts, r.id);
    assert C.Occupant(s'.db, r.id, r.device, r.kind, r.port.pin);
    C.PeripheralsConverge(s', r.device, r.kind, r.port.pin, maxAttempts);
  }

  /** A removed peripheral is replaced by a delete, until another one of its kind is registered on its pin. */
  lemma RemovalArrives(s: Sys, r: Request, steps: seq<M.Step>, s': Sys, kind: string, pin: nat, maxAttempts: nat)
    requires r.Removal? && Holds(s.db, r.user, r.device)
    requires InUse(s.db, r.id) && s.db.peripherals[r.id].device == r.device
    requires s.db.peripherals[r.id].kind == kind && s.db.peripherals[r.id].pin == pin
    requires ThenRuns(s, r, steps, s', maxAttempts)
    requires forall k | 0 <= k < |steps| && steps[k].Serve? :: !Occupies(steps[k].request, r.device, kind, pin)
    requires C.Delivered(s', PeripheralTopic(r.device, KindPin(kind, pin)))
    ensures C.UpToDate(s', PeripheralTopic(r.device, KindPin(kind, pin))) <==> HoldsPeripheral(s', r.device, kind, pin, None)
  {
    RemovalLaw(s.db, r.device, r.user, r.id);
    var s1 := ThenReaches(s, r, steps, s', maxAttempts);
    C.ReachablePeripherals(s, maxAttempts);
    forall id ensures !C.Occupant(s1.db, id, r.device, kind, pin) {
      assert id != r.id && C.Occupant(s1.db, id, r.device, kind, pin) ==> Active(s.db, id) && Active(s.db, r.id);
    }
    RunLeavesVacant(s1, steps, maxAttempts, r.device, kind, pin);
    var topic := PeripheralTopic(r.device, KindPin(kind, pin));
    assert On(M.Log(s1)[|M.Log(s1)| - 1], topic);
    RunExtendsLog(s1, steps, maxAttempts);
    assert On(M.Log(s')[|M.Log(s1)| - 1], topic);
    C.PeripheralsConverge(s', r.device, kind, pin, maxAttempts);
  }

  // ---- Timezones and credentials ----------------------------------------------------------------

  /** The timezone asked for reaches every activated device of the user, also those activated later. */
  lemma TimezoneArrives(s: Sys, r: Request, steps: seq<M.Step>, s': Sys, device: Id, maxAttempts: nat)
    requires r.TimezoneChange? && r.known && r.user in s.db.timezones
    requires ThenRuns(s, r, steps, s', maxAttempts)
    requires forall k | 0 <= k < |steps| && steps[k].Serve? :: !AboutTimezone(steps[k].request, r.user)
    requires device in s'.db.devices && s'.db.devices[device].user == r.user
    requires s'.db.devices[device].username.Some? && !s'.db.devices[device].deleted
    requires C.Delivered(s', ConfigTopic(device))
    ensures C.UpToDate(s', ConfigTopic(device)) <==>
              ConfigTopic(device) in s'.world.core.retained && s'.world.core.retained[ConfigTopic(device)] == ConfigMessage(r.timezone)
  {
    TimezoneLaw(s.db, r.user, r.timezone, r.known, r.listed);
    var s1 := ThenReaches(s, r, steps, s', maxAttempts);
    RunLeavesTimezone(s1, steps, maxAttempts, r.user);
    C.ConfigsConverge(s', device, maxAttempts);
  }

  /** The password of an activation reaches the broker with the role, under the conditions on the broker calls alone. */
  lemma ActivationArrives(s: Sys, r: Request, steps: seq<M.Step>, s': Sys, i: nat, maxAttempts: nat)
    requires r.Activation? && r.device in s.db.devices && s.db.devices[r.device].username == None
    requires ThenRuns(s, r, steps, s', maxAttempts)
    requires r.device in s'.db.devices && !s'.db.devices[r.device].deleted
    requires i < |s'.world.core.rows| && s'.world.core.rows[i].status == Completed
    requires s'.world.core.rows[i].payload.Provision? && s'.world.core.rows[i].payload.device == r.device
    ensures (r.device in s'.world.core.creds && s'.world.core.creds[r.device] == Credential(r.password, true))
       <==> r.device !in s'.orphans && r.device !in s'.dropped
  {
    ActivationLaw(s.db, r.device, r.password);
    var s1 := ThenReaches(s, r, steps, s', maxAttempts);
    RunLeavesCredentials(s1, steps, maxAttempts, r.device);
    R.ProvisionedCredential(s', i, maxAttempts);
  }

  /** A deleted device's credential is revoked exactly if its role could be detached and the delete took effect; others stay. */
  lemma DeviceDeletionRevokes(db: Db, device: Id, user: Id, creds: map<string, Credential>, detach: Call, remove: Call)
    requires Holds(db, user, device) && db.devices[device].username.Some?
    ensures var creds' := M.CredsAfter(db, DeviceDeletion(device, user), creds, detach, remove);
            var username := db.devices[device].username.value;
            && (username !in creds' <==> username !in creds || (detach == Accepted && TakesEffect(remove)))
            && (username in creds' && TakesEffect(detach) ==> !creds'[username].role)
            && (forall other | other != username :: (other in creds' <==> other in creds) && (other in creds ==> creds'[other] == creds[other]))
  {
  }
}
