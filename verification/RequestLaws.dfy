/**
 * What each writer request promises its caller, told by the tables alone: when it is accepted, what it stores and
 * enqueues, what it leaves alone, and why it is refused.
 */
module RequestLaws {
  import opened Wrappers
  import opened Events
  import opened Text
  import opened Tables

  /** A device that exists, belongs to the user and is not deleted. */
  predicate Holds(db: Db, user: Id, device: Id) {
    device in db.devices && db.devices[device].user == user && db.devices[device].deleted == false
  }

  // ---- Actions ----------------------------------------------------------------------------------

  function Reference(a: Action): string {
    if "peripheral_id" in a.config then a.config["peripheral_id"] else ""
  }

  /** The action refers to a peripheral of the device that is an actuator and not deleted. */
  predicate RefersTo(db: Db, device: Id, a: Action, id: Id) {
    && a.kind == "peripheral_action" && Reference(a) == id && id != ""
    && id in db.peripherals && db.peripherals[id].device == device
    && db.peripherals[id].category == "actuator" && db.peripherals[id].deleted == false
  }

  /** `r` is `a` with the kind-pin of its actuator, or `a` itself if it is no peripheral action. */
  predicate Completes(db: Db, device: Id, a: Action, r: Action) {
    if a.kind != "peripheral_action" then r == a
    else
      && '/' !in Reference(a) && RefersTo(db, device, a, Reference(a))
      && r.kind == a.kind
      && r.config.Keys == a.config.Keys + {"peripheral"}
      && r.config["peripheral"] == db.peripherals[Reference(a)].kind + "-" + Decimal(db.peripherals[Reference(a)].pin)
      && forall key | key in a.config && key != "peripheral" :: r.config[key] == a.config[key]
  }

  ghost predicate AllComplete(db: Db, device: Id, actions: seq<Action>, resolved: seq<Action>) {
    |resolved| == |actions| && forall k | 0 <= k < |actions| :: Completes(db, device, actions[k], resolved[k])
  }

  predicate Acceptable(db: Db, user: Id, device: Id, a: Action) {
    a.kind == "peripheral_action" ==>
      Holds(db, user, device) && '/' !in Reference(a) && RefersTo(db, device, a, Reference(a))
  }

  lemma OneAction(db: Db, user: Id, device: Id, a: Action)
    ensures ResolveAction(db, device, user, a).Ok? <==> Acceptable(db, user, device, a)
    ensures ResolveAction(db, device, user, a).Ok? ==> Completes(db, device, a, ResolveAction(db, device, user, a).value)
    ensures ResolveAction(db, device, user, a).Err? ==>
              ResolveAction(db, device, user, a).error ==
                if Reference(a) != "" && !Holds(db, user, device) then DeviceNotFound else InvalidPeripheral
  {
  }

  /** Actions are resolved exactly if each of them is acceptable, and otherwise the first that is not decides. */
  lemma {:induction false} ActionsLaw(db: Db, user: Id, device: Id, actions: seq<Action>)
    ensures var r := ResolveActions(db, device, user, actions);
            && (r.Ok? <==> forall k | 0 <= k < |actions| :: Acceptable(db, user, device, actions[k]))
            && (r.Ok? ==> AllComplete(db, device, actions, r.value))
            && (r.Err? ==> r.error == InvalidPeripheral || r.error == DeviceNotFound)
            && (r.Err? && Holds(db, user, device) ==> r.error == InvalidPeripheral)
  {
    if actions != [] {
      OneAction(db, user, device, actions[0]);
      ActionsLaw(db, user, device, actions[1..]);
      assert forall k | 0 < k < |actions| :: actions[k] == actions[1..][k - 1];
      var r := ResolveActions(db, device, user, actions);
      if r.Ok? {
        assert forall k | 0 < k < |actions| :: r.value[k] == r.value[1..][k - 1];
      }
    }
  }

  // ---- Triggers ---------------------------------------------------------------------------------

  function PushOf(id: Id, t: Trigger): Payload {
    TriggerPush(t.device, id, Some(TriggerBody(t.enabled, t.condition, t.actions, t.cooldown)))
  }

  /** The request writes this trigger and enqueues its push, and writes nothing else. */
  ghost predicate Writes(db: Db, id: Id, t: Trigger, db': Db, events: seq<Payload>) {
    && db'.triggers.Keys == db.triggers.Keys + {id} && db'.triggers[id] == t
    && (forall other | other in db.triggers && other != id :: db'.triggers[other] == db.triggers[other])
    && db'.devices == db.devices && db'.peripherals == db.peripherals && db'.timezones == db.timezones
    && events == [PushOf(id, t)]
  }

  /** A new trigger is enabled and has the given name, condition, cooldown and actions. */
  lemma CreationLaw(db: Db, device: Id, user: Id, name: string, condition: string, actions: seq<Action>, cooldown: int, id: Id)
    ensures var tx := CreateTrigger(db, device, user, name, condition, actions, cooldown, id);
            && (tx.Commit? <==>
                  && device in db.devices && id !in db.triggers
                  && forall k | 0 <= k < |actions| :: Acceptable(db, user, device, actions[k]))
            && (tx.Commit? ==>
                  && AllComplete(db, device, actions, tx.value.actions)
                  && tx.value == Trigger(device, name, true, condition, cooldown, tx.value.actions, false)
                  && Writes(db, id, tx.value, tx.db, tx.events))
  {
    ActionsLaw(db, user, device, actions);
  }

  /** The fields of `t` are those of `current`, except for the ones the patch gives. */
  ghost predicate Merges(db: Db, current: Trigger, patch: Patch, t: Trigger) {
    && t.device == current.device && t.deleted == current.deleted
    && t.name == (match patch.name case Some(name) => name case None => current.name)
    && t.cooldown == (match patch.cooldown case Some(cooldown) => cooldown case None => current.cooldown)
    && t.enabled == (match patch.enabled case Some(enabled) => enabled case None => current.enabled)
    && t.condition == (if patch.condition == "" then current.condition else patch.condition)
    && match patch.actions
       case Some(actions) => AllComplete(db, current.device, actions, t.actions)
       case None => t.actions == current.actions
  }

  lemma PatchMerges(db: Db, user: Id, current: Trigger, patch: Patch)
    ensures var r := Patched(db, user, current, patch);
            && (r.Ok? <==> (patch.actions.Some? ==>
                              forall k | 0 <= k < |patch.actions.value| :: Acceptable(db, user, current.device, patch.actions.value[k])))
            && (r.Ok? ==> Merges(db, current, patch, r.value))
  {
    if patch.actions.Some? {
      ActionsLaw(db, user, current.device, patch.actions.value);
    }
  }

  /**
   * An update is accepted exactly for a trigger of the user's device that is not deleted, if its new actions are
   * acceptable. It stores the merged trigger and enqueues exactly what it stores.
   */
  lemma UpdateLaw(db: Db, device: Id, user: Id, id: Id, patch: Patch, hydrated: seq<Action>)
    ensures var tx := UpdateTrigger(db, device, user, id, patch, hydrated);
            && (tx.Commit? <==>
                  && Holds(db, user, device) && id in db.triggers && db.triggers[id].device == device && db.triggers[id].deleted == false
                  && (patch.actions.Some? ==>
                        forall k | 0 <= k < |patch.actions.value| :: Acceptable(db, user, device, patch.actions.value[k])))
            && (tx.Commit? ==>
                  && Merges(db, db.triggers[id].(actions := hydrated), patch, tx.value)
                  && Writes(db, id, tx.value, tx.db, tx.events))
  {
    if id in db.triggers {
      PatchMerges(db, user, db.triggers[id].(actions := hydrated), patch);
    }
  }

  /** A deletion marks exactly this trigger as deleted and enqueues its delete. */
  lemma TriggerDeletionLaw(db: Db, device: Id, user: Id, id: Id)
    ensures var tx := DeleteTrigger(db, device, user, id);
            && (tx.Commit? <==>
                  Holds(db, user, device) && id in db.triggers && db.triggers[id].device == device && db.triggers[id].deleted == false)
            && (tx.Abort? ==> tx.error == TriggerNotFound)
            && (tx.Commit? ==>
                  && tx.db.triggers.Keys == db.triggers.Keys
                  && tx.db.triggers[id].deleted && tx.db.triggers[id].(deleted := false) == db.triggers[id]
                  && (forall other | other in db.triggers && other != id :: tx.db.triggers[other] == db.triggers[other])
                  && tx.db.(triggers := db.triggers) == db
                  && tx.events == [TriggerPush(device, id, None)])
  {
  }

  // ---- Peripherals ------------------------------------------------------------------------------

  predicate InUse(db: Db, id: Id) {
    id in db.peripherals && db.peripherals[id].deleted == false
  }

  /**
   * A registration is accepted exactly if the user's device has no other peripheral in use with this name or pin
   * and no peripheral in use anywhere has the port. It stores what it was given and enqueues its create.
   */
  lemma RegistrationLaw(db: Db, device: Id, user: Id, name: string, kind: string, category: string, purpose: Option<string>,
                        port: Port, id: Id)
    ensures var tx := Register(db, device, user, name, kind, category, purpose, port, id);
            var sameName := exists p :: InUse(db, p) && db.peripherals[p].device == device && db.peripherals[p].name == name;
            var samePin := exists p :: InUse(db, p) && db.peripherals[p].device == device && db.peripherals[p].pin == port.pin;
            var samePort := exists p :: InUse(db, p) && db.peripherals[p].port == Some(port.id);
            var valid := (category == "sensor" || category == "actuator") && id !in db.peripherals;
            && (tx.Commit? <==> Holds(db, user, device) && valid && !sameName && !samePin && !samePort)
            && (tx.Abort? ==>
                  tx.error == if !Holds(db, user, device) then DeviceNotFound
                              else if !valid then ConstraintViolated
                              else if sameName then AlreadyExists else PortInUse)
            && (tx.Commit? ==>
                  && tx.value == Peripheral(device, name, kind, port.pin, Some(port.id), category, purpose, false)
                  && tx.db.peripherals.Keys == db.peripherals.Keys + {id} && tx.db.peripherals[id] == tx.value
                  && (forall p | p in db.peripherals && p != id :: tx.db.peripherals[p] == db.peripherals[p])
                  && tx.db.(peripherals := db.peripherals) == db
                  && tx.events == [PeripheralPush(device, kind + "-" + Decimal(port.pin), Some(Placement(kind, port.pin, purpose)))])
  {
    var sameName := exists p :: InUse(db, p) && db.peripherals[p].device == device && db.peripherals[p].name == name;
    var samePin := exists p :: InUse(db, p) && db.peripherals[p].device == device && db.peripherals[p].pin == port.pin;
    var samePort := exists p :: InUse(db, p) && db.peripherals[p].port == Some(port.id);
    TakenLaw(db, device, name, port);
  }

  lemma TakenLaw(db: Db, device: Id, name: string, port: Port)
    ensures NameTaken(db, device, name) <==> exists p :: InUse(db, p) && db.peripherals[p].device == device && db.peripherals[p].name == name
    ensures PinTaken(db, device, port.pin) <==> exists p :: InUse(db, p) && db.peripherals[p].device == device && db.peripherals[p].pin == port.pin
    ensures PortTaken(db, port.id) <==> exists p :: InUse(db, p) && db.peripherals[p].port == Some(port.id)
  {
    assert forall p :: InUse(db, p) <==> Active(db, p);
  }

  lemma RemovalLaw(db: Db, device: Id, user: Id, id: Id)
    ensures var tx := DeletePeripheral(db, device, user, id);
            && (tx.Commit? <==> Holds(db, user, device) && InUse(db, id) && db.peripherals[id].device == device)
            && (tx.Abort? ==> tx.error == PeripheralNotFound)
            && (tx.Commit? ==>
                  && tx.db.peripherals.Keys == db.peripherals.Keys
                  && tx.db.peripherals[id].deleted && tx.db.peripherals[id].(deleted := false) == db.peripherals[id]
                  && (forall p | p in db.peripherals && p != id :: tx.db.peripherals[p] == db.peripherals[p])
                  && tx.db.(peripherals := db.peripherals) == db
                  && tx.events == [PeripheralPush(device, db.peripherals[id].kind + "-" + Decimal(db.peripherals[id].pin), None)])
  {
  }

  // ---- Accounts and devices ---------------------------------------------------------------------

  /** The account gets exactly the timezone asked for, and each listed device a push of it. */
  lemma TimezoneLaw(db: Db, user: Id, timezone: string, known: bool, listed: seq<Id>)
    ensures var tx := UpdateTimezone(db, user, timezone, known, listed);
            && (tx.Commit? <==> known && user in db.timezones)
            && (tx.Abort? ==> tx.error == if known then AccountNotFound else InvalidTimezone)
            && (tx.Commit? ==>
                  && tx.db.timezones.Keys == db.timezones.Keys && tx.db.timezones[user] == timezone
                  && (forall other | other in db.timezones && other != user :: tx.db.timezones[other] == db.timezones[other])
                  && tx.db.(timezones := db.timezones) == db
                  && |tx.events| == |listed| && forall k | 0 <= k < |listed| :: tx.events[k] == ConfigPush(listed[k], timezone))
  {
  }

  /** The first sign-in creates the account in UTC; an account that exists keeps its timezone. */
  lemma SignInLaw(db: Db, user: Id)
    ensures var tx := Login(db, user);
            && tx.Commit? && tx.events == [] && tx.db.(timezones := db.timezones) == db
            && tx.db.timezones.Keys == db.timezones.Keys + {user}
            && forall other | other in tx.db.timezones ::
                 tx.db.timezones[other] == if other in db.timezones then db.timezones[other] else "UTC"
  {
  }

  /** A claim adds a device of the user without credentials. */
  lemma ClaimLaw(db: Db, user: Id, id: Id)
    ensures var tx := AddDevice(db, user, id);
            && (tx.Commit? <==> id !in db.devices)
            && (tx.Commit? ==>
                  && tx.db.devices.Keys == db.devices.Keys + {id} && tx.db.devices[id] == Device(user, None, None, false)
                  && (forall d | d in db.devices :: tx.db.devices[d] == db.devices[d])
                  && tx.db.(devices := db.devices) == db && tx.events == [])
  {
  }

  /** Activation stores the device id as the username and the password it generated, and enqueues both of its events. */
  lemma ActivationLaw(db: Db, device: Id, password: string)
    ensures var tx := Activate(db, device, password);
            && (tx.Commit? <==> device in db.devices && db.devices[device].username == None)
            && (tx.Commit? ==>
                  && var d := db.devices[device];
                  && tx.db.devices.Keys == db.devices.Keys
                  && tx.db.devices[device] == Device(d.user, Some(device), Some(password), d.deleted)
                  && (forall other | other in db.devices && other != device :: tx.db.devices[other] == db.devices[other])
                  && tx.db.(devices := db.devices) == db
                  && tx.events == [Provision(device, device, password),
                                   ConfigPush(device, if d.user in db.timezones then db.timezones[d.user] else "UTC")])
  {
  }

  lemma DeviceDeletionLaw(db: Db, device: Id, user: Id)
    ensures var tx := DeleteDevice(db, device, user);
            && (tx.Commit? <==> Holds(db, user, device))
            && (tx.Abort? ==> tx.error == DeviceNotFound)
            && (tx.Commit? ==>
                  && tx.db.devices.Keys == db.devices.Keys
                  && tx.db.devices[device].deleted && tx.db.devices[device].(deleted := false) == db.devices[device]
                  && (forall other | other in db.devices && other != device :: tx.db.devices[other] == db.devices[other])
                  && tx.db.(devices := db.devices) == db && tx.events == [])
  {
  }

  /**
   * A request about a device that the user does not hold changes nothing and enqueues nothing. Creating a trigger
   * is the exception: its insert checks no owner, only resolving a peripheral action does.
   */
  lemma StrangersChangeNothing(db: Db, r: Request)
    requires match r
             case TriggerCreation(device, user, _, _, actions, _, _) =>
               !Holds(db, user, device) && exists k :: 0 <= k < |actions| && actions[k].kind == "peripheral_action"
             case TriggerUpdate(device, user, _, _, _) => !Holds(db, user, device)
             case TriggerDeletion(device, user, _) => !Holds(db, user, device)
             case Registration(device, user, _, _, _, _, _, _) => !Holds(db, user, device)
             case Removal(device, user, _) => !Holds(db, user, device)
             case DeviceDeletion(device, user) => !Holds(db, user, device)
             case _ => false
    ensures Handle(db, r) == (db, [])
  {
    if r.TriggerCreation? {
      CreationLaw(db, r.device, r.user, r.name, r.condition, r.actions, r.cooldown, r.id);
      var k :| 0 <= k < |r.actions| && r.actions[k].kind == "peripheral_action";
      assert !Acceptable(db, r.user, r.device, r.actions[k]);
    }
  }
}
