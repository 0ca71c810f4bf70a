/** The writer services, working step by step on the database that they share with the outbox. */
module Services {
  import opened Wrappers
  import opened Events
  import opened Addressing
  import opened Outbox
  import opened Tables
  import opened RequestLaws

  const CLAIM_TIMEOUT: nat := 30

  class Database {
    var devices: map<Id, Device>
    var triggers: map<Id, Trigger>
    var peripherals: map<Id, Peripheral>
    var timezones: map<Id, string>
    const outbox: Store

    constructor (outbox: Store)
      ensures this.outbox == outbox && View() == Db(map[], map[], map[], map[])
    {
      this.outbox := outbox;
      devices, triggers, peripherals, timezones := map[], map[], map[], map[];
    }

    function View(): Db
      reads this
    {
      Db(devices, triggers, peripherals, timezones)
    }

    /** A transaction that starts at `now` starts after every committed one. */
    ghost predicate Ready(now: int)
      reads this, outbox
    {
      SortedByCreation(outbox.rows) && forall r | r in outbox.rows :: r.createdAt <= now
    }
  }

  function Enqueued(rows: seq<Row>, events: seq<Payload>, now: int): seq<Row> {
    rows + seq(|events|, i requires 0 <= i < |events| => NewRow(events[i], now, CLAIM_TIMEOUT))
  }

  /** The database has done what `tx` says: all of it, or nothing. */
  ghost predicate Done<T(!new)>(before: Db, rows: seq<Row>, after: Db, rows': seq<Row>, now: int, tx: Tx<T>, r: Result<T, Refusal>) {
    match tx
    case Commit(db, events, value) => after == db && rows' == Enqueued(rows, events, now) && r == Ok(value)
    case Abort(e) => after == before && rows' == rows && r == Err(e)
  }

  // ---- Resolving actions ------------------------------------------------------------------------

  lemma {:induction false} AllResolved(db: Db, device: Id, user: Id, actions: seq<Action>, resolved: seq<Action>)
    requires |resolved| == |actions|
    requires forall k | 0 <= k < |actions| :: ResolveAction(db, device, user, actions[k]) == Ok(resolved[k])
    ensures ResolveActions(db, device, user, actions) == Ok(resolved)
  {
    if actions != [] {
      AllResolved(db, device, user, actions[1..], resolved[1..]);
      assert resolved == [resolved[0]] + resolved[1..];
    }
  }

  lemma {:induction false} FirstRefused(db: Db, device: Id, user: Id, actions: seq<Action>, i: nat, e: Refusal)
    requires i < |actions| && forall k | 0 <= k < i :: ResolveAction(db, device, user, actions[k]).Ok?
    requires ResolveAction(db, device, user, actions[i]) == Err(e)
    ensures ResolveActions(db, device, user, actions) == Err(e)
  {
    if i > 0 {
      FirstRefused(db, device, user, actions[1..], i - 1, e);
    }
  }

  /** Every resolved peripheral action names the kind-pin of an active actuator of the trigger's device. */
  lemma {:induction false} ResolvedActionsName(db: Db, device: Id, user: Id, actions: seq<Action>)
    requires ResolveActions(db, device, user, actions).Ok?
    ensures var resolved := ResolveActions(db, device, user, actions).value;
            && |resolved| == |actions|
            && forall k | 0 <= k < |actions| ::
                 if actions[k].kind != PERIPHERAL_ACTION then resolved[k] == actions[k]
                 else
                   && "peripheral_id" in actions[k].config && IsActuator(db, device, actions[k].config["peripheral_id"])
                   && var id: Id := actions[k].config["peripheral_id"];
                      var p := db.peripherals[id];
                      resolved[k] == Action(actions[k].kind, actions[k].config["peripheral" := KindPin(p.kind, p.pin)])
  {
    if actions != [] {
      ResolvedActionsName(db, device, user, actions[1..]);
      var resolved := ResolveActions(db, device, user, actions).value;
      assert ResolveAction(db, device, user, actions[0]) == Ok(resolved[0]);
      assert forall k | 0 < k < |actions| :: actions[k] == actions[1..][k - 1] && resolved[k] == resolved[1..][k - 1];
    }
  }

  /** The kind-pin of the actuator that a peripheral action refers to. */
  method ValidatePeripheralAction(db: Database, device: Id, user: Id, action: Action) returns (r: Result<string, Refusal>)
    requires action.kind == PERIPHERAL_ACTION
    ensures match r
            case Ok(kindPin) =>
              ResolveAction(db.View(), device, user, action) == Ok(Action(action.kind, action.config["peripheral" := kindPin]))
            case Err(e) => ResolveAction(db.View(), device, user, action) == Err(e)
  {
    var id := if "peripheral_id" in action.config then action.config["peripheral_id"] else "";
    if id == "" {
      return Err(InvalidPeripheral);
    }
    if !(Owned(db.View(), device, user) && IsActuator(db.View(), device, id)) {
      if !Owned(db.View(), device, user) {
        return Err(DeviceNotFound);
      }
      return Err(InvalidPeripheral);
    }
    var p := db.peripherals[id];
    return Ok(KindPin(p.kind, p.pin));
  }

  /** Resolves the actions in place, as far as the first refusal. */
  method ResolveInPlace(db: Database, device: Id, user: Id, actions: array<Action>) returns (refusal: Option<Refusal>)
    modifies actions
    ensures match refusal
            case None => ResolveActions(db.View(), device, user, old(actions[..])) == Ok(actions[..])
            case Some(e) => ResolveActions(db.View(), device, user, old(actions[..])) == Err(e)
  {
    ghost var given := actions[..];
    for i := 0 to actions.Length
      invariant forall k | 0 <= k < i :: ResolveAction(db.View(), device, user, given[k]) == Ok(actions[k])
      invariant forall k | i <= k < actions.Length :: actions[k] == given[k]
    {
      var a := actions[i];
      if a.kind != PERIPHERAL_ACTION {
        continue;
      }
      var r := ValidatePeripheralAction(db, device, user, a);
      match r {
        case Err(e) =>
          FirstRefused(db.View(), device, user, given, i, e);
          return Some(e);
        case Ok(kindPin) =>
          actions[i] := Action(a.kind, a.config["peripheral" := kindPin]);
      }
    }
    AllResolved(db.View(), device, user, given, actions[..]);
    return None;
  }

  // ---- Triggers ---------------------------------------------------------------------------------

  method Create(db: Database, device: Id, user: Id, name: string, condition: string, actions: array<Action>, cooldown: int, id: Id, now: int)
    returns (r: Result<Trigger, Refusal>)
    requires db.Ready(now)
    modifies db`triggers, db.outbox, actions
    ensures Done(old(db.View()), old(db.outbox.rows), db.View(), db.outbox.rows, now,
                 CreateTrigger(old(db.View()), device, user, name, condition, old(actions[..]), cooldown, id), r)
    ensures r.Ok? ==>
              && r.value == Trigger(device, name, true, condition, cooldown, r.value.actions, false)
              && AllComplete(old(db.View()), device, old(actions[..]), r.value.actions)
              && db.triggers == old(db.triggers)[id := r.value]
              && db.outbox.rows == old(db.outbox.rows) + [NewRow(PushOf(id, r.value), now, CLAIM_TIMEOUT)]
  {
    CreationLaw(db.View(), device, user, name, condition, actions[..], cooldown, id);
    var refusal := ResolveInPlace(db, device, user, actions);
    if refusal.Some? {
      return Err(refusal.value);
    }
    if device !in db.devices || id in db.triggers {
      return Err(ConstraintViolated);
    }
    var t := Trigger(device, name, true, condition, cooldown, actions[..], false);
    db.triggers := db.triggers[id := t];
    db.outbox.Insert(TriggerPush(device, id, Some(TriggerBody(t.enabled, t.condition, t.actions, t.cooldown))), now, CLAIM_TIMEOUT);
    return Ok(t);
  }

  /** Merges the patch field by field. */
  method ApplyPatch(db: Database, user: Id, current: Trigger, patch: Patch) returns (r: Result<Trigger, Refusal>)
    ensures r == Patched(db.View(), user, current, patch)
    ensures r.Ok? ==> Merges(db.View(), current, patch, r.value)
  {
    PatchMerges(db.View(), user, current, patch);
    var u := current;
    if patch.name.Some? {
      u := u.(name := patch.name.value);
    }
    if patch.condition != "" {
      u := u.(condition := patch.condition);
    }
    if patch.cooldown.Some? {
      u := u.(cooldown := patch.cooldown.value);
    }
    if patch.enabled.Some? {
      u := u.(enabled := patch.enabled.value);
    }
    if patch.actions.Some? {
      var given := patch.actions.value;
      var resolved := new Action[|given|](i requires 0 <= i < |given| => given[i]);
      assert resolved[..] == given;
      var refusal := ResolveInPlace(db, current.device, user, resolved);
      if refusal.Some? {
        return Err(refusal.value);
      }
      u := u.(actions := resolved[..]);
    }
    return Ok(u);
  }

  method Update(db: Database, device: Id, user: Id, id: Id, patch: Patch, hydrated: seq<Action>, now: int)
    returns (r: Result<Trigger, Refusal>)
    requires db.Ready(now)
    modifies db`triggers, db.outbox
    ensures Done(old(db.View()), old(db.outbox.rows), db.View(), db.outbox.rows, now,
                 UpdateTrigger(old(db.View()), device, user, id, patch, hydrated), r)
    ensures r.Ok? ==>
              && id in old(db.triggers) && Merges(old(db.View()), old(db.triggers)[id].(actions := hydrated), patch, r.value)
              && db.triggers == old(db.triggers)[id := r.value]
              && db.outbox.rows == old(db.outbox.rows) + [NewRow(PushOf(id, r.value), now, CLAIM_TIMEOUT)]
  {
    if !TriggerOwned(db.View(), device, user, id) {
      return Err(TriggerNotFound);
    }
    var current := db.triggers[id].(actions := hydrated);
    r := ApplyPatch(db, user, current, patch);
    if r.Ok? {
      var t := r.value;
      db.triggers := db.triggers[id := t];
      db.outbox.Insert(TriggerPush(device, id, Some(TriggerBody(t.enabled, t.condition, t.actions, t.cooldown))), now, CLAIM_TIMEOUT);
    }
  }

  method Delete(db: Database, device: Id, user: Id, id: Id, now: int) returns (r: Result<(), Refusal>)
    requires db.Ready(now)
    modifies db`triggers, db.outbox
    ensures Done(old(db.View()), old(db.outbox.rows), db.View(), db.outbox.rows, now,
                 DeleteTrigger(old(db.View()), device, user, id), r)
    ensures r.Ok? ==>
              && id in old(db.triggers) && db.triggers == old(db.triggers)[id := old(db.triggers)[id].(deleted := true)]
              && db.outbox.rows == old(db.outbox.rows) + [NewRow(TriggerPush(device, id, None), now, CLAIM_TIMEOUT)]
  {
    if !TriggerOwned(db.View(), device, user, id) {
      return Err(TriggerNotFound);
    }
    db.triggers := db.triggers[id := db.triggers[id].(deleted := true)];
    db.outbox.Insert(TriggerPush(device, id, None), now, CLAIM_TIMEOUT);
    return Ok(());
  }

  // ---- Peripherals ------------------------------------------------------------------------------

  method RegisterPeripheral(db: Database, device: Id, user: Id, name: string, kind: string, category: string,
                            purpose: Option<string>, port: Port, id: Id, now: int) returns (r: Result<Peripheral, Refusal>)
    requires db.Ready(now)
    modifies db`peripherals, db.outbox
    ensures Done(old(db.View()), old(db.outbox.rows), db.View(), db.outbox.rows, now,
                 Register(old(db.View()), device, user, name, kind, category, purpose, port, id), r)
    ensures r.Ok? ==>
              && r.value == Peripheral(device, name, kind, port.pin, Some(port.id), category, purpose, false)
              && db.peripherals == old(db.peripherals)[id := r.value]
              && db.outbox.rows == old(db.outbox.rows)
                   + [NewRow(PeripheralPush(device, KindPin(kind, port.pin), Some(Placement(kind, port.pin, purpose))), now, CLAIM_TIMEOUT)]
  {
    if !Owned(db.View(), device, user) {
      return Err(DeviceNotFound);
    }
    if category !in {"sensor", "actuator"} || id in db.peripherals {
      return Err(ConstraintViolated);
    }
    if NameTaken(db.View(), device, name) {
      return Err(AlreadyExists);
    }
    if PinTaken(db.View(), device, port.pin) || PortTaken(db.View(), port.id) {
      return Err(PortInUse);
    }
    var p := Peripheral(device, name, kind, port.pin, Some(port.id), category, purpose, false);
    db.peripherals := db.peripherals[id := p];
    db.outbox.Insert(PeripheralPush(device, KindPin(kind, port.pin), Some(Placement(kind, port.pin, purpose))), now, CLAIM_TIMEOUT);
    return Ok(p);
  }

  method RemovePeripheral(db: Database, device: Id, user: Id, id: Id, now: int) returns (r: Result<(), Refusal>)
    requires db.Ready(now)
    modifies db`peripherals, db.outbox
    ensures Done(old(db.View()), old(db.outbox.rows), db.View(), db.outbox.rows, now,
                 DeletePeripheral(old(db.View()), device, user, id), r)
    ensures r.Ok? ==>
              && id in old(db.peripherals) && db.peripherals == old(db.peripherals)[id := old(db.peripherals)[id].(deleted := true)]
              && var p := old(db.peripherals)[id];
                 db.outbox.rows == old(db.outbox.rows) + [NewRow(PeripheralPush(device, KindPin(p.kind, p.pin), None), now, CLAIM_TIMEOUT)]
  {
    if !(Active(db.View(), id) && db.peripherals[id].device == device && Owned(db.View(), device, user)) {
      return Err(PeripheralNotFound);
    }
    var p := db.peripherals[id];
    db.peripherals := db.peripherals[id := p.(deleted := true)];
    db.outbox.Insert(PeripheralPush(device, KindPin(p.kind, p.pin), None), now, CLAIM_TIMEOUT);
    return Ok(());
  }

  // ---- Accounts and activation ------------------------------------------------------------------

  /** Updates the account and enqueues one config push per listed device, all in one transaction. */
  method ChangeTimezone(db: Database, user: Id, timezone: string, known: bool, listed: seq<Id>, now: int)
    returns (r: Result<(), Refusal>)
    requires db.Ready(now)
    modifies db`timezones, db.outbox
    ensures Done(old(db.View()), old(db.outbox.rows), db.View(), db.outbox.rows, now,
                 UpdateTimezone(old(db.View()), user, timezone, known, listed), r)
    ensures r.Ok? <==> known && user in old(db.timezones)
    ensures r.Ok? ==>
              && db.timezones == old(db.timezones)[user := timezone]
              && |db.outbox.rows| == |old(db.outbox.rows)| + |listed| && old(db.outbox.rows) <= db.outbox.rows
              && forall k | 0 <= k < |listed| ::
                   db.outbox.rows[|old(db.outbox.rows)| + k] == NewRow(ConfigPush(listed[k], timezone), now, CLAIM_TIMEOUT)
  {
    if !known {
      return Err(InvalidTimezone);
    }
    if user !in db.timezones {
      return Err(AccountNotFound);
    }
    ghost var rows := db.outbox.rows;
    db.timezones := db.timezones[user := timezone];
    for i := 0 to |listed|
      invariant db.Ready(now)
      invariant db.View() == old(db.View()).(timezones := old(db.timezones)[user := timezone])
      invariant db.outbox.rows == Enqueued(rows, ConfigPushes(listed[..i], timezone), now)
    {
      db.outbox.Insert(ConfigPush(listed[i], timezone), now, CLAIM_TIMEOUT);
      assert ConfigPushes(listed[..i + 1], timezone) == ConfigPushes(listed[..i], timezone) + [ConfigPush(listed[i], timezone)];
    }
    assert listed[..|listed|] == listed;
    return Ok(());
  }

  method ActivateDevice(db: Database, device: Id, password: string, now: int) returns (r: Result<(), Refusal>)
    requires db.Ready(now)
    modifies db`devices, db.outbox
    ensures Done(old(db.View()), old(db.outbox.rows), db.View(), db.outbox.rows, now,
                 Activate(old(db.View()), device, password), r)
    ensures r.Ok? ==>
              && device in old(db.devices)
              && db.devices == old(db.devices)[device := old(db.devices)[device].(username := Some(device), password := Some(password))]
  {
    if device !in db.devices || db.devices[device].username.Some? {
      return Err(DeviceNotFound);
    }
    var timezone := TimezoneOf(db.View(), db.devices[device].user);
    db.devices := db.devices[device := db.devices[device].(username := Some(device), password := Some(password))];
    db.outbox.Insert(Provision(device, device, password), now, CLAIM_TIMEOUT);
    db.outbox.Insert(ConfigPush(device, timezone), now, CLAIM_TIMEOUT);
    return Ok(());
  }
}
