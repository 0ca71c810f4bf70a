/**
 * The tables behind the writers of the outbox, and what each writer transaction commits:
 * the new tables together with the payloads it enqueues.
 */
module Tables {
  import opened Wrappers
  import opened Events
  import opened Addressing

  datatype Device = Device(user: Id, username: Option<string>, password: Option<string>, deleted: bool)

  datatype Trigger = Trigger(device: Id, name: string, enabled: bool, condition: string, cooldown: int,
                             actions: seq<Action>, deleted: bool)

  datatype Peripheral = Peripheral(device: Id, name: string, kind: string, pin: nat, port: Option<Id>,
                                   category: string, purpose: Option<string>, deleted: bool)

  datatype Port = Port(id: Id, pin: nat)

  datatype Db = Db(devices: map<Id, Device>, triggers: map<Id, Trigger>, peripherals: map<Id, Peripheral>,
                   timezones: map<Id, string>)

  datatype Refusal =
    | DeviceNotFound | TriggerNotFound | PeripheralNotFound | InvalidPeripheral
    | AlreadyExists | PortInUse | InvalidTimezone | AccountNotFound | ConstraintViolated

  datatype Tx<+T> = Commit(db: Db, events: seq<Payload>, value: T) | Abort(error: Refusal)

  predicate Owned(db: Db, device: Id, user: Id) {
    device in db.devices && db.devices[device].user == user && !db.devices[device].deleted
  }

  // ---- Triggers ---------------------------------------------------------------------------------

  const PERIPHERAL_ACTION := "peripheral_action"

  function BodyOf(t: Trigger): TriggerBody {
    TriggerBody(t.enabled, t.condition, t.actions, t.cooldown)
  }

  function UpsertOf(id: Id, t: Trigger): Payload {
    TriggerPush(t.device, id, Some(BodyOf(t)))
  }

  /** Resolving a peripheral action looks up an active actuator of the device and records its kind-pin name. */
  function ResolveAction(db: Db, device: Id, user: Id, a: Action): Result<Action, Refusal> {
    if a.kind != PERIPHERAL_ACTION then Ok(a)
    else
      var id := if "peripheral_id" in a.config then a.config["peripheral_id"] else "";
      if id == "" then Err(InvalidPeripheral)
      else if !(Owned(db, device, user) && IsActuator(db, device, id)) then
        Err(if Owned(db, device, user) then InvalidPeripheral else DeviceNotFound)
      else
        var p := db.peripherals[id];
        Ok(Action(a.kind, a.config["peripheral" := KindPin(p.kind, p.pin)]))
  }

  predicate IsActuator(db: Db, device: Id, id: string) {
    '/' !in id && id in db.peripherals
    && var p := db.peripherals[id]; p.device == device && p.category == "actuator" && !p.deleted
  }

  /** Actions are resolved in order; the first refusal ends the request. */
  function ResolveActions(db: Db, device: Id, user: Id, actions: seq<Action>): Result<seq<Action>, Refusal> {
    if actions == [] then Ok([])
    else match ResolveAction(db, device, user, actions[0])
      case Err(e) => Err(e)
      case Ok(first) =>
        match ResolveActions(db, device, user, actions[1..])
        case Err(e) => Err(e)
        case Ok(rest) => Ok([first] + rest)
  }

  /** The trigger insert checks no ownership of its own; only resolving a peripheral action does. */
  function CreateTrigger(db: Db, device: Id, user: Id, name: string, condition: string, actions: seq<Action>, cooldown: int, id: Id)
    : Tx<Trigger>
  {
    match ResolveActions(db, device, user, actions)
    case Err(e) => Abort(e)
    case Ok(resolved) =>
      if device !in db.devices || id in db.triggers then Abort(ConstraintViolated)
      else
        var t := Trigger(device, name, true, condition, cooldown, resolved, false);
        Commit(db.(triggers := db.triggers[id := t]), [UpsertOf(id, t)], t)
  }

  predicate TriggerOwned(db: Db, device: Id, user: Id, id: Id) {
    id in db.triggers && !db.triggers[id].deleted && db.triggers[id].device == device && Owned(db, device, user)
  }

  datatype Patch = Patch(name: Option<string>, condition: string, actions: Option<seq<Action>>, cooldown: Option<int>, enabled: Option<bool>)

  function Or<T>(o: Option<T>, default: T): T {
    match o
    case Some(v) => v
    case None => default
  }

  /** Merging a patch onto the current trigger; an empty condition means no change. */
  function Patched(db: Db, user: Id, current: Trigger, patch: Patch): Result<Trigger, Refusal> {
    var merged := current.(
      name := Or(patch.name, current.name),
      condition := if patch.condition != "" then patch.condition else current.condition,
      cooldown := Or(patch.cooldown, current.cooldown),
      enabled := Or(patch.enabled, current.enabled));
    match patch.actions
    case None => Ok(merged)
    case Some(actions) =>
      match ResolveActions(db, current.device, user, actions)
      case Err(e) => Err(e)
      case Ok(resolved) => Ok(merged.(actions := resolved))
  }

  const NO_CHANGE := Patch(None, "", None, None, None)

  /** An empty patch changes nothing, a patch gives its fields their new values, and giving it again changes nothing more. */
  lemma PatchLaws(db: Db, user: Id, current: Trigger, patch: Patch)
    ensures Patched(db, user, current, NO_CHANGE) == Ok(current)
    ensures Patched(db, user, current, patch).Ok? ==>
              var t := Patched(db, user, current, patch).value;
              && t.device == current.device && t.deleted == current.deleted
              && (patch.name.Some? ==> t.name == patch.name.value)
              && (patch.cooldown.Some? ==> t.cooldown == patch.cooldown.value)
              && (patch.enabled.Some? ==> t.enabled == patch.enabled.value)
              && (patch.condition != "" ==> t.condition == patch.condition)
              && Patched(db, user, t, patch) == Ok(t)
    ensures Patched(db, user, current, patch).Err? <==>
              patch.actions.Some? && ResolveActions(db, current.device, user, patch.actions.value).Err?
  {
  }

  /**
   * `hydrated` is the order in which the current actions are read back: they share a creation time, so
   * the query that orders by it may return them in any order.
   */
  function UpdateTrigger(db: Db, device: Id, user: Id, id: Id, patch: Patch, hydrated: seq<Action>): Tx<Trigger> {
    if !TriggerOwned(db, device, user, id) then Abort(TriggerNotFound)
    else match Patched(db, user, db.triggers[id].(actions := hydrated), patch)
      case Err(e) => Abort(e)
      case Ok(t) => Commit(db.(triggers := db.triggers[id := t]), [UpsertOf(id, t)], t)
  }

  function DeleteTrigger(db: Db, device: Id, user: Id, id: Id): Tx<()> {
    if !TriggerOwned(db, device, user, id) then Abort(TriggerNotFound)
    else Commit(db.(triggers := db.triggers[id := db.triggers[id].(deleted := true)]), [TriggerPush(device, id, None)], ())
  }

  // ---- Peripherals ------------------------------------------------------------------------------

  predicate Active(db: Db, id: Id) {
    id in db.peripherals && !db.peripherals[id].deleted
  }

  predicate NameTaken(db: Db, device: Id, name: string) {
    exists id | id in db.peripherals :: Active(db, id) && db.peripherals[id].device == device && db.peripherals[id].name == name
  }

  predicate PinTaken(db: Db, device: Id, pin: nat) {
    exists id | id in db.peripherals :: Active(db, id) && db.peripherals[id].device == device && db.peripherals[id].pin == pin
  }

  /** The port index covers all devices, not only the one at hand. */
  predicate PortTaken(db: Db, port: Id) {
    exists id | id in db.peripherals :: Active(db, id) && db.peripherals[id].port == Some(port)
  }

  function CreateOf(p: Peripheral): Payload {
    PeripheralPush(p.device, KindPin(p.kind, p.pin), Some(Placement(p.kind, p.pin, p.purpose)))
  }

  function Register(db: Db, device: Id, user: Id, name: string, kind: string, category: string, purpose: Option<string>,
                    port: Port, id: Id): Tx<Peripheral>
  {
    if !Owned(db, device, user) then Abort(DeviceNotFound)
    else if category !in {"sensor", "actuator"} || id in db.peripherals then Abort(ConstraintViolated)
    else if NameTaken(db, device, name) then Abort(AlreadyExists)
    else if PinTaken(db, device, port.pin) || PortTaken(db, port.id) then Abort(PortInUse)
    else
      var p := Peripheral(device, name, kind, port.pin, Some(port.id), category, purpose, false);
      Commit(db.(peripherals := db.peripherals[id := p]), [CreateOf(p)], p)
  }

  function DeletePeripheral(db: Db, device: Id, user: Id, id: Id): Tx<()> {
    if !(Active(db, id) && db.peripherals[id].device == device && Owned(db, device, user)) then Abort(PeripheralNotFound)
    else
      var p := db.peripherals[id];
      Commit(db.(peripherals := db.peripherals[id := p.(deleted := true)]),
             [PeripheralPush(device, KindPin(p.kind, p.pin), None)], ())
  }

  // ---- Accounts, devices and activation ---------------------------------------------------------

  function TimezoneOf(db: Db, user: Id): string {
    if user in db.timezones then db.timezones[user] else "UTC"
  }

  /** The first login creates the account with the default timezone; later ones leave it alone. */
  function Login(db: Db, user: Id): Tx<()> {
    Commit(if user in db.timezones then db else db.(timezones := db.timezones[user := "UTC"]), [], ())
  }

  ghost predicate ListsDevices(db: Db, user: Id, listed: seq<Id>) {
    && (forall d | d in listed :: Owned(db, d, user))
    && (forall d | d in db.devices && Owned(db, d, user) :: d in listed)
    && (forall i, j | 0 <= i < j < |listed| :: listed[i] != listed[j])
  }

  function ConfigPushes(listed: seq<Id>, timezone: string): (events: seq<Payload>)
    ensures |events| == |listed|
    ensures forall i | 0 <= i < |listed| :: events[i] == ConfigPush(listed[i], timezone)
  {
    seq(|listed|, i requires 0 <= i < |listed| => ConfigPush(listed[i], timezone))
  }

  /** `listed` is the user's device list as read before the transaction. */
  function UpdateTimezone(db: Db, user: Id, timezone: string, known: bool, listed: seq<Id>): Tx<()> {
    if !known then Abort(InvalidTimezone)
    else if user !in db.timezones then Abort(AccountNotFound)
    else Commit(db.(timezones := db.timezones[user := timezone]), ConfigPushes(listed, timezone), ())
  }

  /** Claiming a code creates the device row, still without credentials. */
  function AddDevice(db: Db, user: Id, id: Id): Tx<()> {
    if id in db.devices then Abort(ConstraintViolated)
    else Commit(db.(devices := db.devices[id := Device(user, None, None, false)]), [], ())
  }

  /** The second half of activation, which runs at most once for a claimed device. */
  function Activate(db: Db, device: Id, password: string): Tx<()> {
    if device !in db.devices || db.devices[device].username.Some? then Abort(DeviceNotFound)
    else
      var d := db.devices[device];
      Commit(db.(devices := db.devices[device := d.(username := Some(device), password := Some(password))]),
             [Provision(device, device, password), ConfigPush(device, TimezoneOf(db, d.user))], ())
  }

  function DeleteDevice(db: Db, device: Id, user: Id): Tx<()> {
    if !Owned(db, device, user) then Abort(DeviceNotFound)
    else Commit(db.(devices := db.devices[device := db.devices[device].(deleted := true)]), [], ())
  }

  // ---- All writers ------------------------------------------------------------------------------

  datatype Request =
    | TriggerCreation(device: Id, user: Id, name: string, condition: string, actions: seq<Action>, cooldown: int, id: Id)
    | TriggerUpdate(device: Id, user: Id, id: Id, patch: Patch, hydrated: seq<Action>)
    | TriggerDeletion(device: Id, user: Id, id: Id)
    | Registration(device: Id, user: Id, name: string, kind: string, category: string, purpose: Option<string>, port: Port, id: Id)
    | Removal(device: Id, user: Id, id: Id)
    | SignIn(user: Id)
    | TimezoneChange(user: Id, timezone: string, known: bool, listed: seq<Id>)
    | CodeClaim(user: Id, id: Id)
    | Activation(device: Id, password: string)
    | DeviceDeletion(device: Id, user: Id)

  /** What a request reads from the tables is what they hold: requests are serial. */
  ghost predicate Faithful(db: Db, r: Request) {
    match r
    case TriggerUpdate(_, _, id, _, hydrated) => id in db.triggers ==> multiset(hydrated) == multiset(db.triggers[id].actions)
    case TimezoneChange(user, _, _, listed) => ListsDevices(db, user, listed)
    case _ => true
  }

  function Applied<T>(db: Db, tx: Tx<T>): (Db, seq<Payload>) {
    match tx
    case Commit(db', events, _) => (db', events)
    case Abort(_) => (db, [])
  }

  /** The tables after a request, and the payloads it has enqueued; a refused request changes nothing. */
  function Handle(db: Db, r: Request): (Db, seq<Payload>) {
    match r
    case TriggerCreation(device, user, name, condition, actions, cooldown, id) =>
      Applied(db, CreateTrigger(db, device, user, name, condition, actions, cooldown, id))
    case TriggerUpdate(device, user, id, patch, hydrated) => Applied(db, UpdateTrigger(db, device, user, id, patch, hydrated))
    case TriggerDeletion(device, user, id) => Applied(db, DeleteTrigger(db, device, user, id))
    case Registration(device, user, name, kind, category, purpose, port, id) =>
      Applied(db, Register(db, device, user, name, kind, category, purpose, port, id))
    case Removal(device, user, id) => Applied(db, DeletePeripheral(db, device, user, id))
    case SignIn(user) => Applied(db, Login(db, user))
    case TimezoneChange(user, timezone, known, listed) => Applied(db, UpdateTimezone(db, user, timezone, known, listed))
    case CodeClaim(user, id) => Applied(db, AddDevice(db, user, id))
    case Activation(device, password) => Applied(db, Activate(db, device, password))
    case DeviceDeletion(device, user) => Applied(db, DeleteDevice(db, device, user))
  }

  // ---- The newest event on every topic agrees with the tables -----------------------------------

  ghost predicate NewestIs(log: seq<Payload>, topic: Topic, p: Payload) {
    Newest(log, topic) >= 0 && log[Newest(log, topic)] == p
  }

  function LastWord(id: Id, t: Trigger): Payload {
    if t.deleted then TriggerPush(t.device, id, None) else UpsertOf(id, t)
  }

  /** Every trigger event belongs to a stored trigger, and nothing follows the delete of a trigger. */
  ghost predicate TriggerLog(db: Db, log: seq<Payload>) {
    && (forall p | p in log && p.TriggerPush? :: p.trigger in db.triggers && db.triggers[p.trigger].device == p.device)
    && (forall i, j | 0 <= i < j < |log| && log[i].TriggerPush? && log[j].TriggerPush? && log[i].trigger == log[j].trigger ::
          log[i].body.Some?)
  }

  ghost predicate TriggersAgree(db: Db, log: seq<Payload>) {
    && (forall id | id in db.triggers ::
          NewestIs(log, TriggerTopic(db.triggers[id].device, id), LastWord(id, db.triggers[id])))
    && TriggerLog(db, log)
  }

  function TopicOfPeripheral(p: Peripheral): Topic {
    PeripheralTopic(p.device, KindPin(p.kind, p.pin))
  }

  /** At most one active peripheral per device and pin, per device and name, and per port. */
  ghost predicate Indexed(db: Db) {
    forall i, j | i in db.peripherals && j in db.peripherals && i != j && Active(db, i) && Active(db, j) ::
      var p, q := db.peripherals[i], db.peripherals[j];
      && (p.device == q.device ==> p.pin != q.pin && p.name != q.name)
      && (p.port.Some? ==> p.port != q.port)
  }

  ghost predicate ActiveAgree(db: Db, log: seq<Payload>) {
    forall id | id in db.peripherals && Active(db, id) ::
      NewestIs(log, TopicOfPeripheral(db.peripherals[id]), CreateOf(db.peripherals[id]))
  }

  ghost predicate Occupies(db: Db, p: Payload) {
    exists id :: id in db.peripherals && Active(db, id) && CreateOf(db.peripherals[id]) == p
  }

  /** A topic whose newest event is a create belongs to an active peripheral. */
  ghost predicate CreatesAgree(db: Db, log: seq<Payload>) {
    forall device: Id, name: string | Newest(log, PeripheralTopic(device, name)) >= 0 ::
      var p := log[Newest(log, PeripheralTopic(device, name))];
      p.placement.Some? ==> Occupies(db, p)
  }

  ghost predicate ConfigsAgree(db: Db, log: seq<Payload>) {
    forall d | d in db.devices && db.devices[d].username.Some? && !db.devices[d].deleted ::
      NewestIs(log, ConfigTopic(d), ConfigPush(d, TimezoneOf(db, db.devices[d].user)))
  }

  ghost predicate ProvisionedOnce(log: seq<Payload>) {
    forall i, j | 0 <= i < j < |log| && log[i].Provision? && log[j].Provision? :: log[i].device != log[j].device
  }

  /** A device is activated exactly when its credentials have been enqueued for provisioning, which happens once. */
  ghost predicate CredentialsAgree(db: Db, log: seq<Payload>) {
    && (forall d | d in db.devices :: db.devices[d].username.Some? == db.devices[d].password.Some?)
    && (forall d | d in db.devices && db.devices[d].username.Some? ::
          Provision(d, db.devices[d].username.value, db.devices[d].password.value) in log)
    && (forall p | p in log && p.Provision? ::
          && p.username == p.device && p.device in db.devices
          && db.devices[p.device].username == Some(p.username) && db.devices[p.device].password == Some(p.password))
    && ProvisionedOnce(log)
  }

  ghost predicate Agree(db: Db, log: seq<Payload>) {
    && TriggersAgree(db, log)
    && Indexed(db) && ActiveAgree(db, log) && CreatesAgree(db, log)
    && ConfigsAgree(db, log)
    && CredentialsAgree(db, log)
  }

  lemma Untouched(log: seq<Payload>, events: seq<Payload>, topic: Topic)
    requires forall k | 0 <= k < |events| :: !On(events[k], topic)
    ensures Newest(log + events, topic) == Newest(log, topic)
    ensures forall p :: NewestIs(log + events, topic, p) <==> NewestIs(log, topic, p)
  {
    NewestOfAppended(log, events, topic);
  }

  lemma Topmost(log: seq<Payload>, p: Payload, topic: Topic)
    requires On(p, topic)
    ensures NewestIs(log + [p], topic, p)
  {
    NewestOfAppended(log, [p], topic);
  }

  ghost predicate PeripheralsAgree(db: Db, log: seq<Payload>) {
    Indexed(db) && ActiveAgree(db, log) && CreatesAgree(db, log)
  }

  lemma TriggersKept(db: Db, db': Db, log: seq<Payload>, events: seq<Payload>)
    requires TriggersAgree(db, log) && db'.triggers == db.triggers
    requires forall k | 0 <= k < |events| :: !events[k].TriggerPush?
    ensures TriggersAgree(db', log + events)
  {
    forall id | id in db'.triggers
      ensures NewestIs(log + events, TriggerTopic(db.triggers[id].device, id), LastWord(id, db.triggers[id]))
    {
      Untouched(log, events, TriggerTopic(db.triggers[id].device, id));
    }
    TriggerLogKept(db, db', log, events);
  }

  lemma TriggerLogKept(db: Db, db': Db, log: seq<Payload>, events: seq<Payload>)
    requires TriggerLog(db, log) && db'.triggers == db.triggers
    requires forall k | 0 <= k < |events| :: !events[k].TriggerPush?
    ensures TriggerLog(db', log + events)
  {
    var all := log + events;
    assert forall i | 0 <= i < |all| && all[i].TriggerPush? :: i < |log| && all[i] == log[i] && log[i] in log;
  }

  /** Before a trigger is deleted all of its events are upserts. */
  lemma NoDeleteYet(db: Db, log: seq<Payload>, id: Id, i: nat)
    requires TriggersAgree(db, log) && i < |log| && log[i].TriggerPush? && log[i].trigger == id
    requires id in db.triggers ==> !db.triggers[id].deleted
    ensures id in db.triggers && log[i].body.Some?
  {
    assert log[i] in log;
    var topic := TriggerTopic(db.triggers[id].device, id);
    assert On(log[i], topic);
    var n := Newest(log, topic);
    assert NewestIs(log, topic, LastWord(id, db.triggers[id]));
    assert i <= n;
  }

  lemma TriggerLogWritten(db: Db, log: seq<Payload>, id: Id, t: Trigger)
    requires TriggersAgree(db, log)
    requires id in db.triggers ==> db.triggers[id].device == t.device && !db.triggers[id].deleted
    ensures TriggerLog(db.(triggers := db.triggers[id := t]), log + [LastWord(id, t)])
  {
    var all := log + [LastWord(id, t)];
    forall i, j | 0 <= i < j < |all| && all[i].TriggerPush? && all[j].TriggerPush? && all[i].trigger == all[j].trigger
      ensures all[i].body.Some?
    {
      assert all[i] == log[i];
      if j == |log| {
        NoDeleteYet(db, log, id, i);
      }
    }
  }

  lemma PeripheralsKept(db: Db, db': Db, log: seq<Payload>, events: seq<Payload>)
    requires PeripheralsAgree(db, log) && db'.peripherals == db.peripherals
    requires forall k | 0 <= k < |events| :: !events[k].PeripheralPush?
    ensures PeripheralsAgree(db', log + events)
  {
    forall device: Id, name: string
      ensures Newest(log + events, PeripheralTopic(device, name)) == Newest(log, PeripheralTopic(device, name))
    {
      Untouched(log, events, PeripheralTopic(device, name));
    }
    forall p | Occupies(db, p) ensures Occupies(db', p) {
      var i :| i in db.peripherals && Active(db, i) && CreateOf(db.peripherals[i]) == p;
      assert Active(db', i);
    }
    forall i | i in db'.peripherals && Active(db', i)
      ensures NewestIs(log + events, TopicOfPeripheral(db'.peripherals[i]), CreateOf(db'.peripherals[i]))
    {
      assert Active(db, i);
    }
    forall i, j | i in db'.peripherals && j in db'.peripherals && i != j && Active(db', i) && Active(db', j)
      ensures var p, q := db'.peripherals[i], db'.peripherals[j];
              (p.device == q.device ==> p.pin != q.pin && p.name != q.name) && (p.port.Some? ==> p.port != q.port)
    {
      assert Active(db, i) && Active(db, j);
    }
  }

  lemma ConfigsKept(db: Db, db': Db, log: seq<Payload>, events: seq<Payload>)
    requires ConfigsAgree(db, log)
    requires forall d | d in db'.devices && db'.devices[d].username.Some? && !db'.devices[d].deleted ::
               && d in db.devices && db.devices[d].username.Some? && !db.devices[d].deleted
               && TimezoneOf(db, db.devices[d].user) == TimezoneOf(db', db'.devices[d].user)
    requires forall k | 0 <= k < |events| :: !events[k].ConfigPush?
    ensures ConfigsAgree(db', log + events)
  {
    forall d | d in db'.devices && db'.devices[d].username.Some? && !db'.devices[d].deleted
      ensures NewestIs(log + events, ConfigTopic(d), ConfigPush(d, TimezoneOf(db', db'.devices[d].user)))
    {
      Untouched(log, events, ConfigTopic(d));
    }
  }

  lemma CredentialsKept(db: Db, db': Db, log: seq<Payload>, events: seq<Payload>)
    requires CredentialsAgree(db, log)
    requires forall d | d in db.devices :: d in db'.devices
    requires forall d | d in db'.devices ::
               if d in db.devices then db'.devices[d].username == db.devices[d].username && db'.devices[d].password == db.devices[d].password
               else db'.devices[d].username == None && db'.devices[d].password == None
    requires forall k | 0 <= k < |events| :: !events[k].Provision?
    ensures CredentialsAgree(db', log + events)
  {
    assert forall p | p in log + events && p.Provision? :: p in log;
    ProvisionedOnceKept(log, events);
  }

  lemma ProvisionedOnceKept(log: seq<Payload>, events: seq<Payload>)
    requires ProvisionedOnce(log) && forall k | 0 <= k < |events| :: !events[k].Provision?
    ensures ProvisionedOnce(log + events)
  {
    var all := log + events;
    assert forall i | 0 <= i < |all| && all[i].Provision? :: i < |log| && all[i] == log[i];
  }

  lemma ProvisionedFirst(log: seq<Payload>, p: Payload)
    requires ProvisionedOnce(log) && forall q | q in log && q.Provision? :: q.device != p.device
    ensures ProvisionedOnce(log + [p])
  {
    var all := log + [p];
    assert forall i | 0 <= i < |log| :: all[i] == log[i] && log[i] in log;
  }

  lemma TriggerWriteIsNewest(db: Db, log: seq<Payload>, id: Id, t: Trigger)
    requires TriggersAgree(db, log) && (id in db.triggers ==> db.triggers[id].device == t.device)
    ensures var triggers, log' := db.triggers[id := t], log + [LastWord(id, t)];
            forall i | i in triggers :: NewestIs(log', TriggerTopic(triggers[i].device, i), LastWord(i, triggers[i]))
  {
    var triggers, p := db.triggers[id := t], LastWord(id, t);
    forall i | i in triggers ensures NewestIs(log + [p], TriggerTopic(triggers[i].device, i), LastWord(i, triggers[i])) {
      if i == id {
        Topmost(log, p, TriggerTopic(t.device, id));
      } else {
        Untouched(log, [p], TriggerTopic(db.triggers[i].device, i));
      }
    }
  }

  /** Requests that write a trigger and one push for it. */
  lemma TriggerWriteAgrees(db: Db, log: seq<Payload>, id: Id, t: Trigger)
    requires Agree(db, log) && (id in db.triggers ==> db.triggers[id].device == t.device && !db.triggers[id].deleted)
    ensures Agree(db.(triggers := db.triggers[id := t]), log + [LastWord(id, t)])
  {
    var db', p := db.(triggers := db.triggers[id := t]), LastWord(id, t);
    TriggerWriteIsNewest(db, log, id, t);
    TriggerLogWritten(db, log, id, t);
    PeripheralsKept(db, db', log, [p]);
    ConfigsKept(db, db', log, [p]);
    CredentialsKept(db, db', log, [p]);
  }

  lemma OnlyOwnerOfTopic(db: Db, i: Id, p: Peripheral)
    requires Active(db, i) && (db.peripherals[i].device == p.device ==> db.peripherals[i].pin != p.pin)
    ensures TopicOfPeripheral(db.peripherals[i]) != TopicOfPeripheral(p)
  {
    var q := db.peripherals[i];
    if q.device == p.device && KindPin(q.kind, q.pin) == KindPin(p.kind, p.pin) {
      KindPinInjective(q.kind, q.pin, p.kind, p.pin);
    }
  }

  lemma RegisteredIndexed(db: Db, id: Id, p: Peripheral)
    requires Indexed(db) && id !in db.peripherals
    requires !NameTaken(db, p.device, p.name) && !PinTaken(db, p.device, p.pin)
    requires p.port.Some? ==> !PortTaken(db, p.port.value)
    ensures Indexed(db.(peripherals := db.peripherals[id := p]))
  {
    var db' := db.(peripherals := db.peripherals[id := p]);
    assert forall i | i in db.peripherals && Active(db', i) :: Active(db, i);
  }

  lemma RegistrationAgrees(db: Db, log: seq<Payload>, id: Id, p: Peripheral)
    requires PeripheralsAgree(db, log) && id !in db.peripherals && !p.deleted
    requires !NameTaken(db, p.device, p.name) && !PinTaken(db, p.device, p.pin)
    requires p.port.Some? ==> !PortTaken(db, p.port.value)
    ensures PeripheralsAgree(db.(peripherals := db.peripherals[id := p]), log + [CreateOf(p)])
  {
    var db', log' := db.(peripherals := db.peripherals[id := p]), log + [CreateOf(p)];
    RegisteredIndexed(db, id, p);
    forall i | i in db'.peripherals && Active(db', i)
      ensures NewestIs(log', TopicOfPeripheral(db'.peripherals[i]), CreateOf(db'.peripherals[i]))
    {
      if i == id {
        Topmost(log, CreateOf(p), TopicOfPeripheral(p));
      } else {
        assert Active(db, i);
        OnlyOwnerOfTopic(db, i, p);
        Untouched(log, [CreateOf(p)], TopicOfPeripheral(db.peripherals[i]));
      }
    }
    assert Active(db', id) && Occupies(db', CreateOf(p));
    CreatesAfter(db, db', log, CreateOf(p), id);
  }

  /** Appending a push keeps CreatesAgree if it is backed itself and every other occupant is still there. */
  lemma CreatesAfter(db: Db, db': Db, log: seq<Payload>, p: Payload, changed: Id)
    requires CreatesAgree(db, log) && p.PeripheralPush?
    requires p.placement.Some? ==> Occupies(db', p)
    requires forall i | i in db.peripherals && Active(db, i) && i != changed ::
               Active(db', i) && db'.peripherals[i] == db.peripherals[i]
    requires Active(db, changed) ==> TopicOf(CreateOf(db.peripherals[changed])) == TopicOf(p)
    ensures CreatesAgree(db', log + [p])
  {
    var log' := log + [p];
    forall device: Id, name: string | Newest(log', PeripheralTopic(device, name)) >= 0
      ensures var q := log'[Newest(log', PeripheralTopic(device, name))]; q.placement.Some? ==> Occupies(db', q)
    {
      var topic := PeripheralTopic(device, name);
      if On(p, topic) {
        Topmost(log, p, topic);
      } else {
        Untouched(log, [p], topic);
        var q := log'[Newest(log', topic)];
        if q.placement.Some? {
          assert Occupies(db, q);
          var i :| i in db.peripherals && Active(db, i) && CreateOf(db.peripherals[i]) == q;
          assert Active(db', i) && CreateOf(db'.peripherals[i]) == q;
        }
      }
    }
  }

  function Removed(db: Db, id: Id): Db
    requires id in db.peripherals
  {
    db.(peripherals := db.peripherals[id := db.peripherals[id].(deleted := true)])
  }

  lemma RemovedIndexed(db: Db, id: Id)
    requires Indexed(db) && Active(db, id)
    ensures Indexed(Removed(db, id))
  {
    assert forall i | Active(Removed(db, id), i) :: i != id && Active(db, i);
  }

  lemma RemovedActiveAgree(db: Db, log: seq<Payload>, id: Id)
    requires Indexed(db) && ActiveAgree(db, log) && Active(db, id)
    ensures var p := db.peripherals[id];
            ActiveAgree(Removed(db, id), log + [PeripheralPush(p.device, KindPin(p.kind, p.pin), None)])
  {
    var p, db' := db.peripherals[id], Removed(db, id);
    var gone := PeripheralPush(p.device, KindPin(p.kind, p.pin), None);
    forall i | i in db'.peripherals && Active(db', i)
      ensures NewestIs(log + [gone], TopicOfPeripheral(db'.peripherals[i]), CreateOf(db'.peripherals[i]))
    {
      assert i != id && Active(db, i);
      OnlyOwnerOfTopic(db, i, p);
      Untouched(log, [gone], TopicOfPeripheral(db.peripherals[i]));
    }
  }

  lemma RemovalAgrees(db: Db, log: seq<Payload>, id: Id)
    requires PeripheralsAgree(db, log) && Active(db, id)
    ensures var p := db.peripherals[id];
            PeripheralsAgree(Removed(db, id), log + [PeripheralPush(p.device, KindPin(p.kind, p.pin), None)])
  {
    var p := db.peripherals[id];
    RemovedIndexed(db, id);
    RemovedActiveAgree(db, log, id);
    CreatesAfter(db, Removed(db, id), log, PeripheralPush(p.device, KindPin(p.kind, p.pin), None), id);
  }

  lemma ConfigPushesNewest(log: seq<Payload>, listed: seq<Id>, timezone: string, d: Id)
    requires forall i, j | 0 <= i < j < |listed| :: listed[i] != listed[j]
    ensures d in listed ==> NewestIs(log + ConfigPushes(listed, timezone), ConfigTopic(d), ConfigPush(d, timezone))
    ensures d !in listed ==> Newest(log + ConfigPushes(listed, timezone), ConfigTopic(d)) == Newest(log, ConfigTopic(d))
  {
    var events := ConfigPushes(listed, timezone);
    if d in listed {
      NewestOfAppended(log, events, ConfigTopic(d));
      var k :| 0 <= k < |listed| && listed[k] == d;
      assert On(events[k], ConfigTopic(d));
    } else {
      assert forall k | 0 <= k < |events| :: listed[k] in listed;
      Untouched(log, events, ConfigTopic(d));
    }
  }

  lemma TimezoneChangeAgrees(db: Db, log: seq<Payload>, user: Id, timezone: string, listed: seq<Id>)
    requires Agree(db, log) && ListsDevices(db, user, listed)
    ensures Agree(db.(timezones := db.timezones[user := timezone]), log + ConfigPushes(listed, timezone))
  {
    var db', events := db.(timezones := db.timezones[user := timezone]), ConfigPushes(listed, timezone);
    TriggersKept(db, db', log, events);
    PeripheralsKept(db, db', log, events);
    CredentialsKept(db, db', log, events);
    forall d | d in db'.devices && db'.devices[d].username.Some? && !db'.devices[d].deleted
      ensures NewestIs(log + events, ConfigTopic(d), ConfigPush(d, TimezoneOf(db', db'.devices[d].user)))
    {
      ConfigPushesNewest(log, listed, timezone, d);
      assert d in listed <==> Owned(db, d, user);
    }
  }

  lemma ActivationCredentialsAgree(db: Db, log: seq<Payload>, device: Id, password: string)
    requires CredentialsAgree(db, log) && Activate(db, device, password).Commit?
    ensures var Commit(db', events, _) := Activate(db, device, password); CredentialsAgree(db', log + events)
  {
    var Commit(db', events, _) := Activate(db, device, password);
    assert forall p | p in log + events && p.Provision? :: p in log || p == events[0];
    assert forall p | p in log :: p in log + events;
    assert events[0] in log + events;
    ProvisionedFirst(log, events[0]);
    ProvisionedOnceKept(log + [events[0]], [events[1]]);
    assert log + [events[0]] + [events[1]] == log + events;
  }

  lemma ActivationAgrees(db: Db, log: seq<Payload>, device: Id, password: string)
    requires Agree(db, log) && Activate(db, device, password).Commit?
    ensures Agree(Activate(db, device, password).db, log + Activate(db, device, password).events)
  {
    var Commit(db', events, _) := Activate(db, device, password);
    TriggersKept(db, db', log, events);
    PeripheralsKept(db, db', log, events);
    forall d | d in db'.devices && db'.devices[d].username.Some? && !db'.devices[d].deleted
      ensures NewestIs(log + events, ConfigTopic(d), ConfigPush(d, TimezoneOf(db', db'.devices[d].user)))
    {
      if d == device {
        assert log + events == log + [events[0]] + [events[1]];
        Topmost(log + [events[0]], events[1], ConfigTopic(device));
      } else {
        Untouched(log, events, ConfigTopic(d));
      }
    }
    ActivationCredentialsAgree(db, log, device, password);
  }

  lemma QuietRequestFrame(db: Db, r: Request, d: Id)
    requires r.SignIn? || r.CodeClaim? || r.DeviceDeletion?
    ensures var db' := Handle(db, r).0;
            && Handle(db, r).1 == []
            && db'.triggers == db.triggers && db'.peripherals == db.peripherals
            && (d in db.devices ==> d in db'.devices && db'.devices[d].(deleted := db.devices[d].deleted) == db.devices[d])
            && (d in db.devices && db.devices[d].deleted ==> db'.devices[d].deleted)
            && (d in db'.devices && d !in db.devices ==> db'.devices[d].username == None && db'.devices[d].password == None)
            && (d in db.devices ==> TimezoneOf(db', db.devices[d].user) == TimezoneOf(db, db.devices[d].user))
  {
  }

  /** Requests that enqueue nothing. */
  lemma QuietRequestAgrees(db: Db, log: seq<Payload>, r: Request)
    requires Agree(db, log) && (r.SignIn? || r.CodeClaim? || r.DeviceDeletion?)
    ensures Agree(Handle(db, r).0, log + Handle(db, r).1)
  {
    var db' := Handle(db, r).0;
    forall d: Id
      ensures d in db.devices ==> d in db'.devices && db'.devices[d].(deleted := db.devices[d].deleted) == db.devices[d]
      ensures d in db.devices && db.devices[d].deleted ==> db'.devices[d].deleted
      ensures d in db'.devices && d !in db.devices ==> db'.devices[d].username == None && db'.devices[d].password == None
      ensures d in db.devices ==> TimezoneOf(db', db.devices[d].user) == TimezoneOf(db, db.devices[d].user)
    {
      QuietRequestFrame(db, r, d);
    }
    QuietRequestFrame(db, r, "");
    TriggersKept(db, db', log, []);
    PeripheralsKept(db, db', log, []);
    ConfigsKept(db, db', log, []);
    CredentialsKept(db, db', log, []);
  }

  lemma RegistrationRequestAgrees(db: Db, log: seq<Payload>, r: Request)
    requires PeripheralsAgree(db, log) && r.Registration?
    ensures PeripheralsAgree(Handle(db, r).0, log + Handle(db, r).1)
  {
    var (db', events) := Handle(db, r);
    if events == [] {
      assert log + events == log;
    } else {
      RegistrationAgrees(db, log, r.id, db'.peripherals[r.id]);
    }
  }

  lemma RemovalRequestAgrees(db: Db, log: seq<Payload>, r: Request)
    requires PeripheralsAgree(db, log) && r.Removal?
    ensures PeripheralsAgree(Handle(db, r).0, log + Handle(db, r).1)
  {
    if Handle(db, r).1 == [] {
      assert log + Handle(db, r).1 == log;
    } else {
      RemovalAgrees(db, log, r.id);
    }
  }

  lemma PeripheralRequestFrame(db: Db, r: Request)
    requires r.Registration? || r.Removal?
    ensures var (db', events) := Handle(db, r);
            && db'.triggers == db.triggers && db'.devices == db.devices && db'.timezones == db.timezones
            && forall k | 0 <= k < |events| :: events[k].PeripheralPush?
  {
  }

  lemma PeripheralRequestAgrees(db: Db, log: seq<Payload>, r: Request)
    requires Agree(db, log) && (r.Registration? || r.Removal?)
    ensures Agree(Handle(db, r).0, log + Handle(db, r).1)
  {
    var (db', events) := Handle(db, r);
    PeripheralRequestFrame(db, r);
    TriggersKept(db, db', log, events);
    ConfigsKept(db, db', log, events);
    CredentialsKept(db, db', log, events);
    if r.Registration? {
      RegistrationRequestAgrees(db, log, r);
    } else {
      RemovalRequestAgrees(db, log, r);
    }
  }

  lemma TriggerRequestAgrees(db: Db, log: seq<Payload>, r: Request)
    requires Agree(db, log) && (r.TriggerCreation? || r.TriggerUpdate? || r.TriggerDeletion?)
    ensures Agree(Handle(db, r).0, log + Handle(db, r).1)
  {
    var (db', events) := Handle(db, r);
    if events == [] {
      assert log + events == log;
    } else {
      TriggerWriteAgrees(db, log, r.id, db'.triggers[r.id]);
    }
  }

  /** Every request, accepted or refused, leaves the newest event on every topic in agreement with the tables. */
  lemma RequestKeepsAgreement(db: Db, log: seq<Payload>, r: Request)
    requires Agree(db, log) && Faithful(db, r)
    ensures Agree(Handle(db, r).0, log + Handle(db, r).1)
  {
    match r
    case TimezoneChange(user, timezone, known, listed) =>
      if known && user in db.timezones {
        TimezoneChangeAgrees(db, log, user, timezone, listed);
      } else {
        assert log + Handle(db, r).1 == log;
      }
    case Activation(device, password) =>
      if Activate(db, device, password).Commit? {
        ActivationAgrees(db, log, device, password);
      } else {
        assert log + Handle(db, r).1 == log;
      }
    case Registration(_, _, _, _, _, _, _, _) => PeripheralRequestAgrees(db, log, r);
    case Removal(_, _, _) => PeripheralRequestAgrees(db, log, r);
    case SignIn(_) => QuietRequestAgrees(db, log, r);
    case CodeClaim(_, _) => QuietRequestAgrees(db, log, r);
    case DeviceDeletion(_, _) => QuietRequestAgrees(db, log, r);
    case _ => TriggerRequestAgrees(db, log, r);
  }
}
