/**
 * Why the credential of a provisioned device needs its conditions: runs in which the only provision event of an
 * activated device is completed, and the broker holds its credential without the role, or no credential.
 */
module BrokenCredentials {
  import opened Wrappers
  import opened Calls
  import opened Events
  import opened Outbox
  import opened Delivery
  import opened Tables
  import opened Services
  import M = SystemMachine
  import C = Convergence
  import R = Readiness

  type Sys = M.Sys

  const FINE := Outcome(Accepted, Accepted, Accepted, Accepted, Accepted, true, false)
  const LATE_CREATE := FINE.(create := Failed(true))
  const REFUSED_ATTACH := FINE.(attach := Failed(false), conflict := true)

  // ---- One activated device ---------------------------------------------------------------------

  /** One activated device, its provision and config rows, the workers of these two types, and the credentials. */
  datatype Scene = Scene(provision: Row, config: Row, provisioner: Worker, configurer: Worker, creds: map<string, Credential>)

  predicate OnStage(w: World, v: Scene) {
    && w.core.rows == [v.provision, v.config] && w.core.creds == v.creds
    && w.workers.Keys == REGISTERED
    && w.workers[PROVISION] == v.provisioner && w.workers[CONFIG_PUSH] == v.configurer
    && w.workers[TRIGGER_PUSH].queue == [] && w.workers[PERIPHERAL_PUSH].queue == []
  }

  predicate Staged(s: Sys, d: Id, password: string, v: Scene) {
    && d in s.db.devices && s.db.devices[d].password == Some(password) && !s.db.devices[d].deleted
    && v.provision.payload == Provision(d, d, password) && v.config.payload.ConfigPush?
    && v.provision.createdAt == v.config.createdAt
    && OnStage(s.world, v)
  }

  lemma Activated(user: Id, d: Id, password: string, maxAttempts: nat) returns (s: Sys, v: Scene)
    ensures M.Reachable(s, maxAttempts) && Staged(s, d, password, v)
    ensures v.provision == NewRow(Provision(d, d, password), s.now, 30) && v.config == NewRow(ConfigPush(d, "UTC"), s.now, 30)
    ensures v.provisioner == v.configurer == Worker([], Start) && v.creds == map[]
  {
    M.InitialReachable(maxAttempts);
    C.InitialWorkers();
    s := Serves(M.INITIAL, CodeClaim(user, d), maxAttempts);
    assert s.db.devices == map[d := Device(user, None, None, false)];
    s := Serves(s, Activation(d, password), maxAttempts);
    v := Scene(NewRow(Provision(d, d, password), s.now, 30), NewRow(ConfigPush(d, "UTC"), s.now, 30),
               Worker([], Start), Worker([], Start), map[]);
    assert s.world.core.rows == [v.provision, v.config];
  }

  /** A request that calls no broker. */
  lemma Serves(s: Sys, r: Request, maxAttempts: nat) returns (s': Sys)
    requires M.Reachable(s, maxAttempts) && (r.CodeClaim? || r.Activation?)
    ensures M.Reachable(s', maxAttempts)
    ensures s'.db == Handle(s.db, r).0 && s'.now == s.now + 1 && s'.world.workers == s.world.workers
    ensures s'.world.core == s.world.core.(rows := Enqueued(s.world.core.rows, Handle(s.db, r).1, s'.now))
  {
    M.ReachableNext(s, M.Serve(r, Accepted, Accepted), maxAttempts);
    s' := M.Served(s, r, Accepted, Accepted);
  }

  function EventOf(id: nat, r: Row): Event {
    Event(id, r.payload, r.attempts)
  }

  function Taken(r: Row, now: int): Row {
    r.(status := Processing, claimedAt := now)
  }

  lemma OfTypeTwo(d: Event, e: Event, t: string)
    ensures OfType([d], t) == if TypeOf(d.payload) == t then [d] else []
    ensures OfType([d, e], t) == OfType([d], t) + OfType([e], t)
  {
    assert [d, e][1..] == [e] && [e][1..] == [] && [d][1..] == [];
    OfTypeHead([d, e], t);
    OfTypeHead([d], t);
    OfTypeHead([e], t);
  }

  lemma TypesDiffer()
    ensures PROVISION != CONFIG_PUSH && PROVISION != TRIGGER_PUSH && PROVISION != PERIPHERAL_PUSH
    ensures CONFIG_PUSH != TRIGGER_PUSH && CONFIG_PUSH != PERIPHERAL_PUSH
  {
    assert |PROVISION| == 21 && |CONFIG_PUSH| == 18 && |PERIPHERAL_PUSH| == 15 && |TRIGGER_PUSH| == 12;
  }

  lemma SpawnAt(events: seq<Event>, t: string)
    requires t in REGISTERED
    ensures Spawn(events)[t] == Worker(OfType(events, t), Start)
  {
  }

  lemma SpawnTwo(d: Event, e: Event, t: string)
    requires d.payload.Provision? && e.payload.ConfigPush? && t in REGISTERED
    ensures Spawn([d])[t] == Worker(if t == PROVISION then [d] else [], Start)
    ensures Spawn([d, e])[t] == Worker(if t == PROVISION then [d] else if t == CONFIG_PUSH then [e] else [], Start)
  {
    TypesDiffer();
    SpawnAt([d], t);
    SpawnAt([d, e], t);
    OfTypeTwo(d, e, t);
    OfTypeTwo(e, d, t);
  }

  lemma SpawnScene(d: Event, e: Event)
    requires d.payload.Provision? && e.payload.ConfigPush?
    ensures Spawn([d])[PROVISION] == Worker([d], Start) && Spawn([d, e])[PROVISION] == Worker([d], Start)
    ensures Spawn([d])[CONFIG_PUSH] == Worker([], Start) && Spawn([d, e])[CONFIG_PUSH] == Worker([e], Start)
    ensures Spawn([d])[TRIGGER_PUSH].queue == [] && Spawn([d, e])[TRIGGER_PUSH].queue == []
    ensures Spawn([d])[PERIPHERAL_PUSH].queue == [] && Spawn([d, e])[PERIPHERAL_PUSH].queue == []
  {
    TypesDiffer();
    SpawnTwo(d, e, PROVISION);
    SpawnTwo(d, e, CONFIG_PUSH);
    SpawnTwo(d, e, TRIGGER_PUSH);
    SpawnTwo(d, e, PERIPHERAL_PUSH);
  }

  lemma IdleStage(w: World, v: Scene)
    requires OnStage(w, v) && v.provisioner.queue == [] && v.configurer.queue == []
    ensures AllIdle(w)
  {
  }

  lemma BothRows(a: Row, b: Row, now: int)
    requires a.status == Pending && b.status == Pending && a.createdAt == b.createdAt
    ensures IsClaim([a, b], now, BATCH_SIZE, [0, 1]) && InCreationOrder([a, b], [0, 1])
    ensures Claimed([a, b], [0, 1], now) == [Taken(a, now), Taken(b, now)]
    ensures EventsOf([a, b], [0, 1]) == [EventOf(0, a), EventOf(1, b)]
  {
  }

  lemma FirstRow(a: Row, b: Row, now: int)
    requires a.status == Pending && b.status == Completed
    ensures IsClaim([a, b], now, BATCH_SIZE, [0]) && InCreationOrder([a, b], [0])
    ensures Claimed([a, b], [0], now) == [Taken(a, now), b] && EventsOf([a, b], [0]) == [EventOf(0, a)]
  {
  }

  function BothClaimed(v: Scene, now: int): Scene {
    v.(provision := Taken(v.provision, now), config := Taken(v.config, now),
       provisioner := Worker([EventOf(0, v.provision)], Start), configurer := Worker([EventOf(1, v.config)], Start))
  }

  function FirstClaimed(v: Scene, now: int): Scene {
    v.(provision := Taken(v.provision, now), provisioner := Worker([EventOf(0, v.provision)], Start), configurer := Worker([], Start))
  }

  lemma BothOnStage(w: World, v: Scene, now: int)
    requires OnStage(w, v) && v.provision.status == Pending && v.config.status == Pending
    requires v.provision.createdAt == v.config.createdAt && v.provision.payload.Provision? && v.config.payload.ConfigPush?
    ensures IsClaim(w.core.rows, now, BATCH_SIZE, [0, 1]) && InCreationOrder(w.core.rows, [0, 1])
    ensures OnStage(World(w.core.(rows := Claimed(w.core.rows, [0, 1], now)), Spawn(EventsOf(w.core.rows, [0, 1]))), BothClaimed(v, now))
  {
    BothRows(v.provision, v.config, now);
    SpawnScene(EventOf(0, v.provision), EventOf(1, v.config));
  }

  lemma FirstOnStage(w: World, v: Scene, now: int)
    requires OnStage(w, v) && v.provision.status == Pending && v.config.status == Completed
    requires v.provision.payload.Provision? && v.config.payload.ConfigPush?
    ensures IsClaim(w.core.rows, now, BATCH_SIZE, [0]) && InCreationOrder(w.core.rows, [0])
    ensures OnStage(World(w.core.(rows := Claimed(w.core.rows, [0], now)), Spawn(EventsOf(w.core.rows, [0]))), FirstClaimed(v, now))
  {
    FirstRow(v.provision, v.config, now);
    SpawnScene(EventOf(0, v.provision), EventOf(1, v.config));
  }

  lemma TickedWorld(s: Sys, batch: seq<nat>, maxAttempts: nat)
    requires M.Reachable(s, maxAttempts) && M.Enabled(s, M.Claim(batch))
    ensures var s', core := M.Ticked(s, batch), s.world.core;
            && M.Reachable(s', maxAttempts) && s'.db == s.db
            && s'.world == World(core.(rows := Claimed(core.rows, batch, s.now)), Spawn(EventsOf(core.rows, batch)))
  {
    M.ReachableNext(s, M.Claim(batch), maxAttempts);
  }

  /** A tick claims both rows. */
  lemma ClaimsBoth(s: Sys, d: Id, password: string, v: Scene, maxAttempts: nat) returns (s': Sys, v': Scene)
    requires M.Reachable(s, maxAttempts) && Staged(s, d, password, v) && v.provisioner.queue == [] && v.configurer.queue == []
    requires v.provision.status == Pending && v.config.status == Pending
    ensures M.Reachable(s', maxAttempts) && Staged(s', d, password, v')
    ensures v' == BothClaimed(v, s.now)
  {
    IdleStage(s.world, v);
    BothOnStage(s.world, v, s.now);
    TickedWorld(s, [0, 1], maxAttempts);
    s', v' := M.Ticked(s, [0, 1]), BothClaimed(v, s.now);
  }

  /** A tick claims the provision row, once the config row is completed. */
  lemma ClaimsProvision(s: Sys, d: Id, password: string, v: Scene, maxAttempts: nat) returns (s': Sys, v': Scene)
    requires M.Reachable(s, maxAttempts) && Staged(s, d, password, v) && v.provisioner.queue == [] && v.configurer.queue == []
    requires v.provision.status == Pending && v.config.status == Completed
    ensures M.Reachable(s', maxAttempts) && Staged(s', d, password, v')
    ensures v' == FirstClaimed(v, s.now)
  {
    IdleStage(s.world, v);
    FirstOnStage(s.world, v, s.now);
    TickedWorld(s, [0], maxAttempts);
    s', v' := M.Ticked(s, [0]), FirstClaimed(v, s.now);
  }

  /** The provisioning worker makes its next call. */
  lemma ProvisionerCalls(s: Sys, d: Id, password: string, v: Scene, out: Outcome, maxAttempts: nat) returns (s': Sys, v': Scene)
    requires M.Reachable(s, maxAttempts) && Staged(s, d, password, v)
    requires v.provisioner.queue != [] && v.provisioner.queue[0].payload == v.provision.payload && PhaseRank(v.provisioner.phase) > 0
    ensures M.Reachable(s', maxAttempts) && Staged(s', d, password, v')
    ensures var (creds, next) := ProvisionEffect(v.creds, d, password, v.provisioner.phase, out);
            v' == v.(provisioner := Worker(v.provisioner.queue, next), creds := creds)
  {
    M.ReachableNext(s, M.Work(PROVISION, out), maxAttempts);
    s' := M.Worked(s, PROVISION, out, maxAttempts);
    R.ProvisionStep(s, out, maxAttempts);
    var (creds, next) := ProvisionEffect(v.creds, d, password, v.provisioner.phase, out);
    v' := v.(provisioner := Worker(v.provisioner.queue, next), creds := creds);
    assert s'.db == s.db && s'.now == s.now;
  }

  function Resolved(r: Row, e: Event, succeeded: bool, maxAttempts: nat): Row {
    if succeeded then r.(status := Completed) else FailedRow(r, e.attempts, maxAttempts)
  }

  /** The provisioning worker writes the result of its attempt. */
  lemma ProvisionerWrites(s: Sys, d: Id, password: string, v: Scene, maxAttempts: nat) returns (s': Sys, v': Scene)
    requires M.Reachable(s, maxAttempts) && Staged(s, d, password, v)
    requires |v.provisioner.queue| == 1 && v.provisioner.queue[0].id == 0 && PhaseRank(v.provisioner.phase) == 0
    ensures M.Reachable(s', maxAttempts) && Staged(s', d, password, v')
    ensures v' == v.(provision := Resolved(v.provision, v.provisioner.queue[0], v.provisioner.phase == Succeeded, maxAttempts),
                     provisioner := Worker([], Start))
  {
    M.ReachableNext(s, M.Work(PROVISION, FINE), maxAttempts);
    s' := M.Worked(s, PROVISION, FINE, maxAttempts);
    C.SettledRow(s, PROVISION, FINE, maxAttempts);
    v' := v.(provision := Resolved(v.provision, v.provisioner.queue[0], v.provisioner.phase == Succeeded, maxAttempts),
             provisioner := Worker([], Start));
    assert v.provisioner.queue[1..] == [];
    assert s'.world.core.rows == [v'.provision, v'.config];
    assert s'.db == s.db && s'.now == s.now;
  }

  lemma ConfigurerPublishes(s: Sys, d: Id, password: string, v: Scene, maxAttempts: nat) returns (s': Sys, v': Scene)
    requires M.Reachable(s, maxAttempts) && Staged(s, d, password, v)
    requires v.configurer.queue != [] && v.configurer.queue[0].payload.ConfigPush? && v.configurer.phase == Start
    ensures M.Reachable(s', maxAttempts) && Staged(s', d, password, v')
    ensures v' == v.(configurer := Worker(v.configurer.queue, Succeeded))
  {
    M.ReachableNext(s, M.Work(CONFIG_PUSH, FINE), maxAttempts);
    s' := M.Worked(s, CONFIG_PUSH, FINE, maxAttempts);
    v' := v.(configurer := Worker(v.configurer.queue, Succeeded));
    R.PushCallEffect(s, CONFIG_PUSH, FINE, maxAttempts);
    assert s'.world.workers[CONFIG_PUSH] == v'.configurer;
    assert s'.db == s.db && s'.now == s.now;
  }

  lemma ConfigurerWrites(s: Sys, d: Id, password: string, v: Scene, maxAttempts: nat) returns (s': Sys, v': Scene)
    requires M.Reachable(s, maxAttempts) && Staged(s, d, password, v)
    requires |v.configurer.queue| == 1 && v.configurer.queue[0].id == 1 && v.configurer.phase == Succeeded
    ensures M.Reachable(s', maxAttempts) && Staged(s', d, password, v')
    ensures v' == v.(config := v.config.(status := Completed), configurer := Worker([], Start))
  {
    M.ReachableNext(s, M.Work(CONFIG_PUSH, FINE), maxAttempts);
    s' := M.Worked(s, CONFIG_PUSH, FINE, maxAttempts);
    C.SettledRow(s, CONFIG_PUSH, FINE, maxAttempts);
    v' := v.(config := v.config.(status := Completed), configurer := Worker([], Start));
    assert v.configurer.queue[1..] == [];
    assert s'.world.core.rows == [v'.provision, v'.config];
    assert s'.db == s.db && s'.now == s.now;
  }

  // ---- The two runs -----------------------------------------------------------------------------

  /** Provisioning the device is completed. */
  ghost predicate Provisioned(s: Sys, d: Id, password: string, maxAttempts: nat) {
    && M.Reachable(s, maxAttempts)
    && d in s.db.devices && s.db.devices[d].password == Some(password) && !s.db.devices[d].deleted
    && exists i :: 0 <= i < |s.world.core.rows|
                   && s.world.core.rows[i].payload == Provision(d, d, password) && s.world.core.rows[i].status == Completed
  }

  lemma CompletedScene(s: Sys, d: Id, password: string, v: Scene, maxAttempts: nat)
    requires M.Reachable(s, maxAttempts) && Staged(s, d, password, v) && v.provision.status == Completed
    ensures Provisioned(s, d, password, maxAttempts) && s.world.core.creds == v.creds
  {
    assert s.world.core.rows[0] == v.provision;
  }

  lemma FirstAttemptIsLate(user: Id, d: Id, password: string, maxAttempts: nat) returns (s: Sys, v: Scene)
    requires 1 < maxAttempts
    ensures M.Reachable(s, maxAttempts) && Staged(s, d, password, v)
    ensures v.provision.status == Pending && v.config.status == Completed && v.creds == map[d := Credential(password, false)]
    ensures v.provisioner.queue == [] && v.configurer.queue == []
  {
    s, v := Activated(user, d, password, maxAttempts);
    s, v := ClaimsBoth(s, d, password, v, maxAttempts);
    s, v := ProvisionerCalls(s, d, password, v, LATE_CREATE, maxAttempts);
    s, v := ProvisionerWrites(s, d, password, v, maxAttempts);
    s, v := ConfigurerPublishes(s, d, password, v, maxAttempts);
    s, v := ConfigurerWrites(s, d, password, v, maxAttempts);
  }

  /** A create reports an error although it has taken effect; the retry is answered 409 and completes the event. */
  lemma LateCreateLeavesNoRole(user: Id, d: Id, password: string, maxAttempts: nat) returns (s: Sys)
    requires 1 < maxAttempts
    ensures Provisioned(s, d, password, maxAttempts)
    ensures d in s.world.core.creds && s.world.core.creds[d] == Credential(password, false)
  {
    var v: Scene;
    s, v := FirstAttemptIsLate(user, d, password, maxAttempts);
    s, v := ClaimsProvision(s, d, password, v, maxAttempts);
    s, v := ProvisionerCalls(s, d, password, v, FINE, maxAttempts);
    s, v := ProvisionerWrites(s, d, password, v, maxAttempts);
    CompletedScene(s, d, password, v, maxAttempts);
  }

  lemma AttachIsRefused(user: Id, d: Id, password: string, maxAttempts: nat) returns (s: Sys, v: Scene)
    ensures M.Reachable(s, maxAttempts) && Staged(s, d, password, v)
    ensures v.creds == map[] && |v.provisioner.queue| == 1 && v.provisioner.queue[0].id == 0 && v.provisioner.phase == Succeeded
  {
    s, v := Activated(user, d, password, maxAttempts);
    s, v := ClaimsBoth(s, d, password, v, maxAttempts);
    s, v := ProvisionerCalls(s, d, password, v, REFUSED_ATTACH, maxAttempts);
    assert v.creds == map[d := Credential(password, false)];
    s, v := ProvisionerCalls(s, d, password, v, REFUSED_ATTACH, maxAttempts);
    s, v := ProvisionerCalls(s, d, password, v, REFUSED_ATTACH, maxAttempts);
  }

  /** Attaching the role is refused with 409, the credential is deleted again, and the event is completed. */
  lemma RefusedAttachLeavesNothing(user: Id, d: Id, password: string, maxAttempts: nat) returns (s: Sys)
    ensures Provisioned(s, d, password, maxAttempts)
    ensures d !in s.world.core.creds
  {
    var v: Scene;
    s, v := AttachIsRefused(user, d, password, maxAttempts);
    s, v := ProvisionerWrites(s, d, password, v, maxAttempts);
    CompletedScene(s, d, password, v, maxAttempts);
  }
}
