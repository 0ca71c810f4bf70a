/**
 * The whole system as a step machine: serial writer requests, and one runner whose ticks claim batches in
 * creation order and whose workers take turns in any order, with arbitrary results of every broker call.
 */
module SystemMachine {
  import opened Calls
  import opened Events
  import opened Outbox
  import opened Delivery
  import opened Tables
  import opened Services

  /**
   * Six fields only record history. `published` holds the row whose call was the last to reach a topic.
   * `tainted` holds the topics on which an event was overtaken or a row write was lost, until the newest event
   * of the topic is claimed when all older ones are completed or dead; `base` then holds the row of that event.
   * `cleared` tells of the last clearing call made for a topic whether it took effect.
   * `orphans` holds the usernames for which a create reported an error after it had taken effect, or neither the
   * attach nor the compensating delete took effect. `dropped` holds those for which the compensating delete took
   * effect after an attach refused with 409, until a later create takes effect.
   */
  datatype Sys = Sys(db: Db, world: World, now: int,
                     published: map<Topic, nat>, tainted: set<Topic>, base: map<Topic, nat>, cleared: map<Topic, bool>,
                     orphans: set<string>, dropped: set<string>)

  datatype Step =
    | Serve(request: Request, detach: Call, remove: Call)
    | Wait(time: nat)
    | Claim(batch: seq<nat>)
    | Work(eventType: string, out: Outcome)

  const INITIAL := Sys(Db(map[], map[], map[], map[]), World(Core([], map[], map[]), Spawn([])), 0, map[], {}, map[], map[], {}, {})

  function Log(s: Sys): seq<Payload> {
    Payloads(s.world.core.rows)
  }

  ghost predicate Enabled(s: Sys, step: Step) {
    match step
    case Serve(request, _, _) => Faithful(s.db, request)
    case Wait(_) => true
    case Claim(batch) =>
      // A tick waits for all of its workers, so the next claim finds them idle.
      && AllIdle(s.world)
      && IsClaim(s.world.core.rows, s.now, BATCH_SIZE, batch)
      && InCreationOrder(s.world.core.rows, batch)
    case Work(eventType, _) => Busy(s.world, eventType)
  }

  /** Deleting a device also detaches its role and deletes its credential at the broker, each at best effort. */
  function CredsAfter(db: Db, request: Request, creds: map<string, Credential>, detach: Call, remove: Call): map<string, Credential> {
    if request.DeviceDeletion? && Owned(db, request.device, request.user) && db.devices[request.device].username.Some? then
      var username := db.devices[request.device].username.value;
      var detached := if TakesEffect(detach) && username in creds then creds[username := creds[username].(role := false)] else creds;
      if detach.Accepted? && TakesEffect(remove) then detached - {username} else detached
    else creds
  }

  function Served(s: Sys, request: Request, detach: Call, remove: Call): Sys {
    var (db, events) := Handle(s.db, request);
    var core := s.world.core;
    s.(db := db,
       now := s.now + 1,
       world := s.world.(core := core.(rows := Enqueued(core.rows, events, s.now + 1),
                                       creds := CredsAfter(s.db, request, core.creds, detach, remove))))
  }

  function Waited(s: Sys, time: nat): Sys {
    s.(now := s.now + time)
  }

  predicate Over(r: Row) {
    r.status == Completed || r.status == Dead
  }

  /** The claim takes the newest event of the topic while all of its older ones are completed or dead. */
  predicate Recovers(rows: seq<Row>, batch: seq<nat>, topic: Topic) {
    var n := Newest(Payloads(rows), topic);
    n >= 0 && n in batch && forall i | 0 <= i < n && On(rows[i].payload, topic) :: Over(rows[i])
  }

  /** The row from which on the rows of an untainted topic are known to be shown in order. */
  function BaseOf(s: Sys, topic: Topic): nat {
    if topic in s.base then s.base[topic] else 0
  }

  function Ticked(s: Sys, batch: seq<nat>): Sys
    requires InTable(s.world.core.rows, batch)
  {
    var core := s.world.core;
    s.(world := World(core.(rows := Claimed(core.rows, batch, s.now)), Spawn(EventsOf(core.rows, batch))),
       tainted := (set topic | topic in s.tainted && !Recovers(core.rows, batch, topic)),
       base := map topic | topic in s.base.Keys + s.tainted && (topic in s.base || Recovers(core.rows, batch, topic)) ::
                 if topic in s.tainted && Recovers(core.rows, batch, topic) then Newest(Log(s), topic) else BaseOf(s, topic))
  }

  /** Whether the worker's next step changes what is retained on the topic of its event. */
  predicate Reaches(phase: Phase, out: Outcome) {
    (phase == Start && TakesEffect(out.publish)) || (phase == Clearing && TakesEffect(out.clear))
  }

  predicate Behind(queue: seq<Event>, topic: Topic) {
    exists k :: 0 < k < |queue| && On(queue[k].payload, topic)
  }

  /** The row write is lost, or the event will be retried although a later one on its topic is already claimed. */
  predicate Taints(k: Worker, topic: Topic, out: Outcome, maxAttempts: nat)
    requires k.queue != []
  {
    PhaseRank(k.phase) == 0
    && (!out.written || (k.phase == Errored && k.queue[0].attempts + 1 < maxAttempts && Behind(k.queue, topic)))
  }

  function Worked(s: Sys, eventType: string, out: Outcome, maxAttempts: nat): Sys
    requires Busy(s.world, eventType)
  {
    var k := s.world.workers[eventType];
    var e := k.queue[0];
    var world := Advance(s.world, eventType, out, maxAttempts);
    match TopicOf(e.payload)
    case Some(topic) =>
      s.(world := world,
         published := if Reaches(k.phase, out) then s.published[topic := e.id] else s.published,
         cleared := if k.phase == Clearing then s.cleared[topic := TakesEffect(out.clear)] else s.cleared,
         tainted := if Taints(k, topic, out, maxAttempts) then s.tainted + {topic} else s.tainted)
    case None =>
      s.(world := world,
         orphans := if e.payload.Provision? && Orphaning(s.world.core.creds, e.payload.username, k.phase, out)
                    then s.orphans + {e.payload.username} else s.orphans,
         dropped := if !e.payload.Provision? then s.dropped
                    else if Dropping(k.phase, out) then s.dropped + {e.payload.username}
                    else if Creating(s.world.core.creds, e.payload.username, k.phase, out) then s.dropped - {e.payload.username}
                    else s.dropped)
  }

  /** The call leaves a credential behind to which no role will be attached. */
  predicate Orphaning(creds: map<string, Credential>, username: string, phase: Phase, out: Outcome) {
    || (phase == Start && username !in creds && out.create == Failed(true))
    || (phase == Undoing && username in creds && !creds[username].role && !TakesEffect(out.undo))
  }

  /** The call deletes the credential again, and the attempt counts as a success. */
  predicate Dropping(phase: Phase, out: Outcome) {
    phase == Undoing && out.conflict && TakesEffect(out.undo)
  }

  predicate Creating(creds: map<string, Credential>, username: string, phase: Phase, out: Outcome) {
    phase == Start && username !in creds && TakesEffect(out.create)
  }

  function Apply(s: Sys, step: Step, maxAttempts: nat): Sys
    requires Enabled(s, step)
  {
    match step
    case Serve(request, detach, remove) => Served(s, request, detach, remove)
    case Wait(time) => Waited(s, time)
    case Claim(batch) => Ticked(s, batch)
    case Work(eventType, out) => Worked(s, eventType, out, maxAttempts)
  }

  ghost predicate CanRun(s: Sys, steps: seq<Step>, maxAttempts: nat)
    decreases |steps|
  {
    steps == [] || (Enabled(s, steps[0]) && CanRun(Apply(s, steps[0], maxAttempts), steps[1..], maxAttempts))
  }

  ghost function Exec(s: Sys, steps: seq<Step>, maxAttempts: nat): Sys
    requires CanRun(s, steps, maxAttempts)
    decreases |steps|
  {
    if steps == [] then s else Exec(Apply(s, steps[0], maxAttempts), steps[1..], maxAttempts)
  }

  ghost predicate Reachable(s: Sys, maxAttempts: nat) {
    exists steps :: CanRun(INITIAL, steps, maxAttempts) && Exec(INITIAL, steps, maxAttempts) == s
  }

  lemma {:induction false} RunExtends(s: Sys, steps: seq<Step>, step: Step, maxAttempts: nat)
    requires CanRun(s, steps, maxAttempts) && Enabled(Exec(s, steps, maxAttempts), step)
    ensures CanRun(s, steps + [step], maxAttempts)
    ensures Exec(s, steps + [step], maxAttempts) == Apply(Exec(s, steps, maxAttempts), step, maxAttempts)
    decreases |steps|
  {
    if steps == [] {
      var s' := Apply(s, step, maxAttempts);
      assert [step][1..] == [];
      assert CanRun(s', [], maxAttempts) && Exec(s', [], maxAttempts) == s';
      assert steps + [step] == [step];
    } else {
      assert (steps + [step])[0] == steps[0] && (steps + [step])[1..] == steps[1..] + [step];
      RunExtends(Apply(s, steps[0], maxAttempts), steps[1..], step, maxAttempts);
    }
  }

  lemma ReachableNext(s: Sys, step: Step, maxAttempts: nat)
    requires Reachable(s, maxAttempts) && Enabled(s, step)
    ensures Reachable(Apply(s, step, maxAttempts), maxAttempts)
  {
    var steps :| CanRun(INITIAL, steps, maxAttempts) && Exec(INITIAL, steps, maxAttempts) == s;
    RunExtends(INITIAL, steps, step, maxAttempts);
    assert CanRun(INITIAL, steps + [step], maxAttempts);
  }

  lemma InitialReachable(maxAttempts: nat)
    ensures Reachable(INITIAL, maxAttempts)
  {
    assert CanRun(INITIAL, [], maxAttempts) && Exec(INITIAL, [], maxAttempts) == INITIAL;
  }

  lemma {:induction false} ReachableRun(s: Sys, steps: seq<Step>, maxAttempts: nat)
    requires Reachable(s, maxAttempts) && CanRun(s, steps, maxAttempts)
    ensures Reachable(Exec(s, steps, maxAttempts), maxAttempts)
    decreases |steps|
  {
    if steps != [] {
      ReachableNext(s, steps[0], maxAttempts);
      ReachableRun(Apply(s, steps[0], maxAttempts), steps[1..], maxAttempts);
    }
  }
}
