/**
 * Delivering a claimed batch: what each processor does to the broker, how an event's row is resolved,
 * and the per-type workers that a tick runs concurrently.
 */
module Delivery {
  import opened Wrappers
  import opened Calls
  import opened Events
  import opened Outbox

  const BATCH_SIZE: nat := 50

  /** Everything the environment decides about one attempt at one event; `conflict` is an attach refused with 409. */
  datatype Outcome = Outcome(publish: Call, clear: Call, create: Call, attach: Call, undo: Call, written: bool, conflict: bool)

  datatype Credential = Credential(password: string, role: bool)

  datatype Core = Core(rows: seq<Row>, retained: map<Topic, Message>, creds: map<string, Credential>)

  /** How far a worker has got with the event at the head of its queue. */
  datatype Phase = Start | Clearing | Attaching | Undoing | Succeeded | Errored

  datatype Worker = Worker(queue: seq<Event>, phase: Phase)

  datatype World = World(core: Core, workers: map<string, Worker>)

  /** Publishing with the retain flag: a payload replaces the retained message, an empty payload clears it. */
  function Publish(retained: map<Topic, Message>, topic: Topic, message: Option<Message>, call: Call): map<Topic, Message> {
    if !TakesEffect(call) then retained
    else match message
      case Some(m) => retained[topic := m]
      case None => retained - {topic}
  }

  function PushEffect(retained: map<Topic, Message>, p: Payload, phase: Phase, out: Outcome): (map<Topic, Message>, Phase)
    requires TopicOf(p).Some?
  {
    var topic := TopicOf(p).value;
    match phase
    case Start =>
      (Publish(retained, topic, Some(MessageOf(p)), out.publish),
       if !out.publish.Accepted? then Errored else if IsTriggerDelete(p) then Clearing else Succeeded)
    case Clearing =>
      // Clearing is best effort: its error is logged and dropped.
      (Publish(retained, topic, None, out.clear), Succeeded)
    case _ => (retained, Errored)
  }

  /** Creating a credential, attaching the role, and deleting the credential again if the attach failed. */
  function ProvisionEffect(creds: map<string, Credential>, username: string, password: string, phase: Phase, out: Outcome)
    : (map<string, Credential>, Phase)
  {
    match phase
    case Start =>
      if username in creds then
        // The broker answers 409, which the processor takes for success.
        (creds, if out.create.Accepted? then Succeeded else Errored)
      else
        (if TakesEffect(out.create) then creds[username := Credential(password, false)] else creds,
         if out.create.Accepted? then Attaching else Errored)
    case Attaching =>
      (if TakesEffect(out.attach) && username in creds then creds[username := creds[username].(role := true)] else creds,
       if out.attach.Accepted? && username in creds then Succeeded else Undoing)
    case Undoing =>
      // The processor takes any 409 for success, also one from attaching the role.
      (if TakesEffect(out.undo) then creds - {username} else creds, if out.conflict then Succeeded else Errored)
    case _ => (creds, Errored)
  }

  /** One call made while processing `p`, and the phase it leads to. */
  function Effect(c: Core, p: Payload, phase: Phase, out: Outcome): (r: (Core, Phase))
    ensures r.0.rows == c.rows
    ensures PhaseRank(phase) > 0 ==> PhaseRank(r.1) < PhaseRank(phase)
  {
    match p
    case Unreadable(_, _) => (c, Errored)
    case Provision(_, username, password) =>
      var (creds, next) := ProvisionEffect(c.creds, username, password, phase, out);
      (c.(creds := creds), next)
    case _ =>
      var (retained, next) := PushEffect(c.retained, p, phase, out);
      (c.(retained := retained), next)
  }

  function PhaseRank(phase: Phase): nat {
    match phase
    case Start => 3
    case Clearing => 2
    case Attaching => 2
    case Undoing => 1
    case Succeeded => 0
    case Errored => 0
  }

  /** Writing the result of an attempt to its row, unless the write itself fails. */
  function Settle(c: Core, e: Event, succeeded: bool, written: bool, maxAttempts: nat): Core {
    if !written then c
    else c.(rows := if succeeded then MarkedCompleted(c.rows, e.id)
                    else FailureRecorded(c.rows, e.id, e.attempts, maxAttempts))
  }

  /** The remaining broker calls of an attempt that has reached `phase`, and whether the attempt succeeds. */
  function Attempt(c: Core, p: Payload, phase: Phase, out: Outcome): (Core, bool)
    decreases PhaseRank(phase)
  {
    if PhaseRank(phase) == 0 then (c, phase == Succeeded)
    else
      var (c', next) := Effect(c, p, phase, out);
      Attempt(c', p, next, out)
  }

  /** Everything that remains to be done for event `e` once it has reached `phase`. */
  function Finish(c: Core, e: Event, phase: Phase, out: Outcome, maxAttempts: nat): Core {
    var (c', succeeded) := Attempt(c, e.payload, phase, out);
    Settle(c', e, succeeded, out.written, maxAttempts)
  }

  /** The reference: the batch processed one event after another, in claim order. */
  function ProcessAll(c: Core, events: seq<Event>, outcome: nat -> Outcome, maxAttempts: nat): Core
    decreases |events|
  {
    if events == [] then c
    else
      var e := events[0];
      var c' := if TypeOf(e.payload) in REGISTERED then Finish(c, e, Start, outcome(e.id), maxAttempts) else c;
      ProcessAll(c', events[1..], outcome, maxAttempts)
  }

  /** What one tick that claims `batch` at `now` does. */
  function TickResult(c: Core, batch: seq<nat>, now: int, outcome: nat -> Outcome, maxAttempts: nat): Core
    requires InTable(c.rows, batch)
  {
    ProcessAll(c.(rows := Claimed(c.rows, batch, now)), EventsOf(c.rows, batch), outcome, maxAttempts)
  }

  // ---- What one attempt does --------------------------------------------------------------------

  /** The attempt changes what is retained on one topic only. */
  ghost predicate OnlyTopic(c: Core, c': Core, topic: Topic) {
    && c'.rows == c.rows && c'.creds == c.creds
    && forall other | other != topic ::
         (other in c'.retained <==> other in c.retained) && (other in c.retained ==> c'.retained[other] == c.retained[other])
  }

  /**
   * An attempt at a trigger delete succeeds exactly if its first publish is accepted. It then leaves the topic
   * empty if the clearing publish takes effect, and the delete message if it does not; a failed attempt leaves the
   * delete message or what was there.
   */
  lemma DeleteAttempt(c: Core, device: Id, trigger: Id, out: Outcome)
    ensures var (c', succeeded) := Attempt(c, TriggerPush(device, trigger, None), Start, out);
            var topic := TriggerTopic(device, trigger);
            && OnlyTopic(c, c', topic)
            && (succeeded <==> out.publish.Accepted?)
            && (succeeded && TakesEffect(out.clear) ==> topic !in c'.retained)
            && (succeeded && !TakesEffect(out.clear) ==> topic in c'.retained && c'.retained[topic] == TriggerDelete(trigger))
            && (!succeeded ==> c'.retained == if TakesEffect(out.publish) then c.retained[topic := TriggerDelete(trigger)] else c.retained)
  {
    var topic := TriggerTopic(device, trigger);
    var p := TriggerPush(device, trigger, None);
    var (c1, next) := Effect(c, p, Start, out);
    if next == Clearing {
      var (c2, last) := Effect(c1, p, Clearing, out);
      assert Attempt(c2, p, last, out) == (c2, true);
      assert Attempt(c1, p, Clearing, out) == (c2, true);
    } else {
      assert Attempt(c1, p, next, out) == (c1, next == Succeeded);
    }
  }

  /** An attempt at any other push publishes its message once and succeeds exactly if that is accepted. */
  lemma PushAttempt(c: Core, p: Payload, out: Outcome)
    requires TopicOf(p).Some? && !(p.TriggerPush? && p.body.None?)
    ensures var (c', succeeded) := Attempt(c, p, Start, out);
            var topic := TopicOf(p).value;
            && OnlyTopic(c, c', topic)
            && (succeeded <==> out.publish.Accepted?)
            && c'.retained == if TakesEffect(out.publish) then c.retained[topic := MessageOf(p)] else c.retained
  {
    var (c1, next) := Effect(c, p, Start, out);
    assert Attempt(c1, p, next, out) == (c1, next == Succeeded);
  }

  // ---- Workers ----------------------------------------------------------------------------------

  function OfType(events: seq<Event>, eventType: string): (group: seq<Event>)
    ensures forall e | e in group :: e in events && TypeOf(e.payload) == eventType
  {
    if events == [] then []
    else (if TypeOf(events[0].payload) == eventType then [events[0]] else []) + OfType(events[1..], eventType)
  }

  /** One worker per registered type; a type without events has nothing to do. */
  function Spawn(events: seq<Event>): map<string, Worker> {
    Workers(events, REGISTERED)
  }

  function Workers(events: seq<Event>, types: set<string>): map<string, Worker> {
    map eventType | eventType in types :: Worker(OfType(events, eventType), Start)
  }

  predicate Busy(w: World, eventType: string) {
    eventType in w.workers && w.workers[eventType].queue != []
  }

  /** The effect of a worker's next step on the core: one broker call, or the row write that ends an attempt. */
  function CoreStep(c: Core, k: Worker, out: Outcome, maxAttempts: nat): Core
    requires k.queue != []
  {
    if PhaseRank(k.phase) == 0 then Settle(c, k.queue[0], k.phase == Succeeded, out.written, maxAttempts)
    else Effect(c, k.queue[0].payload, k.phase, out).0
  }

  /** The worker after that step. */
  function WorkerStep(c: Core, k: Worker, out: Outcome): Worker
    requires k.queue != []
  {
    if PhaseRank(k.phase) == 0 then Worker(k.queue[1..], Start)
    else Worker(k.queue, Effect(c, k.queue[0].payload, k.phase, out).1)
  }

  /** One step of the worker for `eventType`. */
  function Advance(w: World, eventType: string, out: Outcome, maxAttempts: nat): World {
    if !Busy(w, eventType) then w
    else
      var k := w.workers[eventType];
      World(CoreStep(w.core, k, out, maxAttempts), w.workers[eventType := WorkerStep(w.core, k, out)])
  }

  function OutcomeFor(w: World, eventType: string, outcome: nat -> Outcome): Outcome {
    outcome(if Busy(w, eventType) then w.workers[eventType].queue[0].id else 0)
  }

  function Step(w: World, eventType: string, outcome: nat -> Outcome, maxAttempts: nat): World {
    Advance(w, eventType, OutcomeFor(w, eventType, outcome), maxAttempts)
  }

  /** Running the workers in the order given by `schedule`. */
  function Run(w: World, schedule: seq<string>, outcome: nat -> Outcome, maxAttempts: nat): World
    decreases |schedule|
  {
    if schedule == [] then w
    else Run(Step(w, schedule[0], outcome, maxAttempts), schedule[1..], outcome, maxAttempts)
  }

  ghost predicate AllIdle(w: World) {
    forall eventType | eventType in w.workers :: w.workers[eventType].queue == []
  }

  /** Every queue holds events of its own type, and no row is queued with two workers. */
  ghost predicate Separate(w: World) {
    && (forall t, e | t in w.workers && e in w.workers[t].queue :: TypeOf(e.payload) == t)
    && (forall s, t, d, e | s in w.workers && t in w.workers && s != t && d in w.workers[s].queue && e in w.workers[t].queue ::
          d.id != e.id)
  }

  lemma StepKeepsSeparate(w: World, t: string, outcome: nat -> Outcome, maxAttempts: nat)
    requires Separate(w)
    ensures Separate(Step(w, t, outcome, maxAttempts))
  {
    var w' := Step(w, t, outcome, maxAttempts);
    assert forall s, e | s in w'.workers && e in w'.workers[s].queue :: s in w.workers && e in w.workers[s].queue;
  }

  lemma PublishesCommute(retained: map<Topic, Message>, s: Topic, m: Option<Message>, one: Call, t: Topic, n: Option<Message>, other: Call)
    requires s != t
    ensures Publish(Publish(retained, s, m, one), t, n, other) == Publish(Publish(retained, t, n, other), s, m, one)
  {
  }

  lemma PushesCommute(retained: map<Topic, Message>, p: Payload, phaseP: Phase, outP: Outcome, q: Payload, phaseQ: Phase, outQ: Outcome)
    requires TopicOf(p).Some? && TopicOf(q).Some? && TopicOf(p) != TopicOf(q)
    ensures PushEffect(PushEffect(retained, p, phaseP, outP).0, q, phaseQ, outQ).0
         == PushEffect(PushEffect(retained, q, phaseQ, outQ).0, p, phaseP, outP).0
    ensures PushEffect(PushEffect(retained, p, phaseP, outP).0, q, phaseQ, outQ).1 == PushEffect(retained, q, phaseQ, outQ).1
  {
    var s, t := TopicOf(p).value, TopicOf(q).value;
    var m := if phaseP == Start then Some(MessageOf(p)) else None;
    var n := if phaseQ == Start then Some(MessageOf(q)) else None;
    var one, other := if phaseP == Start then outP.publish else outP.clear, if phaseQ == Start then outQ.publish else outQ.clear;
    PublishesCommute(retained, s, m, one, t, n, other);
  }

  lemma PushEffects(c: Core, p: Payload, phaseP: Phase, outP: Outcome, q: Payload, phaseQ: Phase, outQ: Outcome)
    requires TypeOf(p) != TypeOf(q) && TopicOf(p).Some? && TopicOf(q).Some?
    ensures Effect(Effect(c, p, phaseP, outP).0, q, phaseQ, outQ).0 == Effect(Effect(c, q, phaseQ, outQ).0, p, phaseP, outP).0
    ensures Effect(Effect(c, p, phaseP, outP).0, q, phaseQ, outQ).1 == Effect(c, q, phaseQ, outQ).1
  {
    assert TopicOf(p) != TopicOf(q);
    PushesCommute(c.retained, p, phaseP, outP, q, phaseQ, outQ);
  }

  lemma MixedEffects(c: Core, p: Payload, phaseP: Phase, outP: Outcome, q: Payload, phaseQ: Phase, outQ: Outcome)
    requires TypeOf(p) != TypeOf(q) && TopicOf(p).None?
    ensures Effect(Effect(c, p, phaseP, outP).0, q, phaseQ, outQ).0 == Effect(Effect(c, q, phaseQ, outQ).0, p, phaseP, outP).0
    ensures Effect(Effect(c, p, phaseP, outP).0, q, phaseQ, outQ).1 == Effect(c, q, phaseQ, outQ).1
    ensures Effect(Effect(c, q, phaseQ, outQ).0, p, phaseP, outP).1 == Effect(c, p, phaseP, outP).1
  {
  }

  lemma EffectsCommute(c: Core, p: Payload, phaseP: Phase, outP: Outcome, q: Payload, phaseQ: Phase, outQ: Outcome)
    requires TypeOf(p) != TypeOf(q)
    ensures Effect(Effect(c, p, phaseP, outP).0, q, phaseQ, outQ).0 == Effect(Effect(c, q, phaseQ, outQ).0, p, phaseP, outP).0
    ensures Effect(Effect(c, p, phaseP, outP).0, q, phaseQ, outQ).1 == Effect(c, q, phaseQ, outQ).1
    ensures Effect(Effect(c, q, phaseQ, outQ).0, p, phaseP, outP).1 == Effect(c, p, phaseP, outP).1
  {
    if TopicOf(p).None? {
      MixedEffects(c, p, phaseP, outP, q, phaseQ, outQ);
    } else if TopicOf(q).None? {
      MixedEffects(c, q, phaseQ, outQ, p, phaseP, outP);
    } else {
      PushEffects(c, p, phaseP, outP, q, phaseQ, outQ);
      PushEffects(c, q, phaseQ, outQ, p, phaseP, outP);
    }
  }

  lemma CoreStepsCommute(c: Core, k: Worker, l: Worker, outK: Outcome, outL: Outcome, maxAttempts: nat)
    requires k.queue != [] && l.queue != []
    requires k.queue[0].id != l.queue[0].id && TypeOf(k.queue[0].payload) != TypeOf(l.queue[0].payload)
    ensures CoreStep(CoreStep(c, k, outK, maxAttempts), l, outL, maxAttempts)
         == CoreStep(CoreStep(c, l, outL, maxAttempts), k, outK, maxAttempts)
    ensures WorkerStep(CoreStep(c, l, outL, maxAttempts), k, outK) == WorkerStep(c, k, outK)
  {
    var p, q := k.queue[0].payload, l.queue[0].payload;
    if PhaseRank(k.phase) > 0 && PhaseRank(l.phase) > 0 {
      EffectsCommute(c, p, k.phase, outK, q, l.phase, outL);
    } else if PhaseRank(k.phase) > 0 {
      EffectIgnoresRows(c, CoreStep(c, l, outL, maxAttempts).rows, p, k.phase, outK);
    } else if PhaseRank(l.phase) > 0 {
      EffectIgnoresRows(c, CoreStep(c, k, outK, maxAttempts).rows, q, l.phase, outL);
    } else {
      var ck, cl := CoreStep(c, k, outK, maxAttempts), CoreStep(c, l, outL, maxAttempts);
      assert CoreStep(ck, l, outL, maxAttempts).rows == CoreStep(cl, k, outK, maxAttempts).rows;
    }
  }

  lemma EffectIgnoresRows(c: Core, rows: seq<Row>, p: Payload, phase: Phase, out: Outcome)
    ensures Effect(c.(rows := rows), p, phase, out) == (Effect(c, p, phase, out).0.(rows := rows), Effect(c, p, phase, out).1)
  {
  }

  /** Steps of different workers commute. */
  lemma StepsCommute(w: World, s: string, t: string, outcome: nat -> Outcome, maxAttempts: nat)
    requires Separate(w) && s != t
    ensures Step(Step(w, s, outcome, maxAttempts), t, outcome, maxAttempts)
         == Step(Step(w, t, outcome, maxAttempts), s, outcome, maxAttempts)
  {
    if Busy(w, s) && Busy(w, t) {
      var k, l := w.workers[s], w.workers[t];
      var outK, outL := outcome(k.queue[0].id), outcome(l.queue[0].id);
      assert k.queue[0] in k.queue && l.queue[0] in l.queue;
      CoreStepsCommute(w.core, k, l, outK, outL, maxAttempts);
      CoreStepsCommute(w.core, l, k, outL, outK, maxAttempts);
      var k', l' := WorkerStep(w.core, k, outK), WorkerStep(w.core, l, outL);
      assert w.workers[s := k'][t := l'] == w.workers[t := l'][s := k'];
    }
  }

  /** The first step of a worker in a schedule can be taken first. */
  lemma {:induction false} BringForward(w: World, schedule: seq<string>, k: nat, outcome: nat -> Outcome, maxAttempts: nat)
    requires Separate(w)
    requires k < |schedule| && schedule[k] !in schedule[..k]
    ensures Run(w, schedule, outcome, maxAttempts)
         == Run(Step(w, schedule[k], outcome, maxAttempts), schedule[..k] + schedule[k + 1..], outcome, maxAttempts)
    decreases k
  {
    var a, b := schedule[k], schedule[0];
    if k == 0 {
      assert schedule[..k] + schedule[k + 1..] == schedule[1..];
    } else {
      var rest := schedule[1..];
      assert a == rest[k - 1] && rest[..k - 1] == schedule[..k][1..];
      assert b in schedule[..k];
      StepKeepsSeparate(w, b, outcome, maxAttempts);
      BringForward(Step(w, b, outcome, maxAttempts), rest, k - 1, outcome, maxAttempts);
      StepsCommute(w, a, b, outcome, maxAttempts);
      var moved := schedule[..k] + schedule[k + 1..];
      assert moved[0] == b && moved[1..] == rest[..k - 1] + rest[k..];
    }
  }

  lemma {:induction false} UnscheduledStaysBusy(w: World, schedule: seq<string>, t: string, outcome: nat -> Outcome, maxAttempts: nat)
    requires Busy(w, t) && t !in schedule
    ensures Busy(Run(w, schedule, outcome, maxAttempts), t)
    decreases |schedule|
  {
    if schedule != [] {
      assert schedule[0] in schedule;
      UnscheduledStaysBusy(Step(w, schedule[0], outcome, maxAttempts), schedule[1..], t, outcome, maxAttempts);
    }
  }

  function FirstIndex(schedule: seq<string>, t: string): (k: nat)
    requires t in schedule
    ensures k < |schedule| && schedule[k] == t && t !in schedule[..k]
  {
    if schedule[0] == t then 0
    else
      var k := FirstIndex(schedule[1..], t);
      assert schedule[..k + 1] == [schedule[0]] + schedule[1..][..k];
      k + 1
  }

  lemma {:induction false} IdleStaysIdle(w: World, schedule: seq<string>, outcome: nat -> Outcome, maxAttempts: nat)
    requires AllIdle(w)
    ensures Run(w, schedule, outcome, maxAttempts) == w
    decreases |schedule|
  {
    if schedule != [] {
      IdleStaysIdle(w, schedule[1..], outcome, maxAttempts);
    }
  }

  /** All interleavings that run the workers to completion end in the same world. */
  lemma {:induction false} Confluence(w: World, one: seq<string>, other: seq<string>, outcome: nat -> Outcome, maxAttempts: nat)
    requires Separate(w)
    requires AllIdle(Run(w, one, outcome, maxAttempts)) && AllIdle(Run(w, other, outcome, maxAttempts))
    ensures Run(w, one, outcome, maxAttempts) == Run(w, other, outcome, maxAttempts)
    decreases |one|
  {
    if one == [] {
      IdleStaysIdle(w, other, outcome, maxAttempts);
    } else if !Busy(w, one[0]) {
      Confluence(w, one[1..], other, outcome, maxAttempts);
    } else {
      var t := one[0];
      if t !in other {
        UnscheduledStaysBusy(w, other, t, outcome, maxAttempts);
        assert false;
      }
      var k := FirstIndex(other, t);
      BringForward(w, other, k, outcome, maxAttempts);
      StepKeepsSeparate(w, t, outcome, maxAttempts);
      Confluence(Step(w, t, outcome, maxAttempts), one[1..], other[..k] + other[k + 1..], outcome, maxAttempts);
    }
  }

  // ---- The sequential run is one of the interleavings -------------------------------------------

  lemma {:induction false} RunConcat(w: World, one: seq<string>, other: seq<string>, outcome: nat -> Outcome, maxAttempts: nat)
    ensures Run(w, one + other, outcome, maxAttempts) == Run(Run(w, one, outcome, maxAttempts), other, outcome, maxAttempts)
    decreases |one|
  {
    if one == [] {
      assert one + other == other;
    } else {
      assert (one + other)[0] == one[0] && (one + other)[1..] == one[1..] + other;
      RunConcat(Step(w, one[0], outcome, maxAttempts), one[1..], other, outcome, maxAttempts);
    }
  }

  /** Advancing one worker repeatedly carries the head of its queue through to its row write. */
  lemma {:induction false} FinishHead(w: World, t: string, outcome: nat -> Outcome, maxAttempts: nat) returns (schedule: seq<string>)
    requires Busy(w, t)
    ensures var Worker(queue, phase) := w.workers[t];
            Run(w, schedule, outcome, maxAttempts)
            == World(Finish(w.core, queue[0], phase, outcome(queue[0].id), maxAttempts), w.workers[t := Worker(queue[1..], Start)])
    ensures forall s | s in schedule :: s == t
    decreases PhaseRank(w.workers[t].phase)
  {
    var Worker(queue, phase) := w.workers[t];
    var next := Step(w, t, outcome, maxAttempts);
    if PhaseRank(phase) == 0 {
      schedule := [t];
      assert Run(w, [t], outcome, maxAttempts) == Run(next, [], outcome, maxAttempts);
    } else {
      var rest := FinishHead(next, t, outcome, maxAttempts);
      schedule := [t] + rest;
      assert schedule[0] == t && schedule[1..] == rest;
      var done := Worker(queue[1..], Start);
      assert next.workers[t := done] == w.workers[t := done];
    }
  }

  lemma OfTypeHead(events: seq<Event>, eventType: string)
    requires events != []
    ensures OfType(events, eventType)
         == if TypeOf(events[0].payload) == eventType then [events[0]] + OfType(events[1..], eventType) else OfType(events[1..], eventType)
  {
    var group := OfType(events[1..], eventType);
    assert [] + group == group;
  }

  lemma SpawnHeadAmong(events: seq<Event>, types: set<string>)
    requires events != []
    ensures var t, w, w' := TypeOf(events[0].payload), Workers(events, types), Workers(events[1..], types);
            if t in types then w[t].queue != [] && w[t].queue[0] == events[0] && w' == w[t := Worker(w[t].queue[1..], Start)]
            else w' == w
  {
    var t, w, w' := TypeOf(events[0].payload), Workers(events, types), Workers(events[1..], types);
    forall s | s in types ensures w'[s] == if s == t then Worker(w[t].queue[1..], Start) else w[s] {
      OfTypeHead(events, s);
    }
    if t in types {
      OfTypeHead(events, t);
      assert w' == w[t := Worker(w[t].queue[1..], Start)];
    } else {
      assert w' == w;
    }
  }

  lemma SpawnHead(events: seq<Event>)
    requires events != []
    ensures var t := TypeOf(events[0].payload);
            if t in REGISTERED then
              && Spawn(events)[t].queue != []
              && Spawn(events)[t].queue[0] == events[0]
              && Spawn(events[1..]) == Spawn(events)[t := Worker(Spawn(events)[t].queue[1..], Start)]
            else Spawn(events[1..]) == Spawn(events)
  {
    SpawnHeadAmong(events, REGISTERED);
  }

  lemma {:induction false} SequentialSchedule(c: Core, events: seq<Event>, outcome: nat -> Outcome, maxAttempts: nat)
    returns (schedule: seq<string>)
    ensures Run(World(c, Spawn(events)), schedule, outcome, maxAttempts)
         == World(ProcessAll(c, events, outcome, maxAttempts), Spawn([]))
    decreases |events|
  {
    if events == [] {
      schedule := [];
    } else {
      SpawnHead(events);
      var w := World(c, Spawn(events));
      var e, t := events[0], TypeOf(events[0].payload);
      var first: seq<string>, c' := [], c;
      if t in REGISTERED {
        first := FinishHead(w, t, outcome, maxAttempts);
        c' := Finish(c, e, Start, outcome(e.id), maxAttempts);
      }
      assert Run(w, first, outcome, maxAttempts) == World(c', Spawn(events[1..]));
      var rest := SequentialSchedule(c', events[1..], outcome, maxAttempts);
      schedule := first + rest;
      RunConcat(w, first, rest, outcome, maxAttempts);
    }
  }

  ghost predicate DistinctIds(events: seq<Event>) {
    forall a, b | 0 <= a < b < |events| :: events[a].id != events[b].id
  }

  lemma OnlyOneType(events: seq<Event>, s: string, t: string, d: Event, e: Event)
    requires DistinctIds(events) && s != t && d in OfType(events, s) && e in OfType(events, t)
    ensures d.id != e.id
  {
    assert d in events && e in events;
    var a :| 0 <= a < |events| && events[a] == d;
    var b :| 0 <= b < |events| && events[b] == e;
    assert TypeOf(d.payload) == s && TypeOf(e.payload) == t;
    assert a != b;
  }

  lemma SpawnSeparate(c: Core, events: seq<Event>)
    requires DistinctIds(events)
    ensures Separate(World(c, Spawn(events)))
  {
    var workers := Spawn(events);
    forall s, t, d, e | s in workers && t in workers && s != t && d in workers[s].queue && e in workers[t].queue
      ensures d.id != e.id
    {
      OnlyOneType(events, s, t, d, e);
    }
  }

  /**
   * Concurrency is harmless: for fixed per-event outcomes, every interleaving of the workers that runs
   * them to completion leaves the rows, retained messages and credentials that processing the batch
   * sequentially in claim order leaves.
   */
  lemma ConcurrencyIsHarmless(c: Core, events: seq<Event>, schedule: seq<string>, outcome: nat -> Outcome, maxAttempts: nat)
    requires DistinctIds(events)
    requires AllIdle(Run(World(c, Spawn(events)), schedule, outcome, maxAttempts))
    ensures Run(World(c, Spawn(events)), schedule, outcome, maxAttempts)
         == World(ProcessAll(c, events, outcome, maxAttempts), Spawn([]))
  {
    SpawnSeparate(c, events);
    var sequential := SequentialSchedule(c, events, outcome, maxAttempts);
    Confluence(World(c, Spawn(events)), schedule, sequential, outcome, maxAttempts);
  }
}
