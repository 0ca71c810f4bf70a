/** The broker, the event processors and the outbox runner, as objects that change their state in place. */
module Runner {
  import opened Wrappers
  import opened Calls
  import opened Events
  import opened Outbox
  import opened Delivery

  datatype Reply = Done | Conflict | Error

  class Broker {
    var retained: map<Topic, Message>
    var creds: map<string, Credential>

    constructor ()
      ensures retained == map[] && creds == map[]
    {
      retained, creds := map[], map[];
    }

    method PublishRetained(topic: Topic, message: Option<Message>, call: Call) returns (ok: bool)
      modifies this`retained
      ensures retained == Publish(old(retained), topic, message, call)
      ensures ok == call.Accepted?
    {
      if TakesEffect(call) {
        match message {
          case Some(m) => retained := retained[topic := m];
          case None => retained := retained - {topic};
        }
      }
      ok := call.Accepted?;
    }

    method CreateCredential(username: string, password: string, call: Call) returns (reply: Reply)
      modifies this`creds
      ensures creds == if username !in old(creds) && TakesEffect(call)
                       then old(creds)[username := Credential(password, false)] else old(creds)
      ensures reply == if !call.Accepted? then Error else if username in old(creds) then Conflict else Done
    {
      reply := if !call.Accepted? then Error else if username in creds then Conflict else Done;
      if username !in creds && TakesEffect(call) {
        creds := creds[username := Credential(password, false)];
      }
    }

    method AttachRole(username: string, call: Call, conflict: bool) returns (reply: Reply)
      modifies this`creds
      ensures creds == if username in old(creds) && TakesEffect(call)
                       then old(creds)[username := old(creds)[username].(role := true)] else old(creds)
      ensures reply == if call.Accepted? && username in old(creds) then Done else if conflict then Conflict else Error
    {
      reply := if call.Accepted? && username in creds then Done else if conflict then Conflict else Error;
      if username in creds && TakesEffect(call) {
        creds := creds[username := creds[username].(role := true)];
      }
    }

    method DeleteCredential(username: string, call: Call)
      modifies this`creds
      ensures creds == if TakesEffect(call) then old(creds) - {username} else old(creds)
    {
      if TakesEffect(call) {
        creds := creds - {username};
      }
    }

    /** The HiveMQ client: create, attach, and a compensating delete whose error is ignored. */
    method ProvisionDevice(username: string, password: string, out: Outcome, ghost rows: seq<Row>) returns (reply: Reply)
      modifies this`creds
      ensures forall device ::
                (Core(rows, retained, creds), reply != Error)
                == Attempt(Core(rows, retained, old(creds)), Payload.Provision(device, username, password), Start, out)
    {
      reply := CreateCredential(username, password, out.create);
      if reply == Done {
        reply := AttachRole(username, out.attach, out.conflict);
        if reply != Done {
          DeleteCredential(username, out.undo);
        }
      }
    }
  }

  /** Processors of the three push types: publish, and for a deleted trigger publish again to clear the topic. */
  method ProcessPush(broker: Broker, p: Payload, out: Outcome, ghost rows: seq<Row>) returns (ok: bool)
    requires TopicOf(p).Some?
    modifies broker`retained
    ensures (Core(rows, broker.retained, broker.creds), ok)
         == Attempt(Core(rows, old(broker.retained), broker.creds), p, Start, out)
    ensures ok <==> out.publish.Accepted?
    ensures ok && IsTriggerDelete(p) && TakesEffect(out.clear) ==> TopicOf(p).value !in broker.retained
    ensures ok && !(IsTriggerDelete(p) && TakesEffect(out.clear)) ==>
              TopicOf(p).value in broker.retained && broker.retained[TopicOf(p).value] == MessageOf(p)
    ensures !ok && !TakesEffect(out.publish) ==> broker.retained == old(broker.retained)
  {
    var topic := TopicOf(p).value;
    if IsTriggerDelete(p) {
      ok := broker.PublishRetained(topic, Some(MessageOf(p)), out.publish);
      if !ok {
        return;
      }
      var _ := broker.PublishRetained(topic, None, out.clear);
    } else {
      ok := broker.PublishRetained(topic, Some(MessageOf(p)), out.publish);
    }
  }

  /** The provisioning processor: a 409 from the broker counts as success. */
  method ProcessProvision(broker: Broker, p: Payload, out: Outcome, ghost rows: seq<Row>) returns (ok: bool)
    requires p.Provision?
    modifies broker`creds
    ensures (Core(rows, broker.retained, broker.creds), ok)
         == Attempt(Core(rows, broker.retained, old(broker.creds)), p, Start, out)
  {
    var reply := broker.ProvisionDevice(p.username, p.password, out, rows);
    ok := reply != Error;
  }

  lemma {:induction false} GroupGrows(events: seq<Event>, e: Event, eventType: string)
    ensures OfType(events + [e], eventType)
         == OfType(events, eventType) + if TypeOf(e.payload) == eventType then [e] else []
  {
    if events == [] {
      assert events + [e] == [e];
    } else {
      assert (events + [e])[0] == events[0] && (events + [e])[1..] == events[1..] + [e];
      GroupGrows(events[1..], e, eventType);
    }
  }

  function QueueOf(queues: map<string, seq<Event>>, eventType: string): seq<Event> {
    if eventType in queues then queues[eventType] else []
  }

  /** The queues of the started goroutines, each between two events. */
  function AsWorkers(queues: map<string, seq<Event>>): map<string, Worker> {
    map eventType | eventType in REGISTERED :: Worker(QueueOf(queues, eventType), Start)
  }

  predicate Grouped(queues: map<string, seq<Event>>) {
    && queues.Keys <= REGISTERED
    && (forall t | t in queues :: queues[t] != [])
    && (forall t, e: Event | t in queues && e in queues[t] :: TypeOf(e.payload) == t)
  }

  function Queued(queues: map<string, seq<Event>>): nat {
    |QueueOf(queues, TRIGGER_PUSH)| + |QueueOf(queues, PERIPHERAL_PUSH)| + |QueueOf(queues, CONFIG_PUSH)| + |QueueOf(queues, PROVISION)|
  }

  /** The queues once the head of group `t` has been processed. */
  function Popped(queues: map<string, seq<Event>>, t: string): map<string, seq<Event>>
    requires t in queues && queues[t] != []
  {
    if |queues[t]| == 1 then queues - {t} else queues[t := queues[t][1..]]
  }

  lemma PoppedGrouped(queues: map<string, seq<Event>>, t: string)
    requires Grouped(queues) && t in queues
    ensures Grouped(Popped(queues, t))
    ensures t in REGISTERED && TypeOf(queues[t][0].payload) == t
  {
    var queues' := Popped(queues, t);
    assert queues[t][0] in queues[t];
    forall s, d: Event | s in queues' && d in queues'[s] ensures TypeOf(d.payload) == s {
      assert s in queues && d in queues[s];
    }
  }

  lemma PoppedQueued(queues: map<string, seq<Event>>, t: string)
    requires t in queues && queues[t] != [] && t in REGISTERED
    ensures Queued(Popped(queues, t)) < Queued(queues)
  {
    assert forall s :: QueueOf(Popped(queues, t), s) == if s == t then queues[t][1..] else QueueOf(queues, s);
  }

  lemma PoppedWorkers(queues: map<string, seq<Event>>, t: string)
    requires t in queues && queues[t] != [] && t in REGISTERED
    ensures AsWorkers(queues)[t] == Worker(queues[t], Start)
    ensures AsWorkers(Popped(queues, t)) == AsWorkers(queues)[t := Worker(queues[t][1..], Start)]
  {
    assert forall s :: QueueOf(Popped(queues, t), s) == if s == t then queues[t][1..] else QueueOf(queues, s);
  }

  /** Grouping the claimed events by type. */
  method GroupByType(events: seq<Event>) returns (groups: map<string, seq<Event>>)
    ensures forall t :: QueueOf(groups, t) == OfType(events, t)
    ensures forall t | t in groups :: groups[t] != []
  {
    groups := map[];
    for i := 0 to |events|
      invariant forall t :: QueueOf(groups, t) == OfType(events[..i], t)
      invariant forall t | t in groups :: groups[t] != []
    {
      var e := events[i];
      assert events[..i + 1] == events[..i] + [e];
      forall t ensures OfType(events[..i + 1], t) == OfType(events[..i], t) + if TypeOf(e.payload) == t then [e] else [] {
        GroupGrows(events[..i], e, t);
      }
      ghost var before := groups;
      groups := groups[TypeOf(e.payload) := QueueOf(groups, TypeOf(e.payload)) + [e]];
      forall t ensures QueueOf(groups, t) == OfType(events[..i + 1], t) {
        assert QueueOf(groups, t) == QueueOf(before, t) + if TypeOf(e.payload) == t then [e] else [];
      }
    }
    assert events[..|events|] == events;
  }

  lemma StartedQueues(events: seq<Event>, groups: map<string, seq<Event>>, queues: map<string, seq<Event>>)
    requires forall t :: QueueOf(groups, t) == OfType(events, t)
    requires forall t | t in groups :: groups[t] != []
    requires queues == map t | t in groups && t in REGISTERED :: groups[t]
    ensures Grouped(queues) && AsWorkers(queues) == Spawn(events)
  {
    assert forall t | t in REGISTERED :: QueueOf(queues, t) == QueueOf(groups, t);
    forall t, e: Event | t in queues && e in queues[t] ensures TypeOf(e.payload) == t {
      assert queues[t] == QueueOf(groups, t);
    }
  }

  class OutboxRunner {
    const store: Store
    const broker: Broker
    const maxAttempts: nat

    constructor (store: Store, broker: Broker, maxAttempts: nat)
      ensures this.store == store && this.broker == broker && this.maxAttempts == maxAttempts
    {
      this.store, this.broker, this.maxAttempts := store, broker, maxAttempts;
    }

    function State(): Core
      reads store, broker
    {
      Core(store.rows, broker.retained, broker.creds)
    }

    /** One attempt at one event: run its processor, then record the failure or the completion. */
    method Process(e: Event, out: Outcome)
      requires TypeOf(e.payload) in REGISTERED
      modifies store, broker
      ensures State() == Finish(old(State()), e, Start, out, maxAttempts)
    {
      var ok := false;
      if TopicOf(e.payload).Some? {
        ok := ProcessPush(broker, e.payload, out, store.rows);
      } else if e.payload.Provision? {
        ok := ProcessProvision(broker, e.payload, out, store.rows);
      }
      if out.written {
        if ok {
          store.MarkCompleted(e.id);
        } else {
          store.RecordFailure(e.id, e.attempts, maxAttempts);
        }
      }
    }

    /** Some goroutine that still has events gets to process its next one. */
    method TakeTurn(queues: map<string, seq<Event>>, outcome: nat -> Outcome)
      returns (queues': map<string, seq<Event>>, ghost steps: seq<string>)
      requires queues != map[] && Grouped(queues)
      modifies store, broker
      ensures Grouped(queues') && Queued(queues') < Queued(queues)
      ensures World(State(), AsWorkers(queues')) == Run(World(old(State()), AsWorkers(queues)), steps, outcome, maxAttempts)
    {
      assert queues.Keys != {};
      var t :| t in queues;
      var e := queues[t][0];
      PoppedGrouped(queues, t);
      PoppedQueued(queues, t);
      PoppedWorkers(queues, t);
      steps := FinishHead(World(State(), AsWorkers(queues)), t, outcome, maxAttempts);
      Process(e, outcome(e.id));
      queues' := Popped(queues, t);
    }

    /**
     * One tick: claim a batch, group it by type and let the goroutines of the groups take turns in any
     * order. Whatever the order, the result is that of processing the batch in claim order.
     */
    method Tick(now: int, outcome: nat -> Outcome) returns (ghost batch: seq<nat>)
      requires SortedByCreation(store.rows)
      modifies store, broker
      ensures IsClaim(old(store.rows), now, BATCH_SIZE, batch) && InCreationOrder(old(store.rows), batch)
      ensures State() == TickResult(old(State()), batch, now, outcome, maxAttempts)
    {
      var events: seq<Event>;
      batch, events := store.ClaimBatch(now, BATCH_SIZE);
      var groups := GroupByType(events);

      // A group whose type has no processor is skipped; its rows stay claimed.
      var queues := map t | t in groups && t in REGISTERED :: groups[t];
      StartedQueues(events, groups, queues);
      ghost var start := World(State(), Spawn(events));

      ghost var schedule: seq<string> := [];
      while queues != map[]
        invariant Grouped(queues)
        invariant World(State(), AsWorkers(queues)) == Run(start, schedule, outcome, maxAttempts)
        decreases Queued(queues)
      {
        ghost var steps;
        queues, steps := TakeTurn(queues, outcome);
        RunConcat(start, schedule, steps, outcome, maxAttempts);
        schedule := schedule + steps;
      }
      assert AllIdle(World(State(), AsWorkers(queues)));
      ConcurrencyIsHarmless(start.core, events, schedule, outcome, maxAttempts);
    }
  }
}
