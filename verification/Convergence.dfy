/** What the broker retains on a topic once its newest event is completed, and when that is what the tables say. */
module Convergence {
  import opened Wrappers
  import opened Calls
  import opened Events
  import opened Addressing
  import opened Outbox
  import opened Delivery
  import opened Tables
  import M = SystemMachine

  type Sys = M.Sys

  function Rank(status: Status): nat {
    match status
    case Completed => 0
    case Dead => 0
    case Processing => 1
    case Pending => 2
  }

  function TypeOfTopic(topic: Topic): string {
    match topic
    case TriggerTopic(_, _) => TRIGGER_PUSH
    case PeripheralTopic(_, _) => PERIPHERAL_PUSH
    case ConfigTopic(_) => CONFIG_PUSH
  }

  predicate RowOn(rows: seq<Row>, i: nat, topic: Topic) {
    i < |rows| && On(rows[i].payload, topic)
  }

  ghost predicate InQueue(queue: seq<Event>, id: nat) {
    exists k :: 0 <= k < |queue| && queue[k].id == id
  }

  /** Rows are created in order, and two rows on one topic by different transactions. */
  ghost predicate CreatedInOrder(rows: seq<Row>, now: int) {
    && SortedByCreation(rows)
    && (forall i | 0 <= i < |rows| :: rows[i].createdAt <= now)
    && (forall i: nat, j: nat, topic | i < j && RowOn(rows, i, topic) && RowOn(rows, j, topic) :: rows[i].createdAt < rows[j].createdAt)
  }

  /** A queue holds claimed rows of its type, each once, and those of one topic in creation order. */
  ghost predicate QueueFits(rows: seq<Row>, eventType: string, queue: seq<Event>) {
    && (forall k | 0 <= k < |queue| ::
          && queue[k].id < |rows| && rows[queue[k].id].payload == queue[k].payload
          && rows[queue[k].id].status == Processing
          && TypeOf(queue[k].payload) == eventType)
    && DistinctIds(queue)
    && (forall a, b | 0 <= a < b < |queue| && TopicOf(queue[a].payload).Some? && TopicOf(queue[a].payload) == TopicOf(queue[b].payload) ::
          queue[a].id < queue[b].id)
  }

  /** A row is queued with one worker only. */
  ghost predicate QueuesFit(s: Sys) {
    && s.world.workers.Keys == REGISTERED
    && (forall t | t in s.world.workers :: QueueFits(s.world.core.rows, t, s.world.workers[t].queue))
  }

  /** A worker that has published its event on a topic is the last to have done so. */
  ghost predicate PhaseFits(s: Sys, k: Worker) {
    k.queue != [] && TopicOf(k.queue[0].payload).Some? ==>
      var topic := TopicOf(k.queue[0].payload).value;
      && (k.phase == Clearing ==> IsTriggerDelete(k.queue[0].payload))
      && (k.phase == Clearing || k.phase == Succeeded ==> topic in s.published && s.published[topic] == k.queue[0].id)
  }

  ghost predicate PhasesFit(s: Sys) {
    forall t | t in s.world.workers :: PhaseFits(s, s.world.workers[t])
  }

  ghost predicate TopicShown(s: Sys, topic: Topic) {
    if topic in s.published then
      && RowOn(s.world.core.rows, s.published[topic], topic)
      && Shows(s.world.core.retained, topic, s.world.core.rows[s.published[topic]].payload)
    else topic !in s.world.core.retained
  }

  /** The rows of an untainted topic are resolved in creation order and never shown out of order. */
  ghost predicate InOrder(rows: seq<Row>, topic: Topic) {
    forall i: nat, j: nat | i < j && RowOn(rows, i, topic) && RowOn(rows, j, topic) :: Rank(rows[i].status) <= Rank(rows[j].status)
  }

  ghost predicate ProcessingQueued(rows: seq<Row>, queue: seq<Event>, topic: Topic) {
    forall i: nat | RowOn(rows, i, topic) && rows[i].status == Processing :: InQueue(queue, i)
  }

  ghost predicate CompletedShown(s: Sys, topic: Topic) {
    forall i: nat | RowOn(s.world.core.rows, i, topic) && s.world.core.rows[i].status == Completed && M.BaseOf(s, topic) <= i ::
      topic in s.published && i <= s.published[topic]
  }

  ghost predicate BaseFits(s: Sys) {
    forall topic | topic in s.base :: RowOn(s.world.core.rows, s.base[topic], topic)
  }

  /** A completed event has reached its topic. */
  ghost predicate CompletedReached(s: Sys, topic: Topic) {
    forall i: nat | RowOn(s.world.core.rows, i, topic) && s.world.core.rows[i].status == Completed :: topic in s.published
  }

  ghost predicate TopicInOrder(s: Sys, topic: Topic) {
    var t := TypeOfTopic(topic);
    && InOrder(s.world.core.rows, topic)
    && t in s.world.workers && ProcessingQueued(s.world.core.rows, s.world.workers[t].queue, topic)
    && CompletedShown(s, topic)
  }

  ghost predicate TopicFits(s: Sys, topic: Topic) {
    TopicShown(s, topic) && CompletedReached(s, topic) && (topic in s.tainted || TopicInOrder(s, topic))
  }

  ghost predicate Invariant(s: Sys) {
    && CreatedInOrder(s.world.core.rows, s.now)
    && QueuesFit(s)
    && PhasesFit(s)
    && BaseFits(s)
    && (forall topic :: TopicFits(s, topic))
    && Agree(s.db, M.Log(s))
  }

  // ---- A broker call ----------------------------------------------------------------------------

  /** On `topic`, the step from `s` to `s'` has either changed nothing or published row `id` there. */
  ghost predicate PublishesAtMost(s: Sys, s': Sys, topic: Topic, id: nat, p: Payload) {
    || (&& (topic in s'.published <==> topic in s.published)
        && (topic in s.published ==> s'.published[topic] == s.published[topic])
        && (topic in s'.world.core.retained <==> topic in s.world.core.retained)
        && (topic in s.world.core.retained ==> s'.world.core.retained[topic] == s.world.core.retained[topic]))
    || (On(p, topic) && topic in s'.published && s'.published[topic] == id && Shows(s'.world.core.retained, topic, p))
  }

  /** What a broker call of worker `t` may change. */
  ghost predicate CallMade(s: Sys, s': Sys, t: string) {
    && Busy(s.world, t)
    && var k := s.world.workers[t];
    && t in s'.world.workers
    && var k' := s'.world.workers[t];
    && s'.db == s.db && s'.now == s.now && s'.tainted == s.tainted && s'.base == s.base
    && s'.world.core.rows == s.world.core.rows
    && s'.world.workers == s.world.workers[t := k'] && k'.queue == k.queue
    && (forall topic :: PublishesAtMost(s, s', topic, k.queue[0].id, k.queue[0].payload))
    && PhaseFits(s', k')
  }

  lemma CallSummary(s: Sys, t: string, out: Outcome, maxAttempts: nat)
    requires PhasesFit(s) && Busy(s.world, t) && PhaseRank(s.world.workers[t].phase) > 0
    ensures CallMade(s, M.Worked(s, t, out, maxAttempts), t)
  {
    assert PhaseFits(s, s.world.workers[t]);
  }

  lemma CallKeepsShown(s: Sys, s': Sys, t: string, topic: Topic)
    requires QueuesFit(s) && TopicShown(s, topic) && CompletedReached(s, topic) && CallMade(s, s', t)
    ensures TopicShown(s', topic) && CompletedReached(s', topic)
  {
    var e := s.world.workers[t].queue[0];
    assert QueueFits(s.world.core.rows, t, s.world.workers[t].queue);
    assert PublishesAtMost(s, s', topic, e.id, e.payload);
  }

  lemma CallKeepsQueues(s: Sys, s': Sys, t: string)
    requires QueuesFit(s) && CallMade(s, s', t)
    ensures QueuesFit(s')
  {
    forall u | u in s'.world.workers ensures QueueFits(s'.world.core.rows, u, s'.world.workers[u].queue) {
      assert QueueFits(s.world.core.rows, u, s.world.workers[u].queue);
    }
  }

  lemma TopicTellsType(p: Payload, topic: Topic)
    requires On(p, topic)
    ensures TypeOf(p) == TypeOfTopic(topic)
  {
  }

  lemma UnpublishedPhase(s: Sys, s': Sys, k: Worker)
    requires PhaseFits(s, k)
    requires k.queue != [] && TopicOf(k.queue[0].payload).Some? ==>
               var topic := TopicOf(k.queue[0].payload).value;
               topic in s.published ==> topic in s'.published && s'.published[topic] == s.published[topic]
    ensures PhaseFits(s', k)
  {
  }

  /** A call on behalf of one worker leaves the topics of the other workers alone. */
  lemma CallKeepsPhase(s: Sys, s': Sys, t: string, u: string)
    requires QueuesFit(s) && CallMade(s, s', t)
    requires u in s.world.workers && u != t && PhaseFits(s, s.world.workers[u])
    ensures PhaseFits(s', s.world.workers[u])
  {
    var k := s.world.workers[u];
    if k.queue != [] && TopicOf(k.queue[0].payload).Some? {
      var e, d := s.world.workers[t].queue[0], k.queue[0];
      var topic := TopicOf(d.payload).value;
      assert QueueFits(s.world.core.rows, t, s.world.workers[t].queue);
      assert QueueFits(s.world.core.rows, u, k.queue);
      TopicTellsType(d.payload, topic);
      assert !On(e.payload, topic) by {
        if On(e.payload, topic) {
          TopicTellsType(e.payload, topic);
        }
      }
      assert PublishesAtMost(s, s', topic, e.id, e.payload);
    }
    UnpublishedPhase(s, s', k);
  }

  lemma CallKeepsPhases(s: Sys, s': Sys, t: string)
    requires QueuesFit(s) && PhasesFit(s) && CallMade(s, s', t)
    ensures PhasesFit(s')
  {
    forall u | u in s'.world.workers ensures PhaseFits(s', s'.world.workers[u]) {
      if u != t {
        CallKeepsPhase(s, s', t, u);
      }
    }
  }

  lemma PublishKeepsCompletedShown(s: Sys, s': Sys, topic: Topic, id: nat, p: Payload)
    requires InOrder(s.world.core.rows, topic) && CompletedShown(s, topic)
    requires PublishesAtMost(s, s', topic, id, p) && s'.world.core.rows == s.world.core.rows && s'.base == s.base
    requires On(p, topic) ==> RowOn(s.world.core.rows, id, topic) && s.world.core.rows[id].status == Processing
    ensures CompletedShown(s', topic)
  {
  }

  lemma CallKeepsOrder(s: Sys, s': Sys, t: string, topic: Topic)
    requires QueuesFit(s) && TopicInOrder(s, topic) && CallMade(s, s', t)
    ensures TopicInOrder(s', topic)
  {
    var e, rows := s.world.workers[t].queue[0], s.world.core.rows;
    assert QueueFits(rows, t, s.world.workers[t].queue);
    assert PublishesAtMost(s, s', topic, e.id, e.payload);
    // Completed rows precede the claimed row that is published now.
    PublishKeepsCompletedShown(s, s', topic, e.id, e.payload);
  }

  // ---- A row write ------------------------------------------------------------------------------

  /** What the row write that ends an attempt of worker `t` may change. */
  ghost predicate RowWritten(s: Sys, s': Sys, t: string) {
    && Busy(s.world, t)
    && var k := s.world.workers[t];
    && var e, rows, rows' := k.queue[0], s.world.core.rows, s'.world.core.rows;
    && s'.db == s.db && s'.now == s.now && s'.published == s.published && s.tainted <= s'.tainted && s'.base == s.base
    && s'.world.core.retained == s.world.core.retained
    && s'.world.workers == s.world.workers[t := Worker(k.queue[1..], Start)]
    && |rows'| == |rows| && e.id < |rows|
    && (forall i | 0 <= i < |rows| && i != e.id :: rows'[i] == rows[i])
    && rows'[e.id].payload == rows[e.id].payload && rows'[e.id].createdAt == rows[e.id].createdAt
    && (rows'[e.id].status == Completed ==> k.phase == Succeeded)
    && (TopicOf(e.payload).Some? && TopicOf(e.payload).value !in s'.tainted ==>
          var topic := TopicOf(e.payload).value;
          match rows'[e.id].status
          case Completed => true
          case Dead => true
          case Processing => false
          case Pending => !M.Behind(k.queue, topic))
  }

  lemma SettledRow(s: Sys, t: string, out: Outcome, maxAttempts: nat)
    requires Busy(s.world, t) && PhaseRank(s.world.workers[t].phase) == 0
    requires s.world.workers[t].queue[0].id < |s.world.core.rows|
    ensures var k, s' := s.world.workers[t], M.Worked(s, t, out, maxAttempts);
            var e, rows := k.queue[0], s.world.core.rows;
            s'.world == World(s.world.core.(rows :=
                                if !out.written then rows
                                else rows[e.id := if k.phase == Succeeded then rows[e.id].(status := Completed)
                                                  else FailedRow(rows[e.id], e.attempts, maxAttempts)]),
                              s.world.workers[t := Worker(k.queue[1..], Start)])
  {
    var k := s.world.workers[t];
    var e, rows, rows' := k.queue[0], s.world.core.rows, M.Worked(s, t, out, maxAttempts).world.core.rows;
    assert !out.written ==> rows' == rows;
  }

  lemma SettleSummary(s: Sys, t: string, out: Outcome, maxAttempts: nat)
    requires QueuesFit(s) && Busy(s.world, t) && PhaseRank(s.world.workers[t].phase) == 0
    ensures RowWritten(s, M.Worked(s, t, out, maxAttempts), t)
  {
    assert QueueFits(s.world.core.rows, t, s.world.workers[t].queue);
    SettledRow(s, t, out, maxAttempts);
    SettleHistory(s, t, out, maxAttempts);
  }

  lemma SettleHistory(s: Sys, t: string, out: Outcome, maxAttempts: nat)
    requires Busy(s.world, t) && PhaseRank(s.world.workers[t].phase) == 0
    ensures var k, s' := s.world.workers[t], M.Worked(s, t, out, maxAttempts);
            && s'.db == s.db && s'.now == s.now && s'.published == s.published && s.tainted <= s'.tainted && s'.base == s.base
            && forall topic | TopicOf(k.queue[0].payload) == Some(topic) && topic !in s'.tainted :: !M.Taints(k, topic, out, maxAttempts)
  {
  }

  lemma OtherQueuesMissHead(s: Sys, t: string, u: string, k: nat)
    requires QueuesFit(s) && Busy(s.world, t) && u in s.world.workers && k < |s.world.workers[u].queue|
    requires u == t ==> k > 0
    ensures s.world.workers[u].queue[k].id != s.world.workers[t].queue[0].id
  {
    assert QueueFits(s.world.core.rows, t, s.world.workers[t].queue);
    assert QueueFits(s.world.core.rows, u, s.world.workers[u].queue);
  }

  lemma QueueSurvives(rows: seq<Row>, rows': seq<Row>, t: string, queue: seq<Event>, written: nat)
    requires QueueFits(rows, t, queue) && |rows'| == |rows|
    requires forall i | 0 <= i < |rows| && i != written :: rows'[i] == rows[i]
    requires forall k | 0 <= k < |queue| :: queue[k].id != written
    ensures QueueFits(rows', t, queue)
  {
  }

  lemma QueueTail(rows: seq<Row>, t: string, queue: seq<Event>)
    requires queue != [] && QueueFits(rows, t, queue)
    ensures QueueFits(rows, t, queue[1..])
    ensures forall k | 0 <= k < |queue[1..]| :: queue[1..][k].id != queue[0].id
  {
    var tail := queue[1..];
    assert forall k | 0 <= k < |tail| :: tail[k] == queue[k + 1];
  }

  lemma SettleKeepsQueues(s: Sys, s': Sys, t: string)
    requires QueuesFit(s) && RowWritten(s, s', t)
    ensures QueuesFit(s')
  {
    var e, rows, rows' := s.world.workers[t].queue[0], s.world.core.rows, s'.world.core.rows;
    forall u | u in s'.world.workers ensures QueueFits(rows', u, s'.world.workers[u].queue) {
      var queue := s.world.workers[u].queue;
      assert QueueFits(rows, u, queue);
      if u == t {
        QueueTail(rows, t, queue);
        QueueSurvives(rows, rows', t, queue[1..], e.id);
      } else {
        forall k | 0 <= k < |queue| ensures queue[k].id != e.id {
          OtherQueuesMissHead(s, t, u, k);
        }
        QueueSurvives(rows, rows', u, queue, e.id);
      }
    }
  }

  lemma SettleKeepsPhases(s: Sys, s': Sys, t: string)
    requires PhasesFit(s) && RowWritten(s, s', t)
    ensures PhasesFit(s')
  {
    forall u | u in s'.world.workers ensures PhaseFits(s', s'.world.workers[u]) {
      if u != t {
        assert PhaseFits(s, s.world.workers[u]);
      }
    }
  }

  lemma SettleKeepsShown(s: Sys, s': Sys, t: string, topic: Topic)
    requires QueuesFit(s) && PhasesFit(s) && TopicShown(s, topic) && CompletedReached(s, topic) && RowWritten(s, s', t)
    ensures TopicShown(s', topic) && CompletedReached(s', topic)
  {
    var k := s.world.workers[t];
    assert QueueFits(s.world.core.rows, t, k.queue) && PhaseFits(s, k);
    assert forall i: nat :: RowOn(s'.world.core.rows, i, topic) <==> RowOn(s.world.core.rows, i, topic);
    if topic in s.published {
      assert s'.world.core.rows[s.published[topic]].payload == s.world.core.rows[s.published[topic]].payload;
    }
  }

  /** A row on the topic of the head of the queue, claimed like it but not it, comes after it in the queue. */
  lemma QueuedBehindHead(rows: seq<Row>, t: string, queue: seq<Event>, topic: Topic, i: nat)
    requires queue != [] && QueueFits(rows, t, queue) && ProcessingQueued(rows, queue, topic)
    requires On(queue[0].payload, topic)
    requires RowOn(rows, i, topic) && rows[i].status == Processing && i != queue[0].id
    ensures queue[0].id < i && M.Behind(queue, topic)
  {
    var k :| 0 <= k < |queue| && queue[k].id == i;
    assert TopicOf(queue[0].payload) == TopicOf(queue[k].payload);
  }

  lemma SettleKeepsInOrder(s: Sys, s': Sys, t: string, topic: Topic)
    requires QueuesFit(s) && TopicInOrder(s, topic) && RowWritten(s, s', t) && topic !in s'.tainted
    requires On(s.world.workers[t].queue[0].payload, topic)
    ensures InOrder(s'.world.core.rows, topic)
  {
    var k := s.world.workers[t];
    var e, rows, rows' := k.queue[0], s.world.core.rows, s'.world.core.rows;
    assert QueueFits(rows, t, k.queue) && t == TypeOfTopic(topic);
    forall i: nat, j: nat | i < j && RowOn(rows', i, topic) && RowOn(rows', j, topic)
      ensures Rank(rows'[i].status) <= Rank(rows'[j].status)
    {
      assert RowOn(rows, i, topic) && RowOn(rows, j, topic);
      assert Rank(rows[i].status) <= Rank(rows[j].status);
      if j == e.id && rows[i].status == Processing {
        QueuedBehindHead(rows, t, k.queue, topic, i);
      }
      if i == e.id && rows[j].status == Processing {
        QueuedBehindHead(rows, t, k.queue, topic, j);
      }
    }
  }

  lemma SettleKeepsProcessingQueued(s: Sys, s': Sys, t: string, topic: Topic)
    requires QueuesFit(s) && TopicInOrder(s, topic) && RowWritten(s, s', t) && topic !in s'.tainted
    ensures ProcessingQueued(s'.world.core.rows, s'.world.workers[TypeOfTopic(topic)].queue, topic)
  {
    var k, u := s.world.workers[t], TypeOfTopic(topic);
    var e, rows, rows' := k.queue[0], s.world.core.rows, s'.world.core.rows;
    assert QueueFits(rows, t, k.queue);
    assert On(e.payload, topic) <==> RowOn(rows, e.id, topic);
    forall i: nat | RowOn(rows', i, topic) && rows'[i].status == Processing ensures InQueue(s'.world.workers[u].queue, i) {
      assert i != e.id;
      assert RowOn(rows, i, topic) && InQueue(s.world.workers[u].queue, i);
      if u == t {
        InRestOfQueue(k.queue, i);
      }
    }
  }

  lemma InRestOfQueue(queue: seq<Event>, i: nat)
    requires InQueue(queue, i) && queue[0].id != i
    ensures InQueue(queue[1..], i)
  {
    var a :| 0 <= a < |queue| && queue[a].id == i;
    assert queue[1..][a - 1].id == i;
  }

  lemma SettleKeepsOrder(s: Sys, s': Sys, t: string, topic: Topic)
    requires QueuesFit(s) && PhasesFit(s) && TopicInOrder(s, topic) && RowWritten(s, s', t) && topic !in s'.tainted
    ensures TopicInOrder(s', topic)
  {
    var k := s.world.workers[t];
    var e, rows, rows' := k.queue[0], s.world.core.rows, s'.world.core.rows;
    assert QueueFits(rows, t, k.queue) && PhaseFits(s, k);
    assert forall i: nat :: RowOn(rows', i, topic) <==> RowOn(rows, i, topic);
    if On(e.payload, topic) {
      SettleKeepsInOrder(s, s', t, topic);
    } else {
      assert !RowOn(rows, e.id, topic);
    }
    SettleKeepsProcessingQueued(s, s', t, topic);
  }

  // ---- A claim ----------------------------------------------------------------------------------

  ghost predicate Pairwise(events: seq<Event>, before: (Event, Event) -> bool) {
    forall a, b | 0 <= a < b < |events| :: before(events[a], events[b])
  }

  lemma {:induction false} OfTypePairwise(events: seq<Event>, t: string, before: (Event, Event) -> bool)
    requires Pairwise(events, before)
    ensures Pairwise(OfType(events, t), before)
    decreases |events|
  {
    if events != [] {
      var rest := OfType(events[1..], t);
      OfTypePairwise(events[1..], t, before);
      if TypeOf(events[0].payload) == t {
        PairwiseCons(events[0], rest, before) by {
          forall e | e in rest ensures before(events[0], e) {
            var q :| 0 <= q < |events[1..]| && events[1..][q] == e;
            assert events[q + 1] == e;
          }
        }
        assert OfType(events, t) == [events[0]] + rest;
      } else {
        assert OfType(events, t) == rest;
      }
    }
  }

  lemma PairwiseCons(e: Event, rest: seq<Event>, before: (Event, Event) -> bool)
    requires Pairwise(rest, before) && forall d | d in rest :: before(e, d)
    ensures Pairwise([e] + rest, before)
  {
  }

  lemma {:induction false} OfTypeComplete(events: seq<Event>, e: Event)
    requires e in events
    ensures e in OfType(events, TypeOf(e.payload))
    decreases |events|
  {
    if events[0] != e {
      OfTypeComplete(events[1..], e);
    }
  }

  lemma ClaimedMember(rows: seq<Row>, now: int, batch: seq<nat>, t: string, e: Event)
    requires IsClaim(rows, now, BATCH_SIZE, batch) && e in OfType(EventsOf(rows, batch), t)
    ensures e.id < |rows| && rows[e.id].payload == e.payload && TypeOf(e.payload) == t
    ensures Claimed(rows, batch, now)[e.id].payload == e.payload && Claimed(rows, batch, now)[e.id].status == Processing
  {
    var events := EventsOf(rows, batch);
    var p :| 0 <= p < |events| && events[p] == e;
    assert batch[p] in batch;
  }

  ghost predicate CreatedBefore(rows: seq<Row>, d: Event, e: Event) {
    d.id != e.id && d.id < |rows| && e.id < |rows| && rows[d.id].createdAt <= rows[e.id].createdAt
  }

  lemma CreatedBeforeIsEarlier(rows: seq<Row>, now: int, d: Event, e: Event)
    requires CreatedInOrder(rows, now) && CreatedBefore(rows, d, e)
    requires rows[d.id].payload == d.payload && rows[e.id].payload == e.payload
    requires TopicOf(d.payload).Some? && TopicOf(d.payload) == TopicOf(e.payload)
    ensures d.id < e.id
  {
    var topic := TopicOf(d.payload).value;
    assert RowOn(rows, d.id, topic) && RowOn(rows, e.id, topic);
  }

  lemma ClaimedQueueFits(rows: seq<Row>, now: int, batch: seq<nat>, t: string)
    requires CreatedInOrder(rows, now) && IsClaim(rows, now, BATCH_SIZE, batch) && InCreationOrder(rows, batch)
    ensures QueueFits(Claimed(rows, batch, now), t, OfType(EventsOf(rows, batch), t))
  {
    var group := OfType(EventsOf(rows, batch), t);
    forall k | 0 <= k < |group|
      ensures group[k].id < |rows| && rows[group[k].id].payload == group[k].payload && TypeOf(group[k].payload) == t
      ensures var r := Claimed(rows, batch, now)[group[k].id]; r.payload == group[k].payload && r.status == Processing
    {
      ClaimedMember(rows, now, batch, t, group[k]);
    }
    var before := (d: Event, e: Event) => CreatedBefore(rows, d, e);
    assert Pairwise(EventsOf(rows, batch), before);
    OfTypePairwise(EventsOf(rows, batch), t, before);
    forall a, b | 0 <= a < b < |group|
      ensures group[a].id != group[b].id
      ensures TopicOf(group[a].payload).Some? && TopicOf(group[a].payload) == TopicOf(group[b].payload) ==> group[a].id < group[b].id
    {
      assert before(group[a], group[b]);
      if TopicOf(group[a].payload).Some? && TopicOf(group[a].payload) == TopicOf(group[b].payload) {
        CreatedBeforeIsEarlier(rows, now, group[a], group[b]);
      }
    }
  }

  lemma ClaimKeepsInOrder(rows: seq<Row>, now: int, batch: seq<nat>, topic: Topic)
    requires CreatedInOrder(rows, now) && InOrder(rows, topic) && IsClaim(rows, now, BATCH_SIZE, batch)
    requires forall i: nat | RowOn(rows, i, topic) :: rows[i].status != Processing
    ensures InOrder(Claimed(rows, batch, now), topic)
  {
    var rows' := Claimed(rows, batch, now);
    forall i: nat, j: nat | i < j && RowOn(rows', i, topic) && RowOn(rows', j, topic)
      ensures Rank(rows'[i].status) <= Rank(rows'[j].status)
    {
      assert RowOn(rows, i, topic) && RowOn(rows, j, topic);
      assert Rank(rows[i].status) <= Rank(rows[j].status);
      assert rows[i].createdAt < rows[j].createdAt;
      if i in batch {
        var a := InBatch(rows, now, batch, i);
      }
      if j in batch {
        // An older pending row on the topic is claimed as well.
        var b := InBatch(rows, now, batch, j);
        assert rows[i].status == Pending ==> i in batch;
      }
    }
  }

  lemma InBatch(rows: seq<Row>, now: int, batch: seq<nat>, i: nat) returns (a: nat)
    requires IsClaim(rows, now, BATCH_SIZE, batch) && i in batch
    ensures a < |batch| && batch[a] == i && i < |rows| && Claimable(rows[i], now)
  {
    a :| 0 <= a < |batch| && batch[a] == i;
  }

  lemma ClaimQueues(rows: seq<Row>, now: int, batch: seq<nat>, i: nat, topic: Topic)
    requires IsClaim(rows, now, BATCH_SIZE, batch) && i in batch && RowOn(rows, i, topic)
    ensures InQueue(OfType(EventsOf(rows, batch), TypeOfTopic(topic)), i)
  {
    var a := InBatch(rows, now, batch, i);
    var events := EventsOf(rows, batch);
    var e := events[a];
    assert TypeOf(e.payload) == TypeOfTopic(topic);
    OfTypeComplete(events, e);
    var group := OfType(events, TypeOfTopic(topic));
    var k :| 0 <= k < |group| && group[k] == e;
  }

  lemma IdleTopic(s: Sys, topic: Topic)
    requires QueuesFit(s) && TopicInOrder(s, topic) && AllIdle(s.world)
    ensures forall i: nat | RowOn(s.world.core.rows, i, topic) :: s.world.core.rows[i].status != Processing
  {
    assert s.world.workers[TypeOfTopic(topic)].queue == [];
  }

  lemma ClaimKeepsProcessingQueued(rows: seq<Row>, now: int, batch: seq<nat>, topic: Topic)
    requires IsClaim(rows, now, BATCH_SIZE, batch)
    requires forall i: nat | RowOn(rows, i, topic) :: rows[i].status != Processing
    ensures ProcessingQueued(Claimed(rows, batch, now), OfType(EventsOf(rows, batch), TypeOfTopic(topic)), topic)
  {
    forall i: nat | RowOn(Claimed(rows, batch, now), i, topic) && Claimed(rows, batch, now)[i].status == Processing
      ensures InQueue(OfType(EventsOf(rows, batch), TypeOfTopic(topic)), i)
    {
      assert RowOn(rows, i, topic) && i in batch;
      ClaimQueues(rows, now, batch, i, topic);
    }
  }

  lemma ClaimKeepsCompletedShown(s: Sys, batch: seq<nat>, topic: Topic)
    requires CompletedShown(s, topic) && topic !in s.tainted && InTable(s.world.core.rows, batch)
    ensures CompletedShown(M.Ticked(s, batch), topic)
  {
    var s' := M.Ticked(s, batch);
    assert M.BaseOf(s', topic) == M.BaseOf(s, topic);
    assert forall i: nat :: RowOn(s'.world.core.rows, i, topic) <==> RowOn(s.world.core.rows, i, topic);
  }

  lemma ClaimKeepsOrder(s: Sys, batch: seq<nat>, topic: Topic)
    requires CreatedInOrder(s.world.core.rows, s.now) && QueuesFit(s) && TopicInOrder(s, topic)
    requires topic !in s.tainted && M.Enabled(s, M.Claim(batch))
    ensures TopicInOrder(M.Ticked(s, batch), topic)
  {
    IdleTopic(s, topic);
    ClaimKeepsInOrder(s.world.core.rows, s.now, batch, topic);
    ClaimKeepsProcessingQueued(s.world.core.rows, s.now, batch, topic);
    ClaimKeepsCompletedShown(s, batch, topic);
  }

  lemma RecoveringRows(rows: seq<Row>, now: int, batch: seq<nat>, topic: Topic, i: nat)
    requires IsClaim(rows, now, BATCH_SIZE, batch) && M.Recovers(rows, batch, topic) && RowOn(rows, i, topic)
    ensures var n, row := Newest(Payloads(rows), topic), Claimed(rows, batch, now)[i];
            i <= n && (i < n ==> M.Over(row)) && (i == n ==> row.status == Processing)
  {
    assert On(Payloads(rows)[i], topic);
    if i in batch {
      var a := InBatch(rows, now, batch, i);
    }
  }

  lemma RecoveredBase(s: Sys, batch: seq<nat>, topic: Topic)
    requires topic in s.tainted && InTable(s.world.core.rows, batch) && M.Recovers(s.world.core.rows, batch, topic)
    ensures M.BaseOf(M.Ticked(s, batch), topic) == Newest(M.Log(s), topic)
  {
    assert topic in M.Ticked(s, batch).base;
  }

  lemma RecoveredQueue(s: Sys, batch: seq<nat>, topic: Topic)
    requires M.Enabled(s, M.Claim(batch)) && M.Recovers(s.world.core.rows, batch, topic)
    ensures var s', t := M.Ticked(s, batch), TypeOfTopic(topic);
            t in s'.world.workers && InQueue(s'.world.workers[t].queue, Newest(M.Log(s), topic))
  {
    var n := Newest(M.Log(s), topic);
    assert On(M.Log(s)[n], topic);
    assert RowOn(s.world.core.rows, n, topic);
    ClaimQueues(s.world.core.rows, s.now, batch, n, topic);
  }

  lemma RecoveredRows(rows: seq<Row>, now: int, batch: seq<nat>, topic: Topic)
    requires IsClaim(rows, now, BATCH_SIZE, batch) && M.Recovers(rows, batch, topic)
    ensures var n, rows' := Newest(Payloads(rows), topic), Claimed(rows, batch, now);
            forall i: nat | RowOn(rows', i, topic) ::
              i <= n && (i < n ==> M.Over(rows'[i])) && (i == n ==> rows'[i].status == Processing)
  {
    var n, rows' := Newest(Payloads(rows), topic), Claimed(rows, batch, now);
    forall i: nat | RowOn(rows', i, topic) ensures i <= n && (i < n ==> M.Over(rows'[i])) && (i == n ==> rows'[i].status == Processing) {
      RecoveringRows(rows, now, batch, topic, i);
    }
  }

  /** Claiming the newest event of a topic when the older ones are over puts the topic in order again. */
  lemma RecoveryOrders(s: Sys, batch: seq<nat>, topic: Topic)
    requires topic in s.tainted && M.Enabled(s, M.Claim(batch)) && M.Recovers(s.world.core.rows, batch, topic)
    ensures TopicInOrder(M.Ticked(s, batch), topic)
  {
    RecoveredBase(s, batch, topic);
    RecoveredQueue(s, batch, topic);
    RecoveredRows(s.world.core.rows, s.now, batch, topic);
    RecoveredOrder(M.Ticked(s, batch), topic, Newest(M.Log(s), topic));
  }

  lemma RecoveredOrder(s: Sys, topic: Topic, n: nat)
    requires M.BaseOf(s, topic) == n && TypeOfTopic(topic) in s.world.workers
    requires InQueue(s.world.workers[TypeOfTopic(topic)].queue, n)
    requires forall i: nat | RowOn(s.world.core.rows, i, topic) ::
               i <= n && (i < n ==> M.Over(s.world.core.rows[i])) && (i == n ==> s.world.core.rows[i].status == Processing)
    ensures TopicInOrder(s, topic)
  {
  }

  lemma ClaimKeepsBase(s: Sys, batch: seq<nat>)
    requires BaseFits(s) && M.Enabled(s, M.Claim(batch))
    ensures BaseFits(M.Ticked(s, batch))
  {
    var s' := M.Ticked(s, batch);
    forall topic | topic in s'.base ensures RowOn(s'.world.core.rows, s'.base[topic], topic) {
      if topic in s.tainted && M.Recovers(s.world.core.rows, batch, topic) {
        assert On(M.Log(s)[Newest(M.Log(s), topic)], topic);
      } else {
        assert RowOn(s.world.core.rows, s.base[topic], topic);
      }
    }
  }

  // ---- A request --------------------------------------------------------------------------------

  /** A request enqueues at most one event per topic. */
  lemma OneEventPerTopic(db: Db, r: Request, i: nat, j: nat)
    requires Faithful(db, r) && i < j < |Handle(db, r).1|
    ensures TopicOf(Handle(db, r).1[i]) != TopicOf(Handle(db, r).1[j]) || TopicOf(Handle(db, r).1[i]).None?
  {
  }

  lemma ServeKeepsCreation(s: Sys, r: Request, detach: Call, remove: Call)
    requires CreatedInOrder(s.world.core.rows, s.now) && Faithful(s.db, r)
    ensures var s' := M.Served(s, r, detach, remove); CreatedInOrder(s'.world.core.rows, s'.now)
  {
    var s' := M.Served(s, r, detach, remove);
    var rows, rows', events := s.world.core.rows, s'.world.core.rows, Handle(s.db, r).1;
    forall i: nat, j: nat, topic | i < j && RowOn(rows', i, topic) && RowOn(rows', j, topic)
      ensures rows'[i].createdAt < rows'[j].createdAt
    {
      if j < |rows| {
        assert RowOn(rows, i, topic) && RowOn(rows, j, topic);
      } else if i >= |rows| {
        OneEventPerTopic(s.db, r, i - |rows|, j - |rows|);
      }
    }
  }

  lemma ServeKeepsOrder(s: Sys, r: Request, detach: Call, remove: Call, topic: Topic)
    requires TopicInOrder(s, topic)
    ensures TopicInOrder(M.Served(s, r, detach, remove), topic)
  {
    var s' := M.Served(s, r, detach, remove);
    var rows, rows' := s.world.core.rows, s'.world.core.rows;
    assert forall i: nat | i < |rows| :: rows'[i] == rows[i];
    assert forall i: nat | |rows| <= i < |rows'| :: rows'[i].status == Pending;
    assert forall i: nat | i < |rows| :: RowOn(rows', i, topic) <==> RowOn(rows, i, topic);
  }

  lemma ServeKeepsShown(s: Sys, r: Request, detach: Call, remove: Call, topic: Topic)
    requires TopicShown(s, topic) && CompletedReached(s, topic)
    ensures TopicShown(M.Served(s, r, detach, remove), topic) && CompletedReached(M.Served(s, r, detach, remove), topic)
  {
    var s' := M.Served(s, r, detach, remove);
    var rows, rows' := s.world.core.rows, s'.world.core.rows;
    assert forall i: nat | i < |rows| :: rows'[i] == rows[i];
    assert forall i: nat | |rows| <= i < |rows'| :: rows'[i].status == Pending;
    assert forall i: nat | i < |rows| :: RowOn(rows', i, topic) <==> RowOn(rows, i, topic);
  }

  lemma ServeKeepsRest(s: Sys, r: Request, detach: Call, remove: Call)
    requires QueuesFit(s) && PhasesFit(s) && BaseFits(s)
    ensures var s' := M.Served(s, r, detach, remove); QueuesFit(s') && PhasesFit(s') && BaseFits(s')
  {
    var s' := M.Served(s, r, detach, remove);
    var rows, rows' := s.world.core.rows, s'.world.core.rows;
    assert forall i: nat | i < |rows| :: rows'[i] == rows[i];
    forall t | t in s'.world.workers ensures QueueFits(rows', t, s'.world.workers[t].queue) && PhaseFits(s', s'.world.workers[t]) {
      assert QueueFits(rows, t, s.world.workers[t].queue) && PhaseFits(s, s.world.workers[t]);
    }
  }

  lemma ServedLog(s: Sys, r: Request, detach: Call, remove: Call)
    ensures M.Log(M.Served(s, r, detach, remove)) == M.Log(s) + Handle(s.db, r).1
  {
  }

  // ---- Every run --------------------------------------------------------------------------------

  lemma ServeKeepsTopic(s: Sys, r: Request, detach: Call, remove: Call, topic: Topic)
    requires TopicFits(s, topic)
    ensures TopicFits(M.Served(s, r, detach, remove), topic)
  {
    ServeKeepsShown(s, r, detach, remove, topic);
    if topic !in s.tainted {
      ServeKeepsOrder(s, r, detach, remove, topic);
    }
  }

  lemma ServeKeepsInvariant(s: Sys, r: Request, detach: Call, remove: Call)
    requires Invariant(s) && Faithful(s.db, r)
    ensures Invariant(M.Served(s, r, detach, remove))
  {
    ServeKeepsCreation(s, r, detach, remove);
    ServeKeepsRest(s, r, detach, remove);
    forall topic ensures TopicFits(M.Served(s, r, detach, remove), topic) {
      ServeKeepsTopic(s, r, detach, remove, topic);
    }
    ServedLog(s, r, detach, remove);
    RequestKeepsAgreement(s.db, M.Log(s), r);
  }

  lemma ClaimKeepsCreation(s: Sys, batch: seq<nat>)
    requires CreatedInOrder(s.world.core.rows, s.now) && M.Enabled(s, M.Claim(batch))
    ensures var s' := M.Ticked(s, batch); CreatedInOrder(s'.world.core.rows, s'.now)
  {
    var rows, rows' := s.world.core.rows, M.Ticked(s, batch).world.core.rows;
    assert forall i: nat, topic :: RowOn(rows', i, topic) <==> RowOn(rows, i, topic);
  }

  lemma ClaimKeepsQueues(s: Sys, batch: seq<nat>)
    requires CreatedInOrder(s.world.core.rows, s.now) && M.Enabled(s, M.Claim(batch))
    ensures QueuesFit(M.Ticked(s, batch))
  {
    var s' := M.Ticked(s, batch);
    forall t | t in s'.world.workers ensures QueueFits(s'.world.core.rows, t, s'.world.workers[t].queue) {
      ClaimedQueueFits(s.world.core.rows, s.now, batch, t);
    }
  }

  lemma ClaimKeepsShown(s: Sys, batch: seq<nat>, topic: Topic)
    requires TopicShown(s, topic) && CompletedReached(s, topic) && M.Enabled(s, M.Claim(batch))
    ensures TopicShown(M.Ticked(s, batch), topic) && CompletedReached(M.Ticked(s, batch), topic)
  {
  }

  lemma ClaimStartsPhases(s: Sys, batch: seq<nat>)
    requires M.Enabled(s, M.Claim(batch))
    ensures PhasesFit(M.Ticked(s, batch))
  {
  }

  lemma ClaimKeepsTopic(s: Sys, batch: seq<nat>, topic: Topic)
    requires CreatedInOrder(s.world.core.rows, s.now) && QueuesFit(s) && M.Enabled(s, M.Claim(batch))
    requires TopicFits(s, topic)
    ensures TopicFits(M.Ticked(s, batch), topic)
  {
    ClaimKeepsShown(s, batch, topic);
    if topic !in s.tainted {
      ClaimKeepsOrder(s, batch, topic);
    } else if M.Recovers(s.world.core.rows, batch, topic) {
      RecoveryOrders(s, batch, topic);
    }
  }

  lemma ClaimKeepsLog(s: Sys, batch: seq<nat>)
    requires M.Enabled(s, M.Claim(batch))
    ensures M.Log(M.Ticked(s, batch)) == M.Log(s)
  {
  }

  lemma ClaimKeepsInvariant(s: Sys, batch: seq<nat>)
    requires Invariant(s) && M.Enabled(s, M.Claim(batch))
    ensures Invariant(M.Ticked(s, batch))
  {
    ClaimKeepsCreation(s, batch);
    ClaimKeepsQueues(s, batch);
    forall topic ensures TopicFits(M.Ticked(s, batch), topic) {
      ClaimKeepsTopic(s, batch, topic);
    }
    ClaimStartsPhases(s, batch);
    ClaimKeepsBase(s, batch);
    ClaimKeepsLog(s, batch);
  }

  lemma CallKeepsTopic(s: Sys, s': Sys, t: string, topic: Topic)
    requires QueuesFit(s) && CallMade(s, s', t) && TopicFits(s, topic)
    ensures TopicFits(s', topic)
  {
    CallKeepsShown(s, s', t, topic);
    if topic !in s.tainted {
      CallKeepsOrder(s, s', t, topic);
    }
  }

  lemma CallKeepsInvariant(s: Sys, s': Sys, t: string)
    requires Invariant(s) && CallMade(s, s', t)
    ensures Invariant(s')
  {
    CallKeepsQueues(s, s', t);
    CallKeepsPhases(s, s', t);
    forall topic ensures TopicFits(s', topic) {
      CallKeepsTopic(s, s', t, topic);
    }
    SameRows(s, s');
  }

  /** Rows with unchanged payloads and creation times keep all that depends on nothing else. */
  lemma SameRows(s: Sys, s': Sys)
    requires CreatedInOrder(s.world.core.rows, s.now) && BaseFits(s)
    requires s'.now == s.now && s'.base == s.base && |s'.world.core.rows| == |s.world.core.rows|
    requires forall i | 0 <= i < |s.world.core.rows| ::
               && s'.world.core.rows[i].payload == s.world.core.rows[i].payload
               && s'.world.core.rows[i].createdAt == s.world.core.rows[i].createdAt
    ensures CreatedInOrder(s'.world.core.rows, s'.now) && BaseFits(s') && M.Log(s') == M.Log(s)
  {
    var rows, rows' := s.world.core.rows, s'.world.core.rows;
    assert forall i: nat, topic :: RowOn(rows', i, topic) <==> RowOn(rows, i, topic);
  }

  lemma SettleKeepsTopic(s: Sys, s': Sys, t: string, topic: Topic)
    requires QueuesFit(s) && PhasesFit(s) && RowWritten(s, s', t) && TopicFits(s, topic)
    ensures TopicFits(s', topic)
  {
    SettleKeepsShown(s, s', t, topic);
    if topic !in s'.tainted {
      SettleKeepsOrder(s, s', t, topic);
    }
  }

  lemma SettleKeepsInvariant(s: Sys, s': Sys, t: string)
    requires Invariant(s) && RowWritten(s, s', t)
    ensures Invariant(s')
  {
    SettleKeepsQueues(s, s', t);
    SettleKeepsPhases(s, s', t);
    forall topic ensures TopicFits(s', topic) {
      SettleKeepsTopic(s, s', t, topic);
    }
    SameRows(s, s');
  }

  lemma ServeStep(s: Sys, step: M.Step, maxAttempts: nat)
    requires step.Serve? && Invariant(s) && M.Enabled(s, step)
    ensures Invariant(M.Apply(s, step, maxAttempts))
  {
    ServeKeepsInvariant(s, step.request, step.detach, step.remove);
  }

  lemma WaitStep(s: Sys, step: M.Step, maxAttempts: nat)
    requires step.Wait? && Invariant(s)
    ensures Invariant(M.Apply(s, step, maxAttempts))
  {
    WaitKeepsInvariant(s, step.time);
  }

  lemma ClaimStep(s: Sys, step: M.Step, maxAttempts: nat)
    requires step.Claim? && Invariant(s) && M.Enabled(s, step)
    ensures Invariant(M.Apply(s, step, maxAttempts))
  {
    ClaimKeepsInvariant(s, step.batch);
  }

  lemma WorkStep(s: Sys, step: M.Step, maxAttempts: nat)
    requires step.Work? && Invariant(s) && M.Enabled(s, step)
    ensures Invariant(M.Apply(s, step, maxAttempts))
  {
    WorkKeepsInvariant(s, step.eventType, step.out, maxAttempts);
  }

  lemma StepKeepsInvariant(s: Sys, step: M.Step, maxAttempts: nat)
    requires Invariant(s) && M.Enabled(s, step)
    ensures Invariant(M.Apply(s, step, maxAttempts))
  {
    match step
    case Serve(_, _, _) => ServeStep(s, step, maxAttempts);
    case Wait(_) => WaitStep(s, step, maxAttempts);
    case Claim(_) => ClaimStep(s, step, maxAttempts);
    case Work(_, _) => WorkStep(s, step, maxAttempts);
  }

  lemma WorkKeepsInvariant(s: Sys, t: string, out: Outcome, maxAttempts: nat)
    requires Invariant(s) && Busy(s.world, t)
    ensures Invariant(M.Worked(s, t, out, maxAttempts))
  {
    if PhaseRank(s.world.workers[t].phase) > 0 {
      CallSummary(s, t, out, maxAttempts);
      CallKeepsInvariant(s, M.Worked(s, t, out, maxAttempts), t);
    } else {
      SettleSummary(s, t, out, maxAttempts);
      SettleKeepsInvariant(s, M.Worked(s, t, out, maxAttempts), t);
    }
  }

  lemma WaitKeepsInvariant(s: Sys, time: nat)
    requires Invariant(s)
    ensures Invariant(M.Waited(s, time))
  {
    var s' := M.Waited(s, time);
    forall topic ensures TopicFits(s', topic) {
      assert TopicFits(s, topic);
      WaitKeepsTopic(s, time, topic);
    }
    WaitKeepsPhases(s, time);
  }

  lemma WaitKeepsTopic(s: Sys, time: nat, topic: Topic)
    requires TopicFits(s, topic)
    ensures TopicFits(M.Waited(s, time), topic)
  {
  }

  lemma WaitKeepsPhases(s: Sys, time: nat)
    requires PhasesFit(s)
    ensures PhasesFit(M.Waited(s, time))
  {
    assert forall k: Worker :: PhaseFits(s, k) ==> PhaseFits(M.Waited(s, time), k);
  }

  lemma {:induction false} RunKeepsInvariant(s: Sys, steps: seq<M.Step>, maxAttempts: nat)
    requires Invariant(s) && M.CanRun(s, steps, maxAttempts)
    ensures Invariant(M.Exec(s, steps, maxAttempts))
    decreases |steps|
  {
    if steps != [] {
      StepKeepsInvariant(s, steps[0], maxAttempts);
      RunKeepsInvariant(M.Apply(s, steps[0], maxAttempts), steps[1..], maxAttempts);
    }
  }

  lemma EmptyFits(s: Sys, topic: Topic)
    requires s.world.core.rows == [] && s.published == map[] && s.world.core.retained == map[]
    requires TypeOfTopic(topic) in s.world.workers
    ensures TopicFits(s, topic)
  {
  }

  lemma EmptyAgrees(db: Db, log: seq<Payload>)
    requires db == Db(map[], map[], map[], map[]) && log == []
    ensures Agree(db, log)
  {
  }

  lemma InitialWorkers()
    ensures var s := M.INITIAL; s.world.workers.Keys == REGISTERED && AllIdle(s.world) && M.Log(s) == []
  {
  }

  lemma InitialInvariant()
    ensures Invariant(M.INITIAL)
  {
    var s := M.INITIAL;
    InitialWorkers();
    forall topic ensures TopicFits(s, topic) {
      EmptyFits(s, topic);
    }
    EmptyAgrees(s.db, M.Log(s));
  }

  lemma ReachableInvariant(s: Sys, maxAttempts: nat)
    requires M.Reachable(s, maxAttempts)
    ensures Invariant(s)
  {
    var steps :| M.CanRun(M.INITIAL, steps, maxAttempts) && M.Exec(M.INITIAL, steps, maxAttempts) == s;
    InitialInvariant();
    RunKeepsInvariant(M.INITIAL, steps, maxAttempts);
  }

  lemma ReachableTopic(s: Sys, topic: Topic, maxAttempts: nat)
    requires M.Reachable(s, maxAttempts)
    ensures TopicFits(s, topic) && BaseFits(s)
  {
    ReachableInvariant(s, maxAttempts);
  }

  // ---- Convergence ------------------------------------------------------------------------------

  /** The newest event on the topic, if there is one, is completed. */
  predicate Delivered(s: Sys, topic: Topic) {
    var n := Newest(M.Log(s), topic);
    n >= 0 ==> s.world.core.rows[n].status == Completed
  }

  /** The event that was the last to reach the topic is the newest one, or carries the same message. */
  ghost predicate UpToDate(s: Sys, topic: Topic) {
    var log := M.Log(s);
    var n := Newest(log, topic);
    n >= 0 ==>
      && topic in s.published && s.published[topic] < |log| && TopicOf(log[s.published[topic]]).Some?
      && MessageOf(log[s.published[topic]]) == MessageOf(log[n])
  }

  lemma MessagesTell(topic: Topic, p: Payload, q: Payload)
    requires On(p, topic) && On(q, topic)
    ensures IsTriggerDelete(p) && MessageOf(p) == MessageOf(q) ==> IsTriggerDelete(q)
    ensures IsTriggerDelete(p) && IsTriggerDelete(q) ==> MessageOf(p) == MessageOf(q)
  {
  }

  /**
   * Topic convergence: without events nothing is retained, and once the newest event on a topic is completed,
   * what is retained there is its message if and only if the event that was the last to reach the topic is the
   * newest one or carries the same message.
   */
  lemma TopicConverges(s: Sys, topic: Topic, maxAttempts: nat)
    requires M.Reachable(s, maxAttempts) && Delivered(s, topic)
    ensures var n := Newest(M.Log(s), topic);
            if n >= 0 then Shows(s.world.core.retained, topic, M.Log(s)[n]) <==> UpToDate(s, topic)
            else topic !in s.world.core.retained
  {
    ReachableTopic(s, topic, maxAttempts);
    LastToReachDecides(s, topic);
  }

  lemma LastToReachDecides(s: Sys, topic: Topic)
    requires TopicShown(s, topic) && CompletedReached(s, topic) && Delivered(s, topic)
    ensures var n := Newest(M.Log(s), topic);
            if n >= 0 then Shows(s.world.core.retained, topic, M.Log(s)[n]) <==> UpToDate(s, topic)
            else topic !in s.world.core.retained
  {
    var n, log := Newest(M.Log(s), topic), M.Log(s);
    if topic in s.published {
      assert On(log[s.published[topic]], topic);
    }
    if n >= 0 {
      assert RowOn(s.world.core.rows, n, topic);
      MessagesTell(topic, log[s.published[topic]], log[n]);
      MessagesTell(topic, log[n], log[s.published[topic]]);
    }
  }

  /** Besides, since the topic last recovered no event on it was overtaken and no row write lost. */
  ghost predicate Settled(s: Sys, topic: Topic) {
    topic !in s.tainted && Delivered(s, topic)
  }

  lemma SettledIsUpToDate(s: Sys, topic: Topic, maxAttempts: nat)
    requires M.Reachable(s, maxAttempts) && Settled(s, topic)
    ensures UpToDate(s, topic)
  {
    ReachableTopic(s, topic, maxAttempts);
    InOrderIsUpToDate(s, topic);
  }

  lemma InOrderIsUpToDate(s: Sys, topic: Topic)
    requires TopicFits(s, topic) && BaseFits(s) && Settled(s, topic)
    ensures UpToDate(s, topic)
  {
    var n, rows, log := Newest(M.Log(s), topic), s.world.core.rows, M.Log(s);
    if n >= 0 {
      assert RowOn(rows, n, topic);
      if topic in s.base {
        assert On(log[s.base[topic]], topic);
      }
      var p := s.published[topic];
      assert On(log[p], topic);
      assert p == n;
    }
  }

  // ---- Recovery ---------------------------------------------------------------------------------

  /** Row `n` is the newest on the topic, all older ones are over, and once it is completed it was the last to reach the topic. */
  ghost predicate Alone(s: Sys, topic: Topic, n: nat) {
    && Newest(M.Log(s), topic) == n
    && (forall i | 0 <= i < n && On(s.world.core.rows[i].payload, topic) :: M.Over(s.world.core.rows[i]))
    && (s.world.core.rows[n].status == Completed ==> topic in s.published && s.published[topic] == n)
  }

  lemma AloneRow(s: Sys, topic: Topic, n: nat, i: nat)
    requires Alone(s, topic, n) && RowOn(s.world.core.rows, i, topic) && s.world.core.rows[i].status == Processing
    ensures i == n
  {
    assert On(M.Log(s)[i], topic);
  }

  lemma CallKeepsAlone(s: Sys, s': Sys, t: string, topic: Topic, n: nat)
    requires QueuesFit(s) && Alone(s, topic, n) && CallMade(s, s', t)
    ensures Alone(s', topic, n)
  {
    var e := s.world.workers[t].queue[0];
    assert QueueFits(s.world.core.rows, t, s.world.workers[t].queue);
    assert PublishesAtMost(s, s', topic, e.id, e.payload);
    if On(e.payload, topic) {
      AloneRow(s, topic, n, e.id);
    }
    assert M.Log(s') == M.Log(s);
  }

  lemma SettleKeepsAlone(s: Sys, s': Sys, t: string, topic: Topic, n: nat)
    requires QueuesFit(s) && PhasesFit(s) && Alone(s, topic, n) && RowWritten(s, s', t)
    ensures Alone(s', topic, n)
  {
    var k := s.world.workers[t];
    assert QueueFits(s.world.core.rows, t, k.queue) && PhaseFits(s, k);
    if On(k.queue[0].payload, topic) {
      AloneRow(s, topic, n, k.queue[0].id);
    }
    assert M.Log(s') == M.Log(s);
  }

  lemma ClaimKeepsAlone(s: Sys, batch: seq<nat>, topic: Topic, n: nat)
    requires Alone(s, topic, n) && M.Enabled(s, M.Claim(batch))
    ensures Alone(M.Ticked(s, batch), topic, n)
  {
    var s' := M.Ticked(s, batch);
    ClaimKeepsLog(s, batch);
    forall i: nat | i in batch ensures !M.Over(s.world.core.rows[i]) {
      var a := InBatch(s.world.core.rows, s.now, batch, i);
    }
  }

  lemma StepKeepsAlone(s: Sys, step: M.Step, maxAttempts: nat, topic: Topic, n: nat)
    requires Invariant(s) && M.Enabled(s, step) && Alone(s, topic, n)
    requires Newest(M.Log(M.Apply(s, step, maxAttempts)), topic) == n
    ensures Alone(M.Apply(s, step, maxAttempts), topic, n)
  {
    match step
    case Serve(request, detach, remove) =>
      var s' := M.Served(s, request, detach, remove);
      assert forall i: nat | i < |s.world.core.rows| :: s'.world.core.rows[i] == s.world.core.rows[i];
    case Wait(time) =>
    case Claim(batch) => ClaimKeepsAlone(s, batch, topic, n);
    case Work(t, out) =>
      if PhaseRank(s.world.workers[t].phase) > 0 {
        CallSummary(s, t, out, maxAttempts);
        CallKeepsAlone(s, M.Worked(s, t, out, maxAttempts), t, topic, n);
      } else {
        SettleSummary(s, t, out, maxAttempts);
        SettleKeepsAlone(s, M.Worked(s, t, out, maxAttempts), t, topic, n);
      }
  }

  lemma StepExtendsLog(s: Sys, step: M.Step, maxAttempts: nat)
    requires Invariant(s) && M.Enabled(s, step)
    ensures M.Log(s) <= M.Log(M.Apply(s, step, maxAttempts))
  {
    match step
    case Serve(request, detach, remove) => ServedLog(s, request, detach, remove);
    case Wait(time) =>
    case Claim(batch) => ClaimKeepsLog(s, batch);
    case Work(t, out) => WorkKeepsLog(s, t, out, maxAttempts);
  }

  lemma WorkKeepsLog(s: Sys, t: string, out: Outcome, maxAttempts: nat)
    requires Invariant(s) && Busy(s.world, t)
    ensures M.Log(M.Worked(s, t, out, maxAttempts)) == M.Log(s)
  {
    var s' := M.Worked(s, t, out, maxAttempts);
    if PhaseRank(s.world.workers[t].phase) > 0 {
      CallSummary(s, t, out, maxAttempts);
    } else {
      SettleSummary(s, t, out, maxAttempts);
    }
    var rows, rows' := s.world.core.rows, s'.world.core.rows;
    assert forall i | 0 <= i < |rows| :: rows'[i].payload == rows[i].payload;
  }

  lemma NewestOfPrefix(log: seq<Payload>, log': seq<Payload>, topic: Topic)
    requires log <= log'
    ensures Newest(log, topic) <= Newest(log', topic)
  {
    var n := Newest(log, topic);
    assert n >= 0 ==> On(log'[n], topic);
  }

  lemma {:induction false} RunKeepsAlone(s: Sys, steps: seq<M.Step>, maxAttempts: nat, topic: Topic, n: nat)
    requires Invariant(s) && M.CanRun(s, steps, maxAttempts) && Newest(M.Log(s), topic) >= n
    requires Newest(M.Log(s), topic) == n ==> Alone(s, topic, n)
    ensures var s' := M.Exec(s, steps, maxAttempts);
            && Newest(M.Log(s'), topic) >= Newest(M.Log(s), topic)
            && (Newest(M.Log(s'), topic) == n ==> Alone(s', topic, n))
    decreases |steps|
  {
    if steps != [] {
      var s1 := M.Apply(s, steps[0], maxAttempts);
      StepKeepsInvariant(s, steps[0], maxAttempts);
      StepExtendsLog(s, steps[0], maxAttempts);
      NewestOfPrefix(M.Log(s), M.Log(s1), topic);
      if Newest(M.Log(s1), topic) == n {
        StepKeepsAlone(s, steps[0], maxAttempts, topic, n);
      }
      RunKeepsAlone(s1, steps[1..], maxAttempts, topic, n);
    }
  }

  lemma RunKeepsTopic(s: Sys, steps: seq<M.Step>, maxAttempts: nat, topic: Topic)
    requires Invariant(s) && M.CanRun(s, steps, maxAttempts)
    ensures TopicFits(M.Exec(s, steps, maxAttempts), topic)
  {
    RunKeepsInvariant(s, steps, maxAttempts);
  }

  /**
   * Recovery: whatever has happened to a topic before, if at some point its newest event is not yet completed
   * while all older ones are completed or dead, then whenever that event is still the newest and completed, the
   * topic shows it. Its own attempts may fail and its row writes may get lost.
   */
  lemma TopicRecovers(s: Sys, steps: seq<M.Step>, topic: Topic, maxAttempts: nat)
    requires M.Reachable(s, maxAttempts) && M.CanRun(s, steps, maxAttempts)
    requires var n := Newest(M.Log(s), topic);
             && n >= 0 && s.world.core.rows[n].status != Completed
             && forall i | 0 <= i < n && On(s.world.core.rows[i].payload, topic) :: M.Over(s.world.core.rows[i])
    requires var s', n := M.Exec(s, steps, maxAttempts), Newest(M.Log(s), topic);
             Newest(M.Log(s'), topic) == n && s'.world.core.rows[n].status == Completed
    ensures var s' := M.Exec(s, steps, maxAttempts);
            UpToDate(s', topic) && Shows(s'.world.core.retained, topic, M.Log(s')[Newest(M.Log(s), topic)])
  {
    var n, s' := Newest(M.Log(s), topic), M.Exec(s, steps, maxAttempts);
    ReachableInvariant(s, maxAttempts);
    RunKeepsAlone(s, steps, maxAttempts, topic, n);
    RunKeepsTopic(s, steps, maxAttempts, topic);
    LastToReachDecides(s', topic);
  }

  // ---- What the tables say ----------------------------------------------------------------------

  /**
   * Trigger convergence: once the newest event of a stored trigger is completed, its topic holds the upsert of
   * its stored fields, or after a deletion nothing or a delete, if and only if the topic is up to date.
   */
  lemma TriggersConverge(s: Sys, id: Id, maxAttempts: nat)
    requires M.Reachable(s, maxAttempts) && id in s.db.triggers
    requires Delivered(s, TriggerTopic(s.db.triggers[id].device, id))
    ensures var t, retained := s.db.triggers[id], s.world.core.retained;
            var topic := TriggerTopic(t.device, id);
            UpToDate(s, topic) <==>
              if t.deleted then topic in retained ==> retained[topic] == TriggerDelete(id)
              else topic in retained && retained[topic] == TriggerUpsert(id, TriggerBody(t.enabled, t.condition, t.actions, t.cooldown))
  {
    ReachableInvariant(s, maxAttempts);
    TopicConverges(s, TriggerTopic(s.db.triggers[id].device, id), maxAttempts);
  }

  predicate Occupying(p: Peripheral, device: Id, kind: string, pin: nat) {
    p.device == device && p.kind == kind && p.pin == pin
  }

  /** The active peripheral of the device with this kind and pin. */
  ghost predicate Occupant(db: Db, id: Id, device: Id, kind: string, pin: nat) {
    Active(db, id) && Occupying(db.peripherals[id], device, kind, pin)
  }

  lemma NewestOfPin(db: Db, log: seq<Payload>, device: Id, kind: string, pin: nat)
    requires PeripheralsAgree(db, log)
    ensures var topic := PeripheralTopic(device, KindPin(kind, pin));
            && (forall id | Occupant(db, id, device, kind, pin) :: NewestIs(log, topic, CreateOf(db.peripherals[id])))
            && ((forall id :: !Occupant(db, id, device, kind, pin)) && Newest(log, topic) >= 0 ==>
                  log[Newest(log, topic)] == PeripheralPush(device, KindPin(kind, pin), None))
  {
    var topic := PeripheralTopic(device, KindPin(kind, pin));
    var n := Newest(log, topic);
    if n >= 0 && log[n].placement.Some? {
      assert Occupies(db, log[n]);
      var id :| id in db.peripherals && Active(db, id) && CreateOf(db.peripherals[id]) == log[n];
      KindPinInjective(db.peripherals[id].kind, db.peripherals[id].pin, kind, pin);
      assert Occupant(db, id, device, kind, pin);
    }
  }

  /**
   * Peripheral convergence: once the newest event on the topic of a kind-pin is completed, the topic is up to date
   * exactly when it holds the create, with its purpose, of the active peripheral of the device with that kind and
   * pin, or a delete, or nothing if there never was an event, when there is no such peripheral.
   */
  lemma PeripheralsConverge(s: Sys, device: Id, kind: string, pin: nat, maxAttempts: nat)
    requires M.Reachable(s, maxAttempts) && Delivered(s, PeripheralTopic(device, KindPin(kind, pin)))
    ensures var topic, retained := PeripheralTopic(device, KindPin(kind, pin)), s.world.core.retained;
            && (forall id | Occupant(s.db, id, device, kind, pin) ::
                  UpToDate(s, topic) <==>
                    && topic in retained
                    && retained[topic] == PeripheralMessage(device, KindPin(kind, pin), Some(Placement(kind, pin, s.db.peripherals[id].purpose))))
            && ((forall id :: !Occupant(s.db, id, device, kind, pin)) ==>
                  if Newest(M.Log(s), topic) >= 0 then
                    UpToDate(s, topic) <==> topic in retained && retained[topic] == PeripheralMessage(device, KindPin(kind, pin), None)
                  else topic !in retained)
  {
    ReachablePeripherals(s, maxAttempts);
    NewestOfPin(s.db, M.Log(s), device, kind, pin);
    TopicConverges(s, PeripheralTopic(device, KindPin(kind, pin)), maxAttempts);
  }

  lemma ReachablePeripherals(s: Sys, maxAttempts: nat)
    requires M.Reachable(s, maxAttempts)
    ensures PeripheralsAgree(s.db, M.Log(s))
  {
    ReachableInvariant(s, maxAttempts);
  }

  /** At most one active peripheral occupies a pin of a device, or a port of any device. */
  lemma OneOccupant(s: Sys, i: Id, j: Id, maxAttempts: nat)
    requires M.Reachable(s, maxAttempts) && Active(s.db, i) && Active(s.db, j) && i != j
    ensures var p, q := s.db.peripherals[i], s.db.peripherals[j];
            (p.device == q.device ==> p.pin != q.pin) && (p.port.Some? ==> p.port != q.port)
  {
    ReachableInvariant(s, maxAttempts);
  }

  /**
   * Timezone fan-out: once the newest config event of an activated device is completed, its topic holds its
   * owner's current timezone if and only if the topic is up to date.
   */
  lemma ConfigsConverge(s: Sys, device: Id, maxAttempts: nat)
    requires M.Reachable(s, maxAttempts) && device in s.db.devices
    requires s.db.devices[device].username.Some? && !s.db.devices[device].deleted
    requires Delivered(s, ConfigTopic(device))
    ensures var retained, user := s.world.core.retained, s.db.devices[device].user;
            UpToDate(s, ConfigTopic(device)) <==>
              && ConfigTopic(device) in retained
              && retained[ConfigTopic(device)] == ConfigMessage(if user in s.db.timezones then s.db.timezones[user] else "UTC")
  {
    ReachableInvariant(s, maxAttempts);
    TopicConverges(s, ConfigTopic(device), maxAttempts);
  }
}
