/** The topic of a deleted trigger: whether the clearing publish that follows its delete has emptied it. */
module ClearedTopics {
  import opened Wrappers
  import opened Calls
  import opened Events
  import opened Outbox
  import opened Delivery
  import opened Tables
  import M = SystemMachine
  import C = Convergence

  type Sys = M.Sys

  /** The worker for triggers is delivering row `n` and has got to `phase`. */
  predicate At(s: Sys, n: nat, phase: Phase) {
    && TRIGGER_PUSH in s.world.workers
    && var k := s.world.workers[TRIGGER_PUSH];
    && k.queue != [] && k.queue[0].id == n && k.phase == phase
  }

  predicate DeleteRow(rows: seq<Row>, n: nat, topic: Topic) {
    n < |rows| && IsTriggerDelete(rows[n].payload) && On(rows[n].payload, topic)
  }

  /**
   * A delete that was the last to reach its topic is retained until the clearing call, and once that was made, the
   * topic is empty exactly if it took effect.
   */
  ghost predicate ClearFits(s: Sys, topic: Topic, n: nat) {
    DeleteRow(s.world.core.rows, n, topic) && topic in s.published && s.published[topic] == n ==>
      && (At(s, n, Clearing) ==> topic in s.world.core.retained)
      && (At(s, n, Succeeded) || s.world.core.rows[n].status == Completed ==>
            topic in s.cleared && (topic !in s.world.core.retained <==> s.cleared[topic]))
  }

  /** Nothing that decides about row `n` on the topic has changed, except that its worker may have moved on. */
  lemma Unaffected(s: Sys, s': Sys, topic: Topic, n: nat)
    requires ClearFits(s, topic, n)
    requires DeleteRow(s'.world.core.rows, n, topic) ==> DeleteRow(s.world.core.rows, n, topic)
    requires topic in s'.published <==> topic in s.published
    requires topic in s.published ==> s'.published[topic] == s.published[topic]
    requires topic in s'.world.core.retained <==> topic in s.world.core.retained
    requires topic in s'.cleared <==> topic in s.cleared
    requires topic in s.cleared ==> s'.cleared[topic] == s.cleared[topic]
    requires At(s', n, Clearing) ==> At(s, n, Clearing)
    requires At(s', n, Succeeded) ==> At(s, n, Succeeded)
    requires DeleteRow(s'.world.core.rows, n, topic) && s'.world.core.rows[n].status == Completed ==>
               s.world.core.rows[n].status == Completed || At(s, n, Succeeded)
    ensures ClearFits(s', topic, n)
  {
  }

  // ---- A call -----------------------------------------------------------------------------------

  /** What a call on behalf of the push event at the head of a queue does. */
  lemma PushCall(s: Sys, t: string, out: Outcome, maxAttempts: nat)
    requires Busy(s.world, t) && PhaseRank(s.world.workers[t].phase) > 0
    requires TopicOf(s.world.workers[t].queue[0].payload).Some?
    ensures var k, s' := s.world.workers[t], M.Worked(s, t, out, maxAttempts);
            var topic := TopicOf(k.queue[0].payload).value;
            var (retained, next) := PushEffect(s.world.core.retained, k.queue[0].payload, k.phase, out);
            && s'.world == World(s.world.core.(retained := retained), s.world.workers[t := Worker(k.queue, next)])
            && s'.published == (if M.Reaches(k.phase, out) then s.published[topic := k.queue[0].id] else s.published)
            && s'.cleared == if k.phase == Clearing then s.cleared[topic := TakesEffect(out.clear)] else s.cleared
  {
  }

  lemma OtherCall(s: Sys, t: string, out: Outcome, maxAttempts: nat)
    requires Busy(s.world, t) && PhaseRank(s.world.workers[t].phase) > 0
    requires TopicOf(s.world.workers[t].queue[0].payload).None?
    ensures var k, s' := s.world.workers[t], M.Worked(s, t, out, maxAttempts);
            && s'.world.core.rows == s.world.core.rows && s'.world.core.retained == s.world.core.retained
            && s'.published == s.published && s'.cleared == s.cleared
            && t in s'.world.workers && s'.world.workers == s.world.workers[t := s'.world.workers[t]]
            && s'.world.workers[t].queue == k.queue
  {
  }

  /** The call is on behalf of another event on the topic. */
  lemma CallForOther(s: Sys, t: string, out: Outcome, maxAttempts: nat, topic: Topic, n: nat)
    requires Busy(s.world, t) && PhaseRank(s.world.workers[t].phase) > 0 && t == TRIGGER_PUSH
    requires C.PhaseFits(s, s.world.workers[t]) && ClearFits(s, topic, n)
    requires s.world.workers[t].queue[0].id != n && On(s.world.workers[t].queue[0].payload, topic)
    ensures ClearFits(M.Worked(s, t, out, maxAttempts), topic, n)
  {
    PushCall(s, t, out, maxAttempts);
  }

  /** The call is on behalf of an event on no topic or another. */
  lemma CallOnOtherTopic(s: Sys, t: string, out: Outcome, maxAttempts: nat, topic: Topic, n: nat)
    requires ClearFits(s, topic, n) && Busy(s.world, t) && PhaseRank(s.world.workers[t].phase) > 0
    requires s.world.workers[t].queue[0].id != n && !On(s.world.workers[t].queue[0].payload, topic)
    ensures ClearFits(M.Worked(s, t, out, maxAttempts), topic, n)
  {
    if TopicOf(s.world.workers[t].queue[0].payload).Some? {
      PushCall(s, t, out, maxAttempts);
    } else {
      OtherCall(s, t, out, maxAttempts);
    }
    Unaffected(s, M.Worked(s, t, out, maxAttempts), topic, n);
  }

  lemma CallElsewhere(s: Sys, t: string, out: Outcome, maxAttempts: nat, topic: Topic, n: nat)
    requires C.QueuesFit(s) && C.PhasesFit(s) && ClearFits(s, topic, n)
    requires Busy(s.world, t) && PhaseRank(s.world.workers[t].phase) > 0
    requires DeleteRow(s.world.core.rows, n, topic) && s.world.workers[t].queue[0].id != n
    ensures ClearFits(M.Worked(s, t, out, maxAttempts), topic, n)
  {
    var e := s.world.workers[t].queue[0];
    if On(e.payload, topic) {
      assert C.QueueFits(s.world.core.rows, t, s.world.workers[t].queue) && C.PhaseFits(s, s.world.workers[t]);
      C.TopicTellsType(e.payload, topic);
      C.TopicTellsType(s.world.core.rows[n].payload, topic);
      CallForOther(s, t, out, maxAttempts, topic, n);
    } else {
      CallOnOtherTopic(s, t, out, maxAttempts, topic, n);
    }
  }

  /** The call is about row `n` itself. */
  lemma CallForDelete(s: Sys, t: string, out: Outcome, maxAttempts: nat, topic: Topic, n: nat)
    requires C.QueuesFit(s) && C.PhasesFit(s) && ClearFits(s, topic, n)
    requires Busy(s.world, t) && PhaseRank(s.world.workers[t].phase) > 0
    requires DeleteRow(s.world.core.rows, n, topic) && s.world.workers[t].queue[0].id == n
    ensures ClearFits(M.Worked(s, t, out, maxAttempts), topic, n)
  {
    var k := s.world.workers[t];
    assert C.QueueFits(s.world.core.rows, t, k.queue) && C.PhaseFits(s, k);
    assert t == TRIGGER_PUSH;
    PushCall(s, t, out, maxAttempts);
  }

  // ---- The other steps --------------------------------------------------------------------------

  lemma SettleKeepsClear(s: Sys, t: string, out: Outcome, maxAttempts: nat, topic: Topic, n: nat)
    requires C.QueuesFit(s) && ClearFits(s, topic, n)
    requires Busy(s.world, t) && PhaseRank(s.world.workers[t].phase) == 0
    ensures ClearFits(M.Worked(s, t, out, maxAttempts), topic, n)
  {
    var k, s' := s.world.workers[t], M.Worked(s, t, out, maxAttempts);
    assert C.QueueFits(s.world.core.rows, t, k.queue);
    C.SettleSummary(s, t, out, maxAttempts);
    C.SettledRow(s, t, out, maxAttempts);
    assert s'.cleared == s.cleared;
    assert forall i | 0 <= i < |s.world.core.rows| :: s'.world.core.rows[i].payload == s.world.core.rows[i].payload;
    if n == k.queue[0].id && DeleteRow(s.world.core.rows, n, topic) {
      assert t == TRIGGER_PUSH;
    }
    Unaffected(s, s', topic, n);
  }

  lemma ServeKeepsClear(s: Sys, r: Request, detach: Call, remove: Call, topic: Topic, n: nat)
    requires ClearFits(s, topic, n) && (topic in s.published ==> s.published[topic] < |s.world.core.rows|)
    ensures ClearFits(M.Served(s, r, detach, remove), topic, n)
  {
    var s' := M.Served(s, r, detach, remove);
    assert forall i: nat | i < |s.world.core.rows| :: s'.world.core.rows[i] == s.world.core.rows[i];
    if n < |s.world.core.rows| {
      Unaffected(s, s', topic, n);
    }
  }

  lemma ClaimKeepsClear(s: Sys, batch: seq<nat>, topic: Topic, n: nat)
    requires ClearFits(s, topic, n) && M.Enabled(s, M.Claim(batch))
    ensures ClearFits(M.Ticked(s, batch), topic, n)
  {
    Unaffected(s, M.Ticked(s, batch), topic, n);
  }

  lemma WorkKeepsClear(s: Sys, t: string, out: Outcome, maxAttempts: nat, topic: Topic, n: nat)
    requires C.QueuesFit(s) && C.PhasesFit(s) && ClearFits(s, topic, n) && Busy(s.world, t)
    ensures ClearFits(M.Worked(s, t, out, maxAttempts), topic, n)
  {
    if PhaseRank(s.world.workers[t].phase) == 0 {
      SettleKeepsClear(s, t, out, maxAttempts, topic, n);
    } else if !DeleteRow(s.world.core.rows, n, topic) {
      C.CallSummary(s, t, out, maxAttempts);
    } else if s.world.workers[t].queue[0].id == n {
      CallForDelete(s, t, out, maxAttempts, topic, n);
    } else {
      CallElsewhere(s, t, out, maxAttempts, topic, n);
    }
  }

  lemma StepKeepsClear(s: Sys, step: M.Step, maxAttempts: nat, topic: Topic, n: nat)
    requires M.Reachable(s, maxAttempts) && ClearFits(s, topic, n) && M.Enabled(s, step)
    ensures ClearFits(M.Apply(s, step, maxAttempts), topic, n)
  {
    C.ReachableInvariant(s, maxAttempts);
    match step
    case Serve(request, detach, remove) =>
      assert C.TopicFits(s, topic);
      ServeKeepsClear(s, request, detach, remove, topic, n);
    case Wait(time) => Unaffected(s, M.Waited(s, time), topic, n);
    case Claim(batch) => ClaimKeepsClear(s, batch, topic, n);
    case Work(t, out) => WorkKeepsClear(s, t, out, maxAttempts, topic, n);
  }

  lemma {:induction false} RunKeepsClear(s: Sys, steps: seq<M.Step>, maxAttempts: nat, topic: Topic, n: nat)
    requires M.Reachable(s, maxAttempts) && ClearFits(s, topic, n) && M.CanRun(s, steps, maxAttempts)
    ensures ClearFits(M.Exec(s, steps, maxAttempts), topic, n)
    decreases |steps|
  {
    if steps != [] {
      StepKeepsClear(s, steps[0], maxAttempts, topic, n);
      M.ReachableNext(s, steps[0], maxAttempts);
      RunKeepsClear(M.Apply(s, steps[0], maxAttempts), steps[1..], maxAttempts, topic, n);
    }
  }

  lemma ReachableClear(s: Sys, maxAttempts: nat, topic: Topic, n: nat)
    requires M.Reachable(s, maxAttempts)
    ensures ClearFits(s, topic, n)
  {
    var steps :| M.CanRun(M.INITIAL, steps, maxAttempts) && M.Exec(M.INITIAL, steps, maxAttempts) == s;
    M.InitialReachable(maxAttempts);
    RunKeepsClear(M.INITIAL, steps, maxAttempts, topic, n);
  }

  /** On the topic of a deleted trigger the delete is the only event of its kind, and the newest. */
  lemma OnlyDelete(s: Sys, id: Id, maxAttempts: nat)
    requires M.Reachable(s, maxAttempts) && id in s.db.triggers && s.db.triggers[id].deleted
    ensures var topic := TriggerTopic(s.db.triggers[id].device, id);
            && Newest(M.Log(s), topic) >= 0
            && forall i | 0 <= i < |M.Log(s)| && On(M.Log(s)[i], topic) && IsTriggerDelete(M.Log(s)[i]) :: i == Newest(M.Log(s), topic)
  {
    C.ReachableInvariant(s, maxAttempts);
    var topic, log := TriggerTopic(s.db.triggers[id].device, id), M.Log(s);
    assert NewestIs(log, topic, LastWord(id, s.db.triggers[id]));
    var n := Newest(log, topic);
    forall i | 0 <= i < |log| && On(log[i], topic) && IsTriggerDelete(log[i]) ensures i == n {
      assert i <= n && log[n].trigger == log[i].trigger;
    }
  }

  /**
   * Once the delete of a trigger is completed and its topic is up to date, a clearing call has been made for the
   * topic, and the topic is empty if and only if the last one took effect; otherwise the delete is retained.
   */
  lemma DeletedTriggerCleared(s: Sys, id: Id, maxAttempts: nat)
    requires M.Reachable(s, maxAttempts) && id in s.db.triggers && s.db.triggers[id].deleted
    requires var topic := TriggerTopic(s.db.triggers[id].device, id); C.Delivered(s, topic) && C.UpToDate(s, topic)
    ensures var topic := TriggerTopic(s.db.triggers[id].device, id);
            && topic in s.cleared
            && (topic !in s.world.core.retained <==> s.cleared[topic])
            && (topic in s.world.core.retained ==> s.world.core.retained[topic] == TriggerDelete(id))
  {
    var topic, log := TriggerTopic(s.db.triggers[id].device, id), M.Log(s);
    OnlyDelete(s, id, maxAttempts);
    DeleteIsNewest(s, id, maxAttempts);
    var n, p := Newest(log, topic), s.published[topic];
    LastIsDelete(s, topic, id, maxAttempts);
    ReachableClear(s, maxAttempts, topic, n);
    C.TriggersConverge(s, id, maxAttempts);
  }

  lemma DeleteIsNewest(s: Sys, id: Id, maxAttempts: nat)
    requires M.Reachable(s, maxAttempts) && id in s.db.triggers && s.db.triggers[id].deleted
    ensures var topic := TriggerTopic(s.db.triggers[id].device, id);
            Newest(M.Log(s), topic) >= 0 && IsTriggerDelete(M.Log(s)[Newest(M.Log(s), topic)])
  {
    C.ReachableInvariant(s, maxAttempts);
    var topic := TriggerTopic(s.db.triggers[id].device, id);
    assert NewestIs(M.Log(s), topic, LastWord(id, s.db.triggers[id]));
  }

  lemma LastIsDelete(s: Sys, topic: Topic, id: Id, maxAttempts: nat)
    requires M.Reachable(s, maxAttempts) && id in s.db.triggers && s.db.triggers[id].deleted
    requires topic == TriggerTopic(s.db.triggers[id].device, id) && C.UpToDate(s, topic)
    ensures topic in s.published && s.published[topic] == Newest(M.Log(s), topic)
  {
    OnlyDelete(s, id, maxAttempts);
    DeleteIsNewest(s, id, maxAttempts);
    C.ReachableTopic(s, topic, maxAttempts);
    var log := M.Log(s);
    var n, p := Newest(log, topic), s.published[topic];
    assert On(log[p], topic);
    C.MessagesTell(topic, log[n], log[p]);
  }
}
