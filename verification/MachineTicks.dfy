/** The drain and waiting bounds, for runs of the whole system: ticks interleaved with requests and the passing of time. */
module MachineTicks {
  import opened Calls
  import opened Events
  import opened Outbox
  import opened Delivery
  import opened Tables
  import opened Drain
  import M = SystemMachine
  import C = Convergence

  type Sys = M.Sys

  function Rows(s: Sys): seq<Row> {
    s.world.core.rows
  }

  // ---- What every reachable state keeps ---------------------------------------------------------

  /** A queued event knows the attempts of its row. */
  ghost predicate AttemptsKnown(rows: seq<Row>, queue: seq<Event>) {
    forall k | 0 <= k < |queue| :: queue[k].id < |rows| && queue[k].attempts == rows[queue[k].id].attempts
  }

  ghost predicate Registered(rows: seq<Row>) {
    forall i | 0 <= i < |rows| :: TypeOf(rows[i].payload) in REGISTERED
  }

  ghost predicate Budgeted(s: Sys, maxAttempts: nat) {
    && WithinBudget(Rows(s), maxAttempts) && Registered(Rows(s))
    && (forall t | t in s.world.workers :: AttemptsKnown(Rows(s), s.world.workers[t].queue))
  }

  lemma RequestsRegister(db: Db, r: Request)
    ensures forall k | 0 <= k < |Handle(db, r).1| :: TypeOf(Handle(db, r).1[k]) in REGISTERED
  {
  }

  lemma ServeKeepsBudgeted(s: Sys, r: Request, detach: Call, remove: Call, maxAttempts: nat)
    requires 0 < maxAttempts && Budgeted(s, maxAttempts)
    ensures Budgeted(M.Served(s, r, detach, remove), maxAttempts)
  {
    var s' := M.Served(s, r, detach, remove);
    RequestsRegister(s.db, r);
    assert forall i | 0 <= i < |Rows(s)| :: Rows(s')[i] == Rows(s)[i];
    assert forall i | |Rows(s)| <= i < |Rows(s')| :: Rows(s')[i].status == Pending && Rows(s')[i].attempts == 0;
    forall i | |Rows(s)| <= i < |Rows(s')| ensures TypeOf(Rows(s')[i].payload) in REGISTERED {
      assert Rows(s')[i].payload == Handle(s.db, r).1[i - |Rows(s)|];
    }
    forall t | t in s'.world.workers ensures AttemptsKnown(Rows(s'), s'.world.workers[t].queue) {
      assert AttemptsKnown(Rows(s), s.world.workers[t].queue);
    }
  }

  lemma ClaimedAttemptsKnown(rows: seq<Row>, now: int, batch: seq<nat>, t: string)
    requires InTable(rows, batch)
    ensures AttemptsKnown(Claimed(rows, batch, now), OfType(EventsOf(rows, batch), t))
  {
    var events, group := EventsOf(rows, batch), OfType(EventsOf(rows, batch), t);
    forall k | 0 <= k < |group|
      ensures group[k].id < |rows| && group[k].attempts == Claimed(rows, batch, now)[group[k].id].attempts
    {
      assert group[k] in group;
      var p :| 0 <= p < |events| && events[p] == group[k];
    }
  }

  lemma ClaimKeepsBudgeted(s: Sys, batch: seq<nat>, maxAttempts: nat)
    requires Budgeted(s, maxAttempts) && M.Enabled(s, M.Claim(batch))
    ensures Budgeted(M.Ticked(s, batch), maxAttempts)
  {
    forall i: nat | i in batch ensures i < |Rows(s)| && Live(Rows(s)[i]) {
      ClaimedWasLive(Rows(s), s.now, BATCH_SIZE, batch, i);
    }
    forall t | t in M.Ticked(s, batch).world.workers ensures AttemptsKnown(Rows(M.Ticked(s, batch)), M.Ticked(s, batch).world.workers[t].queue) {
      ClaimedAttemptsKnown(Rows(s), s.now, batch, t);
    }
  }

  lemma CallKeepsBudgeted(s: Sys, s': Sys, t: string, maxAttempts: nat)
    requires Budgeted(s, maxAttempts) && C.CallMade(s, s', t)
    ensures Budgeted(s', maxAttempts)
  {
    forall u | u in s'.world.workers ensures AttemptsKnown(Rows(s'), s'.world.workers[u].queue) {
      assert AttemptsKnown(Rows(s), s.world.workers[u].queue);
    }
  }

  /** The write that ends an attempt, if it succeeds. */
  function Result(r: Row, e: Event, succeeded: bool, maxAttempts: nat): Row {
    if succeeded then r.(status := Completed) else FailedRow(r, e.attempts, maxAttempts)
  }

  lemma AttemptsElsewhere(rows: seq<Row>, rows': seq<Row>, queue: seq<Event>, written: nat)
    requires AttemptsKnown(rows, queue) && |rows'| == |rows|
    requires forall i | 0 <= i < |rows| && i != written :: rows'[i] == rows[i]
    requires forall k | 0 <= k < |queue| :: queue[k].id != written
    ensures AttemptsKnown(rows', queue)
  {
  }

  lemma WrittenQueue(s: Sys, s': Sys, t: string, u: string)
    requires C.QueuesFit(s) && C.RowWritten(s, s', t) && u in s.world.workers
    requires AttemptsKnown(Rows(s), s.world.workers[u].queue)
    ensures AttemptsKnown(Rows(s'), s'.world.workers[u].queue)
  {
    var queue, e := s.world.workers[u].queue, s.world.workers[t].queue[0];
    if u == t {
      assert C.QueueFits(Rows(s), t, queue);
      C.QueueTail(Rows(s), t, queue);
      assert AttemptsKnown(Rows(s), queue[1..]);
      AttemptsElsewhere(Rows(s), Rows(s'), queue[1..], e.id);
    } else {
      forall k | 0 <= k < |queue| ensures queue[k].id != e.id {
        C.OtherQueuesMissHead(s, t, u, k);
      }
      AttemptsElsewhere(Rows(s), Rows(s'), queue, e.id);
    }
  }

  lemma SettleKeepsBudgeted(s: Sys, t: string, out: Outcome, maxAttempts: nat)
    requires Budgeted(s, maxAttempts) && C.QueuesFit(s) && Busy(s.world, t) && PhaseRank(s.world.workers[t].phase) == 0
    ensures Budgeted(M.Worked(s, t, out, maxAttempts), maxAttempts)
  {
    var s' := M.Worked(s, t, out, maxAttempts);
    var e := s.world.workers[t].queue[0];
    assert C.QueueFits(Rows(s), t, s.world.workers[t].queue) && AttemptsKnown(Rows(s), s.world.workers[t].queue);
    C.SettleSummary(s, t, out, maxAttempts);
    C.SettledRow(s, t, out, maxAttempts);
    forall u | u in s'.world.workers ensures AttemptsKnown(Rows(s'), s'.world.workers[u].queue) {
      WrittenQueue(s, s', t, u);
    }
    assert Live(Rows(s)[e.id]) && Rows(s)[e.id].attempts < maxAttempts;
  }

  lemma StepKeepsBudgeted(s: Sys, step: M.Step, maxAttempts: nat)
    requires 0 < maxAttempts && C.Invariant(s) && Budgeted(s, maxAttempts) && M.Enabled(s, step)
    ensures Budgeted(M.Apply(s, step, maxAttempts), maxAttempts)
  {
    match step
    case Serve(request, detach, remove) => ServeKeepsBudgeted(s, request, detach, remove, maxAttempts);
    case Wait(time) =>
    case Claim(batch) => ClaimKeepsBudgeted(s, batch, maxAttempts);
    case Work(t, out) =>
      if PhaseRank(s.world.workers[t].phase) > 0 {
        C.CallSummary(s, t, out, maxAttempts);
        CallKeepsBudgeted(s, M.Worked(s, t, out, maxAttempts), t, maxAttempts);
      } else {
        SettleKeepsBudgeted(s, t, out, maxAttempts);
      }
  }

  lemma {:induction false} RunKeepsBudgeted(s: Sys, steps: seq<M.Step>, maxAttempts: nat)
    requires 0 < maxAttempts && C.Invariant(s) && Budgeted(s, maxAttempts) && M.CanRun(s, steps, maxAttempts)
    ensures Budgeted(M.Exec(s, steps, maxAttempts), maxAttempts)
    decreases |steps|
  {
    if steps != [] {
      StepKeepsBudgeted(s, steps[0], maxAttempts);
      C.StepKeepsInvariant(s, steps[0], maxAttempts);
      RunKeepsBudgeted(M.Apply(s, steps[0], maxAttempts), steps[1..], maxAttempts);
    }
  }

  lemma ReachableFits(s: Sys, maxAttempts: nat)
    requires 0 < maxAttempts && M.Reachable(s, maxAttempts)
    ensures C.Invariant(s) && Budgeted(s, maxAttempts)
  {
    var steps :| M.CanRun(M.INITIAL, steps, maxAttempts) && M.Exec(M.INITIAL, steps, maxAttempts) == s;
    C.InitialInvariant();
    InitialBudgeted(maxAttempts);
    RunKeepsBudgeted(M.INITIAL, steps, maxAttempts);
    C.RunKeepsInvariant(M.INITIAL, steps, maxAttempts);
  }

  lemma InitialBudgeted(maxAttempts: nat)
    ensures Budgeted(M.INITIAL, maxAttempts)
  {
    C.InitialWorkers();
  }

  /** In every reachable state live rows have attempts left and dead rows have used up all of them. */
  lemma ReachableBudget(s: Sys, maxAttempts: nat)
    requires 0 < maxAttempts && M.Reachable(s, maxAttempts)
    ensures WithinBudget(Rows(s), maxAttempts)
  {
    ReachableFits(s, maxAttempts);
  }

  // ---- One tick ---------------------------------------------------------------------------------

  ghost predicate Queued(w: World, id: nat) {
    exists t :: t in w.workers && C.InQueue(w.workers[t].queue, id)
  }

  /** No step of the tick loses a row write, and no other tick starts. */
  predicate Lossless(step: M.Step) {
    !step.Claim? && (step.Work? ==> step.out.written)
  }

  function Taken(r: Row, now: int): Row {
    r.(status := Processing, claimedAt := now)
  }

  /** Where a tick that claimed `batch` from `before` at `start` has got to. */
  ghost predicate Between(before: seq<Row>, batch: seq<nat>, start: int, s: Sys, maxAttempts: nat) {
    && |before| <= |Rows(s)| && start <= s.now
    && (forall i: nat | i < |before| && i !in batch :: Rows(s)[i] == before[i])
    && (forall i: nat | i < |before| && i in batch ::
          if Queued(s.world, i) then Rows(s)[i] == Taken(before[i], start) else Attempted(before[i], Rows(s)[i], maxAttempts))
    && (forall i | |before| <= i < |Rows(s)| :: Rows(s)[i].status == Pending && Rows(s)[i].attempts == 0 && start < Rows(s)[i].createdAt)
    && (forall id: nat | Queued(s.world, id) :: id in batch && id < |before|)
  }

  lemma SameQueues(w: World, w': World)
    requires w'.workers.Keys == w.workers.Keys && forall t | t in w.workers :: w'.workers[t].queue == w.workers[t].queue
    ensures forall id :: Queued(w', id) <==> Queued(w, id)
  {
  }

  lemma BatchIsQueued(rows: seq<Row>, now: int, batch: seq<nat>, i: nat)
    requires IsClaim(rows, now, BATCH_SIZE, batch) && Registered(rows) && i in batch
    ensures exists t :: t in REGISTERED && C.InQueue(OfType(EventsOf(rows, batch), t), i)
  {
    var a := C.InBatch(rows, now, batch, i);
    var events := EventsOf(rows, batch);
    var t := TypeOf(events[a].payload);
    C.OfTypeComplete(events, events[a]);
    var group := OfType(events, t);
    var k :| 0 <= k < |group| && group[k] == events[a];
    assert C.InQueue(group, i);
  }

  lemma QueuedIsBatch(rows: seq<Row>, batch: seq<nat>, t: string, i: nat)
    requires InTable(rows, batch) && C.InQueue(OfType(EventsOf(rows, batch), t), i)
    ensures i in batch && i < |rows|
  {
    var events, group := EventsOf(rows, batch), OfType(EventsOf(rows, batch), t);
    var k :| 0 <= k < |group| && group[k].id == i;
    assert group[k] in group;
    var p :| 0 <= p < |events| && events[p] == group[k];
  }

  lemma ClaimQueues(s: Sys, batch: seq<nat>, i: nat)
    requires Registered(Rows(s)) && M.Enabled(s, M.Claim(batch))
    ensures Queued(M.Ticked(s, batch).world, i) <==> i in batch
  {
    var s' := M.Ticked(s, batch);
    if i in batch {
      BatchIsQueued(Rows(s), s.now, batch, i);
      var t :| t in REGISTERED && C.InQueue(OfType(EventsOf(Rows(s), batch), t), i);
      assert t in s'.world.workers;
    }
    if Queued(s'.world, i) {
      var t :| t in s'.world.workers && C.InQueue(s'.world.workers[t].queue, i);
      QueuedIsBatch(Rows(s), batch, t, i);
    }
  }

  lemma ClaimBegins(s: Sys, batch: seq<nat>, maxAttempts: nat)
    requires Registered(Rows(s)) && M.Enabled(s, M.Claim(batch))
    ensures Between(Rows(s), batch, s.now, M.Ticked(s, batch), maxAttempts)
  {
    forall i: nat ensures Queued(M.Ticked(s, batch).world, i) <==> i in batch {
      ClaimQueues(s, batch, i);
    }
    QueuedBatchBegins(Rows(s), batch, s.now, M.Ticked(s, batch), maxAttempts);
  }

  lemma QueuedBatchBegins(before: seq<Row>, batch: seq<nat>, start: int, s: Sys, maxAttempts: nat)
    requires InTable(before, batch) && s.now == start && Rows(s) == Claimed(before, batch, start)
    requires forall i: nat :: Queued(s.world, i) <==> i in batch
    ensures Between(before, batch, start, s, maxAttempts)
  {
  }

  lemma ServeBetween(before: seq<Row>, batch: seq<nat>, start: int, s: Sys, r: Request, detach: Call, remove: Call, maxAttempts: nat)
    requires Between(before, batch, start, s, maxAttempts)
    ensures Between(before, batch, start, M.Served(s, r, detach, remove), maxAttempts)
  {
    var s' := M.Served(s, r, detach, remove);
    SameQueues(s.world, s'.world);
    assert forall i | 0 <= i < |Rows(s)| :: Rows(s')[i] == Rows(s)[i];
    assert forall i | |Rows(s)| <= i < |Rows(s')| ::
        Rows(s')[i].status == Pending && Rows(s')[i].attempts == 0 && Rows(s')[i].createdAt == s.now + 1;
  }

  lemma CallBetween(before: seq<Row>, batch: seq<nat>, start: int, s: Sys, s': Sys, t: string, maxAttempts: nat)
    requires Between(before, batch, start, s, maxAttempts) && C.CallMade(s, s', t)
    ensures Between(before, batch, start, s', maxAttempts)
  {
    SameQueues(s.world, s'.world);
  }

  lemma InTail(queue: seq<Event>, id: nat)
    requires queue != [] && DistinctIds(queue)
    ensures C.InQueue(queue[1..], id) <==> C.InQueue(queue, id) && id != queue[0].id
  {
    if C.InQueue(queue[1..], id) {
      var k :| 0 <= k < |queue[1..]| && queue[1..][k].id == id;
      assert queue[k + 1].id == id && queue[0].id != queue[k + 1].id;
    }
    if C.InQueue(queue, id) && id != queue[0].id {
      C.InRestOfQueue(queue, id);
    }
  }

  lemma HeadOnlyOnce(s: Sys, t: string, u: string, id: nat)
    requires C.QueuesFit(s) && Busy(s.world, t) && u in s.world.workers && u != t && C.InQueue(s.world.workers[u].queue, id)
    ensures id != s.world.workers[t].queue[0].id
  {
    var k :| 0 <= k < |s.world.workers[u].queue| && s.world.workers[u].queue[k].id == id;
    C.OtherQueuesMissHead(s, t, u, k);
  }

  /** After a row write the queue of a worker holds what it held, except for the row that was written. */
  lemma QueueAfterWrite(s: Sys, s': Sys, t: string, u: string, id: nat)
    requires C.QueuesFit(s) && C.RowWritten(s, s', t) && u in s.world.workers
    ensures C.InQueue(s'.world.workers[u].queue, id) <==> C.InQueue(s.world.workers[u].queue, id) && id != s.world.workers[t].queue[0].id
  {
    if u == t {
      assert C.QueueFits(Rows(s), t, s.world.workers[t].queue);
      InTail(s.world.workers[t].queue, id);
    } else if C.InQueue(s.world.workers[u].queue, id) {
      HeadOnlyOnce(s, t, u, id);
    }
  }

  /** After a row write exactly the head of the worker's queue is queued no more. */
  lemma HeadLeaves(s: Sys, s': Sys, t: string, id: nat)
    requires C.QueuesFit(s) && C.RowWritten(s, s', t)
    ensures Queued(s'.world, id) <==> Queued(s.world, id) && id != s.world.workers[t].queue[0].id
  {
    if Queued(s'.world, id) {
      var u :| u in s'.world.workers && C.InQueue(s'.world.workers[u].queue, id);
      QueueAfterWrite(s, s', t, u, id);
    }
    if Queued(s.world, id) && id != s.world.workers[t].queue[0].id {
      var u :| u in s.world.workers && C.InQueue(s.world.workers[u].queue, id);
      QueueAfterWrite(s, s', t, u, id);
    }
  }

  lemma SettleBetween(before: seq<Row>, batch: seq<nat>, start: int, s: Sys, t: string, out: Outcome, maxAttempts: nat)
    requires Between(before, batch, start, s, maxAttempts) && out.written
    requires C.QueuesFit(s) && Budgeted(s, maxAttempts) && Busy(s.world, t) && PhaseRank(s.world.workers[t].phase) == 0
    ensures Between(before, batch, start, M.Worked(s, t, out, maxAttempts), maxAttempts)
  {
    var s' := M.Worked(s, t, out, maxAttempts);
    var e := s.world.workers[t].queue[0];
    C.SettleSummary(s, t, out, maxAttempts);
    WrittenRow(before, batch, start, s, t, out, maxAttempts);
    forall id: nat ensures Queued(s'.world, id) <==> Queued(s.world, id) && id != e.id {
      HeadLeaves(s, s', t, id);
    }
    ResultBetween(before, batch, start, s, s', e.id, maxAttempts);
  }

  lemma ResultBetween(before: seq<Row>, batch: seq<nat>, start: int, s: Sys, s': Sys, written: nat, maxAttempts: nat)
    requires Between(before, batch, start, s, maxAttempts) && s'.now == s.now && |Rows(s')| == |Rows(s)|
    requires forall i | 0 <= i < |Rows(s)| && i != written :: Rows(s')[i] == Rows(s)[i]
    requires written in batch && written < |before| && Attempted(before[written], Rows(s')[written], maxAttempts)
    requires forall id: nat :: Queued(s'.world, id) <==> Queued(s.world, id) && id != written
    ensures Between(before, batch, start, s', maxAttempts)
  {
  }

  lemma WrittenRow(before: seq<Row>, batch: seq<nat>, start: int, s: Sys, t: string, out: Outcome, maxAttempts: nat)
    requires Between(before, batch, start, s, maxAttempts) && out.written
    requires C.QueuesFit(s) && Budgeted(s, maxAttempts) && Busy(s.world, t) && PhaseRank(s.world.workers[t].phase) == 0
    ensures var e, s' := s.world.workers[t].queue[0], M.Worked(s, t, out, maxAttempts);
            && e.id in batch && e.id < |before| && e.id < |Rows(s')| && Attempted(before[e.id], Rows(s')[e.id], maxAttempts)
  {
    var e := s.world.workers[t].queue[0];
    assert C.QueueFits(Rows(s), t, s.world.workers[t].queue) && AttemptsKnown(Rows(s), s.world.workers[t].queue);
    C.SettledRow(s, t, out, maxAttempts);
    assert C.InQueue(s.world.workers[t].queue, e.id);
    assert Queued(s.world, e.id);
  }

  lemma WorkBetween(before: seq<Row>, batch: seq<nat>, start: int, s: Sys, t: string, out: Outcome, maxAttempts: nat)
    requires Between(before, batch, start, s, maxAttempts) && C.QueuesFit(s) && C.PhasesFit(s) && Budgeted(s, maxAttempts)
    requires Busy(s.world, t) && out.written
    ensures Between(before, batch, start, M.Worked(s, t, out, maxAttempts), maxAttempts)
  {
    if PhaseRank(s.world.workers[t].phase) > 0 {
      C.CallSummary(s, t, out, maxAttempts);
      CallBetween(before, batch, start, s, M.Worked(s, t, out, maxAttempts), t, maxAttempts);
    } else {
      SettleBetween(before, batch, start, s, t, out, maxAttempts);
    }
  }

  lemma StepBetween(before: seq<Row>, batch: seq<nat>, start: int, s: Sys, step: M.Step, maxAttempts: nat)
    requires 0 < maxAttempts && Between(before, batch, start, s, maxAttempts) && M.Reachable(s, maxAttempts)
    requires M.Enabled(s, step) && Lossless(step)
    ensures Between(before, batch, start, M.Apply(s, step, maxAttempts), maxAttempts)
  {
    match step
    case Serve(request, detach, remove) => ServeBetween(before, batch, start, s, request, detach, remove, maxAttempts);
    case Wait(time) => SameQueues(s.world, M.Waited(s, time).world);
    case Work(t, out) =>
      ReachableFits(s, maxAttempts);
      WorkBetween(before, batch, start, s, t, out, maxAttempts);
  }

  lemma {:induction false} RestBetween(before: seq<Row>, batch: seq<nat>, start: int, s: Sys, steps: seq<M.Step>, maxAttempts: nat)
    requires 0 < maxAttempts && Between(before, batch, start, s, maxAttempts) && M.Reachable(s, maxAttempts)
    requires M.CanRun(s, steps, maxAttempts) && forall k | 0 <= k < |steps| :: Lossless(steps[k])
    ensures Between(before, batch, start, M.Exec(s, steps, maxAttempts), maxAttempts)
    decreases |steps|
  {
    if steps != [] {
      StepBetween(before, batch, start, s, steps[0], maxAttempts);
      M.ReachableNext(s, steps[0], maxAttempts);
      RestBetween(before, batch, start, M.Apply(s, steps[0], maxAttempts), steps[1..], maxAttempts);
    }
  }

  lemma IdleEnds(before: seq<Row>, batch: seq<nat>, start: int, s: Sys, maxAttempts: nat)
    requires Between(before, batch, start, s, maxAttempts) && AllIdle(s.world)
    requires IsClaim(before, start, BATCH_SIZE, batch) && forall i | 0 <= i < |before| :: before[i].createdAt <= start
    ensures Round(before, Rows(s), batch, start, maxAttempts)
  {
    forall id ensures !Queued(s.world, id) {
    }
  }

  /** A tick: a claim, then steps that lose no row write, until all workers are idle. */
  ghost predicate IsTick(s: Sys, steps: seq<M.Step>, maxAttempts: nat) {
    && steps != [] && steps[0].Claim? && M.CanRun(s, steps, maxAttempts)
    && (forall k | 0 < k < |steps| :: Lossless(steps[k]))
    && AllIdle(M.Exec(s, steps, maxAttempts).world)
  }

  /** However calls, row writes, requests and the passing of time interleave, a tick gives each claimed row one more attempt. */
  lemma MachineTickIsRound(s: Sys, steps: seq<M.Step>, maxAttempts: nat)
    requires 0 < maxAttempts && M.Reachable(s, maxAttempts) && IsTick(s, steps, maxAttempts)
    ensures Round(Rows(s), Rows(M.Exec(s, steps, maxAttempts)), steps[0].batch, s.now, maxAttempts)
    ensures M.Reachable(M.Exec(s, steps, maxAttempts), maxAttempts)
  {
    var batch, s1 := steps[0].batch, M.Ticked(s, steps[0].batch);
    ReachableTable(s, maxAttempts);
    ClaimBegins(s, batch, maxAttempts);
    M.ReachableNext(s, steps[0], maxAttempts);
    RestBetween(Rows(s), batch, s.now, s1, steps[1..], maxAttempts);
    M.ReachableRun(s1, steps[1..], maxAttempts);
    IdleEnds(Rows(s), batch, s.now, M.Exec(s1, steps[1..], maxAttempts), maxAttempts);
  }

  lemma ReachableTable(s: Sys, maxAttempts: nat)
    requires 0 < maxAttempts && M.Reachable(s, maxAttempts)
    ensures Registered(Rows(s)) && forall i | 0 <= i < |Rows(s)| :: Rows(s)[i].createdAt <= s.now
  {
    ReachableFits(s, maxAttempts);
  }

  // ---- Runs of ticks ----------------------------------------------------------------------------

  /** One tick after the other leads from `s` to `s'`. */
  ghost predicate TicksLead(s: Sys, ticks: seq<seq<M.Step>>, s': Sys, maxAttempts: nat)
    decreases |ticks|
  {
    if ticks == [] then s' == s
    else IsTick(s, ticks[0], maxAttempts) && TicksLead(M.Exec(s, ticks[0], maxAttempts), ticks[1..], s', maxAttempts)
  }

  lemma TicksCons(rows: seq<Row>, batch: seq<nat>, now: int, trace: seq<seq<Row>>, batches: seq<seq<nat>>, nows: seq<int>, maxAttempts: nat)
    requires Ticks(trace, batches, nows, maxAttempts) && Round(rows, trace[0], batch, now, maxAttempts)
    ensures Ticks([rows] + trace, [batch] + batches, [now] + nows, maxAttempts)
  {
    var trace', batches', nows' := [rows] + trace, [batch] + batches, [now] + nows;
    forall k | 0 <= k < |batches'| ensures Round(trace'[k], trace'[k + 1], batches'[k], nows'[k], maxAttempts) {
      if k > 0 {
        assert Round(trace[k - 1], trace[k], batches[k - 1], nows[k - 1], maxAttempts);
      }
    }
  }

  /** The tables before, between and after the ticks, with the batches and times of their claims. */
  ghost predicate Traces(first: seq<Row>, ticks: seq<seq<M.Step>>, last: seq<Row>,
                         trace: seq<seq<Row>>, batches: seq<seq<nat>>, nows: seq<int>, maxAttempts: nat)
  {
    && Ticks(trace, batches, nows, maxAttempts) && |batches| == |ticks|
    && trace[0] == first && trace[|ticks|] == last
    && (forall k | 0 <= k < |trace| :: |first| <= |trace[k]| <= |last|)
    && (forall k | 0 <= k < |ticks| :: ticks[k] != [] && ticks[k][0] == M.Claim(batches[k]))
  }

  lemma TracesCons(first: seq<Row>, tick: seq<M.Step>, now: int, second: seq<Row>, ticks: seq<seq<M.Step>>, last: seq<Row>,
                   trace: seq<seq<Row>>, batches: seq<seq<nat>>, nows: seq<int>, maxAttempts: nat)
    requires Traces(second, ticks, last, trace, batches, nows, maxAttempts)
    requires tick != [] && tick[0].Claim? && Round(first, second, tick[0].batch, now, maxAttempts)
    ensures Traces(first, [tick] + ticks, last, [first] + trace, [tick[0].batch] + batches, [now] + nows, maxAttempts)
  {
    TicksCons(first, tick[0].batch, now, trace, batches, nows, maxAttempts);
  }

  lemma {:induction false} TraceOf(s: Sys, ticks: seq<seq<M.Step>>, s': Sys, maxAttempts: nat)
    returns (trace: seq<seq<Row>>, batches: seq<seq<nat>>, nows: seq<int>)
    requires 0 < maxAttempts && M.Reachable(s, maxAttempts) && TicksLead(s, ticks, s', maxAttempts)
    ensures Traces(Rows(s), ticks, Rows(s'), trace, batches, nows, maxAttempts)
    decreases |ticks|
  {
    if ticks == [] {
      trace, batches, nows := [Rows(s)], [], [];
    } else {
      var s1 := M.Exec(s, ticks[0], maxAttempts);
      MachineTickIsRound(s, ticks[0], maxAttempts);
      trace, batches, nows := TraceOf(s1, ticks[1..], s', maxAttempts);
      TracesCons(Rows(s), ticks[0], s.now, Rows(s1), ticks[1..], Rows(s'), trace, batches, nows, maxAttempts);
      trace, batches, nows := [Rows(s)] + trace, [ticks[0][0].batch] + batches, [s.now] + nows;
      assert ticks == [ticks[0]] + ticks[1..];
    }
  }

  /**
   * Drain termination for machine runs: from any reachable state without leftover claims, ticks that lose no row
   * write, while nothing is enqueued, leave every row completed, or dead after exactly maxAttempts failures, once
   * there are floor(attempts left / 50) + maxAttempts of them.
   */
  lemma MachineDrains(s: Sys, ticks: seq<seq<M.Step>>, s': Sys, maxAttempts: nat)
    requires 0 < maxAttempts && M.Reachable(s, maxAttempts) && NoneProcessing(Rows(s))
    requires TicksLead(s, ticks, s', maxAttempts) && |Rows(s')| == |Rows(s)|
    requires |ticks| == Total(Rows(s), maxAttempts) / BATCH_SIZE + maxAttempts
    ensures forall r | r in Rows(s') :: r.status == Completed || (r.status == Dead && r.attempts == maxAttempts)
  {
    ReachableBudget(s, maxAttempts);
    var trace, batches, nows := TraceOf(s, ticks, s', maxAttempts);
    OutboxDrains(trace, batches, nows, maxAttempts);
  }

  /**
   * Bounded waiting for machine runs: in any reachable state a pending row with r other live rows as old as it or
   * older is claimed by one of the next floor(r * maxAttempts / 50) + 1 ticks that lose no row write.
   */
  lemma MachineWaits(s: Sys, ticks: seq<seq<M.Step>>, s': Sys, w: nat, maxAttempts: nat)
    requires 0 < maxAttempts && M.Reachable(s, maxAttempts) && TicksLead(s, ticks, s', maxAttempts)
    requires w < |Rows(s)| && Rows(s)[w].status == Pending
    requires var r := |Within(Ahead(Rows(s), w), |Rows(s)|)|; |ticks| == r * maxAttempts / BATCH_SIZE + 1
    ensures exists k :: 0 <= k < |ticks| && ticks[k] != [] && ticks[k][0].Claim? && w in ticks[k][0].batch
  {
    ReachableBudget(s, maxAttempts);
    var trace, batches, nows := TraceOf(s, ticks, s', maxAttempts);
    BoundedWaiting(trace, batches, nows, w, maxAttempts);
    var k :| 0 <= k < |batches| && w in batches[k];
    assert ticks[k] != [];
  }
}
