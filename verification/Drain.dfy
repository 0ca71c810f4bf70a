/** How fast ticks of a single runner empty the outbox, and how long a pending row waits for its claim. */
module Drain {
  import opened Events
  import opened Outbox
  import opened Delivery

  /** `after` is `before` with one more attempt behind it. */
  predicate Attempted(before: Row, after: Row, maxAttempts: nat) {
    && after.payload == before.payload
    && after.createdAt == before.createdAt
    && after.timeout == before.timeout
    && if after.status == Completed then after.attempts == before.attempts
       else
         && after.attempts == before.attempts + 1
         && after.status == if before.attempts + 1 >= maxAttempts then Dead else Pending
  }

  /**
   * One tick in which every claimed type is registered and every row write succeeds. Rows inserted while
   * the tick runs come from later transactions.
   */
  ghost predicate Round(rows: seq<Row>, rows': seq<Row>, batch: seq<nat>, now: int, maxAttempts: nat) {
    && IsClaim(rows, now, BATCH_SIZE, batch)
    && |rows| <= |rows'|
    && (forall i: nat | i < |rows| && i in batch :: Attempted(rows[i], rows'[i], maxAttempts))
    && (forall i: nat | i < |rows| && i !in batch :: rows'[i] == rows[i])
    && (forall i | |rows| <= i < |rows'| :: rows'[i].status == Pending && rows'[i].attempts == 0)
    && (forall i, j | 0 <= j < |rows| <= i < |rows'| :: rows[j].createdAt < rows'[i].createdAt)
  }

  /** Live rows have attempts left and dead rows have used up all of them. */
  ghost predicate WithinBudget(rows: seq<Row>, maxAttempts: nat) {
    forall i | 0 <= i < |rows| ::
      && (Live(rows[i]) ==> rows[i].attempts < maxAttempts)
      && (rows[i].status == Dead ==> rows[i].attempts == maxAttempts)
  }

  lemma RoundKeepsBudget(rows: seq<Row>, rows': seq<Row>, batch: seq<nat>, now: int, maxAttempts: nat)
    requires 0 < maxAttempts && WithinBudget(rows, maxAttempts) && Round(rows, rows', batch, now, maxAttempts)
    ensures WithinBudget(rows', maxAttempts)
  {
    forall i: nat | i < |rows'|
      ensures Live(rows'[i]) ==> rows'[i].attempts < maxAttempts
      ensures rows'[i].status == Dead ==> rows'[i].attempts == maxAttempts
    {
      if i < |rows| && i in batch {
        ClaimedWasLive(rows, now, BATCH_SIZE, batch, i);
      }
    }
  }

  lemma ClaimedWasLive(rows: seq<Row>, now: int, limit: nat, batch: seq<nat>, i: nat)
    requires IsClaim(rows, now, limit, batch) && i in batch
    ensures i < |rows| && Live(rows[i])
  {
  }

  // ---- Ticks are rounds -------------------------------------------------------------------------

  predicate ResultWritten(before: Row, after: Row, attempts: nat, maxAttempts: nat) {
    after == before.(status := Completed) || after == FailedRow(before, attempts, maxAttempts)
  }

  lemma {:induction false} AttemptKeepsRows(c: Core, p: Payload, phase: Phase, out: Outcome)
    ensures Attempt(c, p, phase, out).0.rows == c.rows
    decreases PhaseRank(phase)
  {
    if PhaseRank(phase) > 0 {
      var (c', next) := Effect(c, p, phase, out);
      AttemptKeepsRows(c', p, next, out);
    }
  }

  lemma {:induction false} ProcessAllRows(c: Core, events: seq<Event>, outcome: nat -> Outcome, maxAttempts: nat)
    requires DistinctIds(events)
    requires forall k | 0 <= k < |events| ::
               events[k].id < |c.rows| && TypeOf(events[k].payload) in REGISTERED && outcome(events[k].id).written
    ensures var rows := ProcessAll(c, events, outcome, maxAttempts).rows;
            && |rows| == |c.rows|
            && (forall k | 0 <= k < |events| :: ResultWritten(c.rows[events[k].id], rows[events[k].id], events[k].attempts, maxAttempts))
            && (forall i: nat | i < |rows| && (forall k | 0 <= k < |events| :: events[k].id != i) :: rows[i] == c.rows[i])
    decreases |events|
  {
    if events != [] {
      var e, rest := events[0], events[1..];
      AttemptKeepsRows(c, e.payload, Start, outcome(e.id));
      var c' := Finish(c, e, Start, outcome(e.id), maxAttempts);
      assert ResultWritten(c.rows[e.id], c'.rows[e.id], e.attempts, maxAttempts);
      assert forall i: nat | i < |c.rows| && i != e.id :: c'.rows[i] == c.rows[i];
      assert forall k | 0 <= k < |rest| :: rest[k] == events[k + 1];
      ProcessAllRows(c', rest, outcome, maxAttempts);
      var rows := ProcessAll(c, events, outcome, maxAttempts).rows;
      forall k | 0 <= k < |events|
        ensures ResultWritten(c.rows[events[k].id], rows[events[k].id], events[k].attempts, maxAttempts)
      {
        if k > 0 {
          assert events[k] == rest[k - 1];
        }
      }
    }
  }

  /** What a tick of the runner does to the table is a round, when its types are registered and its writes succeed. */
  lemma TickIsRound(c: Core, batch: seq<nat>, now: int, outcome: nat -> Outcome, maxAttempts: nat)
    requires IsClaim(c.rows, now, BATCH_SIZE, batch)
    requires forall a | 0 <= a < |batch| :: TypeOf(c.rows[batch[a]].payload) in REGISTERED && outcome(batch[a]).written
    ensures Round(c.rows, TickResult(c, batch, now, outcome, maxAttempts).rows, batch, now, maxAttempts)
  {
    var claimed := c.(rows := Claimed(c.rows, batch, now));
    var events := EventsOf(c.rows, batch);
    forall k | 0 <= k < |events|
      ensures events[k].id < |claimed.rows| && TypeOf(events[k].payload) in REGISTERED && outcome(events[k].id).written
    {
    }
    ProcessAllRows(claimed, events, outcome, maxAttempts);
    var rows' := ProcessAll(claimed, events, outcome, maxAttempts).rows;
    forall i: nat | i < |c.rows| && i in batch ensures Attempted(c.rows[i], rows'[i], maxAttempts) {
      var a :| 0 <= a < |batch| && batch[a] == i;
      assert events[a].id == i;
      ClaimedThenWritten(c.rows[i], claimed.rows[i], rows'[i], now, maxAttempts);
    }
    forall i: nat | i < |c.rows| && i !in batch ensures rows'[i] == c.rows[i] {
      assert forall k | 0 <= k < |events| :: events[k].id == batch[k] && batch[k] in batch;
    }
  }

  lemma ClaimedThenWritten(before: Row, claimed: Row, after: Row, now: int, maxAttempts: nat)
    requires claimed == before.(status := Processing, claimedAt := now) && ResultWritten(claimed, after, before.attempts, maxAttempts)
    ensures Attempted(before, after, maxAttempts)
  {
  }

  // ---- The attempts that are left ---------------------------------------------------------------

  function Left(r: Row, maxAttempts: nat): nat {
    if Live(r) && r.attempts < maxAttempts then maxAttempts - r.attempts else 0
  }

  /** The attempts left to the rows in `ids` among the first `n`. */
  ghost function Budget(rows: seq<Row>, ids: set<nat>, n: nat, maxAttempts: nat): nat
    requires n <= |rows|
  {
    if n == 0 then 0
    else Budget(rows, ids, n - 1, maxAttempts) + if n - 1 in ids then Left(rows[n - 1], maxAttempts) else 0
  }

  ghost function Hits(batch: seq<nat>, n: nat): set<nat> {
    set i: nat | 0 <= i < n && i in batch
  }

  lemma {:induction false} BudgetDrops(rows: seq<Row>, rows': seq<Row>, batch: seq<nat>, now: int, ids: set<nat>, n: nat, maxAttempts: nat)
    requires WithinBudget(rows, maxAttempts) && Round(rows, rows', batch, now, maxAttempts)
    requires n <= |rows| && forall a | 0 <= a < |batch| :: batch[a] in ids
    ensures Budget(rows', ids, n, maxAttempts) + |Hits(batch, n)| <= Budget(rows, ids, n, maxAttempts)
  {
    if n > 0 {
      BudgetDrops(rows, rows', batch, now, ids, n - 1, maxAttempts);
      if n - 1 in batch {
        ClaimedWasLive(rows, now, BATCH_SIZE, batch, n - 1);
        AttemptCosts(rows[n - 1], rows'[n - 1], maxAttempts);
        HitsGrow(batch, n);
      } else {
        assert rows'[n - 1] == rows[n - 1];
        assert Hits(batch, n) == Hits(batch, n - 1);
      }
    }
  }

  lemma AttemptCosts(before: Row, after: Row, maxAttempts: nat)
    requires Live(before) && before.attempts < maxAttempts && Attempted(before, after, maxAttempts)
    ensures Left(after, maxAttempts) + 1 <= Left(before, maxAttempts)
  {
  }

  lemma HitsGrow(batch: seq<nat>, n: nat)
    requires n > 0 && n - 1 in batch
    ensures |Hits(batch, n)| == |Hits(batch, n - 1)| + 1
  {
    assert Hits(batch, n) == Hits(batch, n - 1) + {n - 1};
  }

  lemma {:induction false} HitsAreBatch(batch: seq<nat>, n: nat)
    requires Distinct(batch) && forall a | 0 <= a < |batch| :: batch[a] < n
    ensures |Hits(batch, n)| == |batch|
  {
    if batch == [] {
      assert Hits(batch, n) == {};
    } else {
      var last, front := batch[|batch| - 1], batch[..|batch| - 1];
      HitsAreBatch(front, n);
      assert Hits(batch, n) == Hits(front, n) + {last};
      assert last !in front;
    }
  }

  ghost function Within(ids: set<nat>, n: nat): set<nat> {
    set i | i in ids && i < n
  }

  lemma {:induction false} BudgetBound(rows: seq<Row>, ids: set<nat>, n: nat, maxAttempts: nat)
    requires n <= |rows|
    ensures Budget(rows, ids, n, maxAttempts) <= |Within(ids, n)| * maxAttempts
  {
    if n > 0 {
      BudgetBound(rows, ids, n - 1, maxAttempts);
      var k := |Within(ids, n - 1)|;
      if n - 1 in ids {
        assert Within(ids, n) == Within(ids, n - 1) + {n - 1};
        assert (k + 1) * maxAttempts == k * maxAttempts + maxAttempts;
      } else {
        assert Within(ids, n) == Within(ids, n - 1);
      }
    }
  }

  // ---- Draining ---------------------------------------------------------------------------------

  ghost function AllRows(n: nat): (ids: set<nat>)
    ensures forall i: nat :: i in ids <==> i < n
  {
    if n == 0 then {} else AllRows(n - 1) + {n - 1}
  }

  ghost predicate NoneProcessing(rows: seq<Row>) {
    forall i | 0 <= i < |rows| :: rows[i].status != Processing
  }

  ghost function LiveRows(rows: seq<Row>): set<nat> {
    set i: nat | 0 <= i < |rows| && Live(rows[i])
  }

  /** All attempts left to the table. */
  ghost function Total(rows: seq<Row>, maxAttempts: nat): nat {
    Budget(rows, AllRows(|rows|), |rows|, maxAttempts)
  }

  lemma FullOrAll(rows: seq<Row>, batch: seq<nat>, now: int)
    requires NoneProcessing(rows) && IsClaim(rows, now, BATCH_SIZE, batch)
    ensures |batch| == BATCH_SIZE || Hits(batch, |rows|) == LiveRows(rows)
    ensures |batch| >= if |LiveRows(rows)| < BATCH_SIZE then |LiveRows(rows)| else BATCH_SIZE
  {
    HitsAreBatch(batch, |rows|);
    if |batch| < BATCH_SIZE {
      forall j: nat | j < |rows| ensures j in batch <==> Live(rows[j]) {
        if j in batch {
          ClaimedWasLive(rows, now, BATCH_SIZE, batch, j);
        } else {
          assert !Claimable(rows[j], now);
        }
      }
      assert Hits(batch, |rows|) == LiveRows(rows);
    }
  }

  /** Without inserts, a tick uses up at least min(50, live) of the attempts that are left. */
  lemma TickUsesAttempts(rows: seq<Row>, rows': seq<Row>, batch: seq<nat>, now: int, maxAttempts: nat)
    requires WithinBudget(rows, maxAttempts) && NoneProcessing(rows)
    requires Round(rows, rows', batch, now, maxAttempts) && |rows'| == |rows|
    ensures NoneProcessing(rows')
    ensures var live := |LiveRows(rows)|;
            Total(rows', maxAttempts) + (if live < BATCH_SIZE then live else BATCH_SIZE) <= Total(rows, maxAttempts)
  {
    FullOrAll(rows, batch, now);
    HitsAreBatch(batch, |rows|);
    BudgetDrops(rows, rows', batch, now, AllRows(|rows|), |rows|, maxAttempts);
    assert forall i: nat | i < |rows| :: rows'[i].status != Processing;
  }

  /** A run of ticks: `trace` lists the table before, between and after them. */
  ghost predicate Ticks(trace: seq<seq<Row>>, batches: seq<seq<nat>>, nows: seq<int>, maxAttempts: nat) {
    && |trace| == |batches| + 1 == |nows| + 1
    && forall k | 0 <= k < |batches| :: Round(trace[k], trace[k + 1], batches[k], nows[k], maxAttempts)
  }

  ghost predicate NoInserts(trace: seq<seq<Row>>) {
    forall k | 0 <= k < |trace| :: |trace[k]| == |trace[0]|
  }

  lemma TicksTail(trace: seq<seq<Row>>, batches: seq<seq<nat>>, nows: seq<int>, maxAttempts: nat)
    requires Ticks(trace, batches, nows, maxAttempts) && batches != []
    ensures Ticks(trace[1..], batches[1..], nows[1..], maxAttempts)
    ensures trace[1..][|batches| - 1] == trace[|batches|]
  {
    var trace', batches', nows' := trace[1..], batches[1..], nows[1..];
    forall k | 0 <= k < |batches'| ensures Round(trace'[k], trace'[k + 1], batches'[k], nows'[k], maxAttempts) {
      assert Round(trace[k + 1], trace[k + 2], batches[k + 1], nows[k + 1], maxAttempts);
    }
  }

  lemma SmallTickUsesEveryRow(rows: seq<Row>, rows': seq<Row>, batch: seq<nat>, now: int, most: nat, maxAttempts: nat)
    requires WithinBudget(rows, maxAttempts) && NoneProcessing(rows) && |LiveRows(rows)| < BATCH_SIZE
    requires Round(rows, rows', batch, now, maxAttempts) && |rows'| == |rows|
    requires 0 < most && forall i | 0 <= i < |rows| :: Left(rows[i], maxAttempts) <= most
    ensures forall i | 0 <= i < |rows| :: Left(rows'[i], maxAttempts) <= most - 1
  {
    FullOrAll(rows, batch, now);
    HitsAreBatch(batch, |rows|);
    assert Hits(batch, |rows|) == LiveRows(rows) by {
      if |batch| == BATCH_SIZE {
        assert Hits(batch, |rows|) <= LiveRows(rows) by {
          forall i | i in Hits(batch, |rows|) ensures i in LiveRows(rows) {
            ClaimedWasLive(rows, now, BATCH_SIZE, batch, i);
          }
        }
        SubsetSize(Hits(batch, |rows|), LiveRows(rows));
        assert false;
      }
    }
    forall i: nat | i < |rows| ensures Left(rows'[i], maxAttempts) <= most - 1 {
      assert i in batch <==> i in LiveRows(rows);
    }
  }

  lemma {:induction false} SubsetSize(a: set<nat>, b: set<nat>)
    requires a <= b
    ensures |a| <= |b|
  {
    if a != {} {
      var x :| x in a;
      SubsetSize(a - {x}, b - {x});
    }
  }

  lemma LeftNeverGrows(rows: seq<Row>, rows': seq<Row>, batch: seq<nat>, now: int, maxAttempts: nat, most: nat)
    requires Round(rows, rows', batch, now, maxAttempts) && |rows'| == |rows|
    requires forall i | 0 <= i < |rows| :: Left(rows[i], maxAttempts) <= most
    ensures forall i | 0 <= i < |rows| :: Left(rows'[i], maxAttempts) <= most
  {
    forall i: nat | i < |rows| ensures Left(rows'[i], maxAttempts) <= most {
      if i in batch {
        ClaimedWasLive(rows, now, BATCH_SIZE, batch, i);
      }
    }
  }

  lemma {:induction false} DrainsBy(trace: seq<seq<Row>>, batches: seq<seq<nat>>, nows: seq<int>, most: nat, maxAttempts: nat)
    requires 0 < maxAttempts && Ticks(trace, batches, nows, maxAttempts) && NoInserts(trace)
    requires WithinBudget(trace[0], maxAttempts) && NoneProcessing(trace[0])
    requires forall i | 0 <= i < |trace[0]| :: Left(trace[0][i], maxAttempts) <= most
    requires |batches| >= Total(trace[0], maxAttempts) / BATCH_SIZE + most
    ensures LiveRows(trace[|batches|]) == {}
    ensures WithinBudget(trace[|batches|], maxAttempts)
    decreases |batches|
  {
    var rows := trace[0];
    if batches == [] {
      assert forall i | 0 <= i < |rows| :: Left(rows[i], maxAttempts) == 0;
    } else {
      var rows' := trace[1];
      assert Round(rows, rows', batches[0], nows[0], maxAttempts) && |rows'| == |rows|;
      TicksTail(trace, batches, nows, maxAttempts);
      RoundKeepsBudget(rows, rows', batches[0], nows[0], maxAttempts);
      TickUsesAttempts(rows, rows', batches[0], nows[0], maxAttempts);
      if |LiveRows(rows)| < BATCH_SIZE && most > 0 {
        SmallTickUsesEveryRow(rows, rows', batches[0], nows[0], most, maxAttempts);
        DrainsBy(trace[1..], batches[1..], nows[1..], most - 1, maxAttempts);
      } else {
        LeftNeverGrows(rows, rows', batches[0], nows[0], maxAttempts, most);
        if most == 0 {
          assert forall i | 0 <= i < |rows| :: Left(rows[i], maxAttempts) == 0;
          assert LiveRows(rows) == {};
          NothingLeft(rows, |rows|, maxAttempts);
        }
        DrainsBy(trace[1..], batches[1..], nows[1..], most, maxAttempts);
      }
    }
  }

  lemma {:induction false} NothingLeft(rows: seq<Row>, n: nat, maxAttempts: nat)
    requires n <= |rows| && forall i | 0 <= i < |rows| :: Left(rows[i], maxAttempts) == 0
    ensures Budget(rows, AllRows(|rows|), n, maxAttempts) == 0
  {
    if n > 0 {
      NothingLeft(rows, n - 1, maxAttempts);
    }
  }

  /**
   * Drain termination: without inserts or leftover claims, floor(attempts left / 50) + maxAttempts ticks
   * leave every row completed or dead, and a dead row has failed exactly maxAttempts times.
   */
  lemma OutboxDrains(trace: seq<seq<Row>>, batches: seq<seq<nat>>, nows: seq<int>, maxAttempts: nat)
    requires 0 < maxAttempts && Ticks(trace, batches, nows, maxAttempts) && NoInserts(trace)
    requires WithinBudget(trace[0], maxAttempts) && NoneProcessing(trace[0])
    requires |batches| == Total(trace[0], maxAttempts) / BATCH_SIZE + maxAttempts
    ensures forall i | 0 <= i < |trace[|batches|]| ::
              var r := trace[|batches|][i];
              r.status == Completed || (r.status == Dead && r.attempts == maxAttempts)
  {
    DrainsBy(trace, batches, nows, maxAttempts, maxAttempts);
    var last := trace[|batches|];
    forall i: nat | i < |last| ensures !Live(last[i]) {
      assert i !in LiveRows(last);
    }
  }

  // ---- Bounded waiting --------------------------------------------------------------------------

  /** The other live rows that are as old as row `w` or older. */
  ghost function Ahead(rows: seq<Row>, w: nat): set<nat>
    requires w < |rows|
  {
    set i: nat | 0 <= i < |rows| && i != w && Live(rows[i]) && rows[i].createdAt <= rows[w].createdAt
  }

  lemma UnclaimedCosts(rows: seq<Row>, rows': seq<Row>, batch: seq<nat>, now: int, w: nat, n: nat, ids: set<nat>, maxAttempts: nat)
    requires WithinBudget(rows, maxAttempts) && Round(rows, rows', batch, now, maxAttempts)
    requires w < |rows| && rows[w].status == Pending && w !in batch
    requires Ahead(rows, w) <= ids && n <= |rows| && forall i | i in ids :: i < n
    ensures Budget(rows', ids, n, maxAttempts) + BATCH_SIZE <= Budget(rows, ids, n, maxAttempts)
    ensures rows'[w] == rows[w] && Ahead(rows', w) <= ids
  {
    forall a | 0 <= a < |batch| ensures batch[a] in ids {
      ClaimedWasLive(rows, now, BATCH_SIZE, batch, batch[a]);
      assert batch[a] in Ahead(rows, w);
    }
    HitsAreBatch(batch, n);
    BudgetDrops(rows, rows', batch, now, ids, n, maxAttempts);
    forall i: nat | i in Ahead(rows', w) ensures i in ids {
      assert i < |rows|;
      if i in batch {
        ClaimedWasLive(rows, now, BATCH_SIZE, batch, i);
      }
      assert i in Ahead(rows, w);
    }
  }

  lemma {:induction false} WaitingCosts(trace: seq<seq<Row>>, batches: seq<seq<nat>>, nows: seq<int>, w: nat, n: nat, ids: set<nat>, maxAttempts: nat)
    requires 0 < maxAttempts && Ticks(trace, batches, nows, maxAttempts) && WithinBudget(trace[0], maxAttempts)
    requires w < |trace[0]| && trace[0][w].status == Pending
    requires forall k | 0 <= k < |batches| :: w !in batches[k]
    requires Ahead(trace[0], w) <= ids && n <= |trace[0]| && forall i | i in ids :: i < n
    ensures BATCH_SIZE * |batches| <= Budget(trace[0], ids, n, maxAttempts)
    decreases |batches|
  {
    if batches != [] {
      assert Round(trace[0], trace[1], batches[0], nows[0], maxAttempts);
      UnclaimedCosts(trace[0], trace[1], batches[0], nows[0], w, n, ids, maxAttempts);
      RoundKeepsBudget(trace[0], trace[1], batches[0], nows[0], maxAttempts);
      TicksTail(trace, batches, nows, maxAttempts);
      forall k | 0 <= k < |batches[1..]| ensures w !in batches[1..][k] {
        assert batches[1..][k] == batches[k + 1];
      }
      WaitingCosts(trace[1..], batches[1..], nows[1..], w, n, ids, maxAttempts);
    }
  }

  /**
   * Bounded waiting: a pending row with r other live rows as old as it or older is claimed within
   * floor(r * maxAttempts / 50) + 1 ticks, however those rows fail and whatever is inserted meanwhile.
   */
  lemma BoundedWaiting(trace: seq<seq<Row>>, batches: seq<seq<nat>>, nows: seq<int>, w: nat, maxAttempts: nat)
    requires 0 < maxAttempts && Ticks(trace, batches, nows, maxAttempts) && WithinBudget(trace[0], maxAttempts)
    requires w < |trace[0]| && trace[0][w].status == Pending
    requires var r := |Within(Ahead(trace[0], w), |trace[0]|)|;
             |batches| == r * maxAttempts / BATCH_SIZE + 1
    ensures exists k :: 0 <= k < |batches| && w in batches[k]
  {
    if forall k | 0 <= k < |batches| :: w !in batches[k] {
      var ids, n := Ahead(trace[0], w), |trace[0]|;
      WaitingCosts(trace, batches, nows, w, n, ids, maxAttempts);
      BudgetBound(trace[0], ids, n, maxAttempts);
      assert false;
    }
  }
}
