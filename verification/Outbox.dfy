/** The outbox_events table and its store: claiming, resolving and inserting rows. */
module Outbox {
  import opened Events

  datatype Status = Pending | Processing | Completed | Dead

  /** A row of outbox_events; a row's identity is its position in the table. */
  datatype Row = Row(payload: Payload, status: Status, createdAt: int, claimedAt: int, timeout: nat, attempts: nat)

  /** What ClaimBatch hands to the runner. */
  datatype Event = Event(id: nat, payload: Payload, attempts: nat)

  predicate Live(r: Row) {
    r.status == Pending || r.status == Processing
  }

  predicate Claimable(r: Row, now: int) {
    r.status == Pending || (r.status == Processing && r.claimedAt < now - r.timeout)
  }

  ghost predicate Distinct(batch: seq<nat>) {
    forall a, b | 0 <= a < b < |batch| :: batch[a] != batch[b]
  }

  predicate InTable(rows: seq<Row>, batch: seq<nat>) {
    forall a | 0 <= a < |batch| :: batch[a] < |rows|
  }

  /** `batch` is a choice the claim query may make: claimable rows, oldest first, cut off at `limit`. */
  ghost predicate IsClaim(rows: seq<Row>, now: int, limit: nat, batch: seq<nat>) {
    && Distinct(batch)
    && |batch| <= limit
    && InTable(rows, batch)
    && (forall a | 0 <= a < |batch| :: Claimable(rows[batch[a]], now))
    && (forall j: nat | j < |rows| && Claimable(rows[j], now) && j !in batch ::
          |batch| == limit && forall a | 0 <= a < |batch| :: rows[batch[a]].createdAt <= rows[j].createdAt)
  }

  /** The order the runner relies on, which RETURNING does not promise. */
  ghost predicate InCreationOrder(rows: seq<Row>, batch: seq<nat>)
    requires InTable(rows, batch)
  {
    forall a, b | 0 <= a < b < |batch| :: rows[batch[a]].createdAt <= rows[batch[b]].createdAt
  }

  ghost predicate SortedByCreation(rows: seq<Row>) {
    forall i, j | 0 <= i < j < |rows| :: rows[i].createdAt <= rows[j].createdAt
  }

  function Claimed(rows: seq<Row>, batch: seq<nat>, now: int): (r: seq<Row>)
    ensures |r| == |rows|
    ensures forall i | 0 <= i < |rows| ::
              r[i] == if i in batch then rows[i].(status := Processing, claimedAt := now) else rows[i]
  {
    seq(|rows|, i requires 0 <= i < |rows| =>
      if i in batch then rows[i].(status := Processing, claimedAt := now) else rows[i])
  }

  function EventsOf(rows: seq<Row>, batch: seq<nat>): (events: seq<Event>)
    requires InTable(rows, batch)
    ensures |events| == |batch|
    ensures forall k | 0 <= k < |batch| :: events[k] == Event(batch[k], rows[batch[k]].payload, rows[batch[k]].attempts)
  {
    seq(|batch|, k requires 0 <= k < |batch| => Event(batch[k], rows[batch[k]].payload, rows[batch[k]].attempts))
  }

  /** UPDATE ... SET status = 'completed' WHERE id = ..., which has no guard on the current status or claimant. */
  function MarkedCompleted(rows: seq<Row>, id: nat): (r: seq<Row>)
    ensures |r| == |rows|
  {
    if id < |rows| then rows[id := rows[id].(status := Completed)] else rows
  }

  function FailedRow(r: Row, attempts: nat, maxAttempts: nat): Row {
    r.(attempts := attempts + 1, status := if attempts + 1 >= maxAttempts then Dead else Pending)
  }

  /** UPDATE ... SET attempts, status WHERE id = ..., writing a count derived from the claimed event. */
  function FailureRecorded(rows: seq<Row>, id: nat, attempts: nat, maxAttempts: nat): (r: seq<Row>)
    ensures |r| == |rows|
  {
    if id < |rows| then rows[id := FailedRow(rows[id], attempts, maxAttempts)] else rows
  }

  /** No other row than the one with this id has changed. */
  ghost predicate OnlyRow(before: seq<Row>, after: seq<Row>, id: nat) {
    |after| == |before| && forall i | 0 <= i < |before| && i != id :: after[i] == before[i]
  }

  function NewRow(p: Payload, createdAt: int, timeout: nat): Row {
    Row(p, Pending, createdAt, 0, timeout, 0)
  }

  function Payloads(rows: seq<Row>): (log: seq<Payload>)
    ensures |log| == |rows|
    ensures forall i | 0 <= i < |rows| :: log[i] == rows[i].payload
  {
    seq(|rows|, i requires 0 <= i < |rows| => rows[i].payload)
  }

  /** The Postgres store. Writer transactions are serial, so rows are appended in creation order. */
  class Store {
    var rows: seq<Row>

    constructor ()
      ensures rows == []
    {
      rows := [];
    }

    method ClaimBatch(now: int, limit: nat) returns (ghost batch: seq<nat>, events: seq<Event>)
      requires SortedByCreation(rows)
      modifies this
      ensures IsClaim(old(rows), now, limit, batch) && InCreationOrder(old(rows), batch)
      ensures rows == Claimed(old(rows), batch, now)
      ensures events == EventsOf(old(rows), batch)
    {
      batch, events := [], [];
      var i := 0;
      while i < |rows| && |events| < limit
        invariant i <= |rows| == |old(rows)|
        invariant |batch| == |events| <= limit
        invariant Distinct(batch)
        invariant forall a | 0 <= a < |batch| :: batch[a] < i && Claimable(old(rows)[batch[a]], now)
        invariant forall k: nat | k < i && Claimable(old(rows)[k], now) :: k in batch
        invariant forall a, b | 0 <= a < b < |batch| :: batch[a] < batch[b]
        invariant forall k | 0 <= k < |rows| ::
                    rows[k] == if k in batch then old(rows)[k].(status := Processing, claimedAt := now) else old(rows)[k]
        invariant forall k | 0 <= k < |batch| ::
                    events[k] == Event(batch[k], old(rows)[batch[k]].payload, old(rows)[batch[k]].attempts)
      {
        if Claimable(rows[i], now) {
          events := events + [Event(i, rows[i].payload, rows[i].attempts)];
          rows := rows[i := rows[i].(status := Processing, claimedAt := now)];
          batch := batch + [i];
        }
        i := i + 1;
      }
    }

    method MarkCompleted(id: nat)
      modifies this
      ensures rows == MarkedCompleted(old(rows), id)
      ensures OnlyRow(old(rows), rows, id)
      ensures id < |rows| ==> rows[id] == old(rows)[id].(status := Completed)
    {
      if id < |rows| {
        rows := rows[id := rows[id].(status := Completed)];
      }
    }

    method RecordFailure(id: nat, attempts: nat, maxAttempts: nat)
      modifies this
      ensures rows == FailureRecorded(old(rows), id, attempts, maxAttempts)
      ensures OnlyRow(old(rows), rows, id)
      ensures id < |rows| ==>
                && rows[id].attempts == attempts + 1 && rows[id].status == (if attempts + 1 < maxAttempts then Pending else Dead)
                && rows[id].(attempts := old(rows)[id].attempts, status := old(rows)[id].status) == old(rows)[id]
    {
      var newAttempts := attempts + 1;
      var status := Pending;
      if newAttempts >= maxAttempts {
        status := Dead;
      }
      if id < |rows| {
        rows := rows[id := rows[id].(attempts := newAttempts, status := status)];
      }
    }

    /** `now` is the start time of the caller's transaction. */
    method Insert(p: Payload, now: int, timeout: nat)
      requires SortedByCreation(rows) && forall r | r in rows :: r.createdAt <= now
      modifies this
      ensures rows == old(rows) + [NewRow(p, now, timeout)]
      ensures var r := rows[|rows| - 1];
              r.payload == p && r.status == Pending && r.createdAt == now && r.timeout == timeout && r.attempts == 0
      ensures SortedByCreation(rows) && forall r | r in rows :: r.createdAt <= now
    {
      rows := rows + [Row(p, Pending, now, 0, timeout, 0)];
    }
  }
}
