/** Any number of runners sharing the outbox: who may write a claimed row's result, and what every run keeps. */
module Leases {
  import opened Events
  import opened Outbox

  /** A runner's memory of having claimed row `id`. */
  datatype Hold = Hold(id: nat, claimedAt: int, attempts: nat)

  /** `failures` counts, per row, the failures recorded so far; the table itself has no such column. */
  datatype Shared = Shared(rows: seq<Row>, now: int, held: map<nat, set<Hold>>, failures: seq<nat>)

  datatype Step =
    | Insert(payload: Payload, timeout: nat)
    | Wait(time: nat)
    | Claim(runner: nat, batch: seq<nat>)
    | Resolve(runner: nat, hold: Hold, succeeded: bool)
    | Forget(runner: nat, hold: Hold)

  function HoldsOf(s: Shared, runner: nat): set<Hold> {
    if runner in s.held then s.held[runner] else {}
  }

  predicate Unexpired(s: Shared, h: Hold) {
    h.id < |s.rows| && s.now <= h.claimedAt + s.rows[h.id].timeout
  }

  predicate Terminal(r: Row) {
    r.status == Completed || r.status == Dead
  }

  /** What a runner's result writes to its row: an UPDATE by id, whoever has claimed the row since. */
  function Written(rows: seq<Row>, h: Hold, succeeded: bool, maxAttempts: nat): seq<Row> {
    if succeeded then MarkedCompleted(rows, h.id) else FailureRecorded(rows, h.id, h.attempts, maxAttempts)
  }

  function Counted(failures: seq<nat>, h: Hold, succeeded: bool): seq<nat> {
    if !succeeded && h.id < |failures| then failures[h.id := failures[h.id] + 1] else failures
  }

  /** The claim may skip rows that another claim has locked, so it takes any claimable rows. */
  ghost predicate Possible(s: Shared, step: Step) {
    match step
    case Insert(_, _) => true
    case Wait(_) => true
    case Claim(_, batch) => InTable(s.rows, batch) && forall a | 0 <= a < |batch| :: Claimable(s.rows[batch[a]], s.now)
    case Resolve(runner, hold, _) => hold in HoldsOf(s, runner) && hold.id < |s.rows|
    case Forget(runner, hold) => hold in HoldsOf(s, runner)
  }

  /** What a guarded update would have to check before writing the result of `h`. */
  predicate StillWritable(r: Row, h: Hold, succeeded: bool) {
    if succeeded then r.status != Dead else Live(r) && r.attempts == h.attempts
  }

  /** Either every result is written before its claim times out, or a result may come late but only to a writable row. */
  datatype Discipline = Timely | Guarded

  predicate Obeys(s: Shared, step: Step, d: Discipline)
    requires step.Resolve? ==> step.hold.id < |s.rows|
  {
    step.Resolve? ==>
      match d
      case Timely => Unexpired(s, step.hold)
      case Guarded => StillWritable(s.rows[step.hold.id], step.hold, step.succeeded)
  }

  ghost predicate Enabled(s: Shared, step: Step) {
    Possible(s, step) && Obeys(s, step, Timely)
  }

  ghost function Taken(s: Shared, batch: seq<nat>): set<Hold>
    requires InTable(s.rows, batch)
  {
    set a | 0 <= a < |batch| :: Hold(batch[a], s.now, s.rows[batch[a]].attempts)
  }

  ghost function Apply(s: Shared, step: Step, maxAttempts: nat): Shared
    requires Possible(s, step)
  {
    match step
    case Insert(p, timeout) => s.(rows := s.rows + [NewRow(p, s.now, timeout)], failures := s.failures + [0])
    case Wait(time) => s.(now := s.now + time)
    case Claim(runner, batch) =>
      s.(rows := Claimed(s.rows, batch, s.now), held := s.held[runner := HoldsOf(s, runner) + Taken(s, batch)])
    case Resolve(runner, hold, succeeded) =>
      s.(rows := Written(s.rows, hold, succeeded, maxAttempts),
         failures := Counted(s.failures, hold, succeeded),
         held := s.held[runner := HoldsOf(s, runner) - {hold}])
    case Forget(runner, hold) => s.(held := s.held[runner := HoldsOf(s, runner) - {hold}])
  }

  ghost predicate CanRun(s: Shared, steps: seq<Step>, d: Discipline, maxAttempts: nat)
    decreases |steps|
  {
    steps == [] || (Possible(s, steps[0]) && Obeys(s, steps[0], d) && CanRun(Apply(s, steps[0], maxAttempts), steps[1..], d, maxAttempts))
  }

  ghost function Exec(s: Shared, steps: seq<Step>, d: Discipline, maxAttempts: nat): Shared
    requires CanRun(s, steps, d, maxAttempts)
    decreases |steps|
  {
    if steps == [] then s else Exec(Apply(s, steps[0], maxAttempts), steps[1..], d, maxAttempts)
  }

  const EMPTY := Shared([], 0, map[], [])

  // ---- What every run keeps ---------------------------------------------------------------------

  ghost predicate OneHolder(s: Shared) {
    forall r: nat, r': nat, h, h' | h in HoldsOf(s, r) && h' in HoldsOf(s, r') && h.id == h'.id && Unexpired(s, h) && Unexpired(s, h') ::
      r == r' && h == h'
  }

  ghost predicate AttemptsAreFailures(s: Shared) {
    |s.failures| == |s.rows| && forall i | 0 <= i < |s.rows| :: s.rows[i].attempts == s.failures[i]
  }

  ghost predicate AttemptLimit(s: Shared, maxAttempts: nat) {
    forall i | 0 <= i < |s.rows| ::
      && (Live(s.rows[i]) ==> s.rows[i].attempts < maxAttempts)
      && (s.rows[i].status == Dead ==> s.rows[i].attempts == maxAttempts)
  }

  /** An unexpired hold matches the row it was taken on. */
  ghost predicate HoldsMatch(s: Shared) {
    && (forall r: nat, h | h in HoldsOf(s, r) :: h.claimedAt <= s.now && h.id < |s.rows|)
    && (forall r: nat, h | h in HoldsOf(s, r) && Unexpired(s, h) ::
          var row := s.rows[h.id];
          row.status == Processing && row.claimedAt == h.claimedAt && row.attempts == h.attempts)
  }

  ghost predicate Invariant(s: Shared, maxAttempts: nat) {
    OneHolder(s) && HoldsMatch(s) && AttemptsAreFailures(s) && AttemptLimit(s, maxAttempts)
  }

  lemma HoldsAfterClaim(s: Shared, runner: nat, batch: seq<nat>, maxAttempts: nat, r: nat)
    requires Possible(s, Claim(runner, batch))
    ensures HoldsOf(Apply(s, Claim(runner, batch), maxAttempts), r) == HoldsOf(s, r) + if r == runner then Taken(s, batch) else {}
  {
  }

  lemma TakenHold(s: Shared, batch: seq<nat>, h: Hold)
    requires InTable(s.rows, batch) && h in Taken(s, batch)
    ensures h.id in batch && h.id < |s.rows| && h == Hold(h.id, s.now, s.rows[h.id].attempts)
  {
  }

  lemma ClaimableInBatch(s: Shared, runner: nat, batch: seq<nat>, id: nat)
    requires Possible(s, Claim(runner, batch)) && id in batch
    ensures id < |s.rows| && Claimable(s.rows[id], s.now)
  {
  }

  /** After a claim an unexpired hold is either an old one, on a row that could not be claimed, or a new one. */
  lemma UnexpiredAfterClaim(s: Shared, runner: nat, batch: seq<nat>, maxAttempts: nat, r: nat, h: Hold)
    requires HoldsMatch(s) && Possible(s, Claim(runner, batch))
    requires var s' := Apply(s, Claim(runner, batch), maxAttempts); h in HoldsOf(s', r) && Unexpired(s', h)
    ensures if h.id in batch then r == runner && h in Taken(s, batch) else h in HoldsOf(s, r) && Unexpired(s, h)
  {
    HoldsAfterClaim(s, runner, batch, maxAttempts, r);
    assert Unexpired(s, h);
    if h.id in batch {
      ClaimableInBatch(s, runner, batch, h.id);
    } else if r == runner && h in Taken(s, batch) {
      TakenHold(s, batch, h);
    }
  }

  lemma ClaimKeepsOneHolder(s: Shared, runner: nat, batch: seq<nat>, maxAttempts: nat)
    requires OneHolder(s) && HoldsMatch(s) && Possible(s, Claim(runner, batch))
    ensures OneHolder(Apply(s, Claim(runner, batch), maxAttempts))
  {
    var s' := Apply(s, Claim(runner, batch), maxAttempts);
    forall r: nat, r': nat, h, h'
      | h in HoldsOf(s', r) && h' in HoldsOf(s', r') && h.id == h'.id && Unexpired(s', h) && Unexpired(s', h')
      ensures r == r' && h == h'
    {
      UnexpiredAfterClaim(s, runner, batch, maxAttempts, r, h);
      UnexpiredAfterClaim(s, runner, batch, maxAttempts, r', h');
      if h.id in batch {
        TakenHold(s, batch, h);
        TakenHold(s, batch, h');
      }
    }
  }

  lemma HoldMatchesAfterClaim(s: Shared, runner: nat, batch: seq<nat>, maxAttempts: nat, r: nat, h: Hold)
    requires HoldsMatch(s) && Possible(s, Claim(runner, batch))
    requires h in HoldsOf(Apply(s, Claim(runner, batch), maxAttempts), r)
    ensures var s' := Apply(s, Claim(runner, batch), maxAttempts);
            && h.claimedAt <= s'.now && h.id < |s'.rows|
            && (Unexpired(s', h) ==>
                  var row := s'.rows[h.id];
                  row.status == Processing && row.claimedAt == h.claimedAt && row.attempts == h.attempts)
  {
    HoldsAfterClaim(s, runner, batch, maxAttempts, r);
    if h in Taken(s, batch) {
      TakenHold(s, batch, h);
    } else {
      assert h in HoldsOf(s, r);
    }
    if Unexpired(Apply(s, Claim(runner, batch), maxAttempts), h) {
      UnexpiredAfterClaim(s, runner, batch, maxAttempts, r, h);
      if h.id in batch {
        TakenHold(s, batch, h);
      }
    }
  }

  lemma ClaimKeepsHoldsMatch(s: Shared, runner: nat, batch: seq<nat>, maxAttempts: nat)
    requires HoldsMatch(s) && Possible(s, Claim(runner, batch))
    ensures HoldsMatch(Apply(s, Claim(runner, batch), maxAttempts))
  {
    var s' := Apply(s, Claim(runner, batch), maxAttempts);
    forall r: nat, h | h in HoldsOf(s', r)
      ensures h.claimedAt <= s'.now && h.id < |s'.rows|
      ensures Unexpired(s', h) ==>
                var row := s'.rows[h.id];
                row.status == Processing && row.claimedAt == h.claimedAt && row.attempts == h.attempts
    {
      HoldMatchesAfterClaim(s, runner, batch, maxAttempts, r, h);
    }
  }

  lemma ClaimKeepsCounts(s: Shared, runner: nat, batch: seq<nat>, maxAttempts: nat)
    requires AttemptsAreFailures(s) && AttemptLimit(s, maxAttempts) && Possible(s, Claim(runner, batch))
    ensures var s' := Apply(s, Claim(runner, batch), maxAttempts); AttemptsAreFailures(s') && AttemptLimit(s', maxAttempts)
  {
    forall i: nat | i in batch ensures i < |s.rows| && Claimable(s.rows[i], s.now) {
      ClaimableInBatch(s, runner, batch, i);
    }
  }

  lemma ClaimKeepsInvariant(s: Shared, runner: nat, batch: seq<nat>, maxAttempts: nat)
    requires Invariant(s, maxAttempts) && Enabled(s, Claim(runner, batch))
    ensures Invariant(Apply(s, Claim(runner, batch), maxAttempts), maxAttempts)
  {
    ClaimKeepsOneHolder(s, runner, batch, maxAttempts);
    ClaimKeepsHoldsMatch(s, runner, batch, maxAttempts);
    ClaimKeepsCounts(s, runner, batch, maxAttempts);
  }

  lemma ResolveKeepsInvariant(s: Shared, runner: nat, hold: Hold, succeeded: bool, maxAttempts: nat)
    requires Invariant(s, maxAttempts) && Enabled(s, Resolve(runner, hold, succeeded))
    ensures Invariant(Apply(s, Resolve(runner, hold, succeeded), maxAttempts), maxAttempts)
  {
    var s' := Apply(s, Resolve(runner, hold, succeeded), maxAttempts);
    assert forall r: nat, h | h in HoldsOf(s', r) :: h in HoldsOf(s, r) && (r, h) != (runner, hold);
    forall r: nat, h | h in HoldsOf(s', r) && Unexpired(s', h)
      ensures Unexpired(s, h) && h.id != hold.id
    {
      assert Unexpired(s, h) && Unexpired(s, hold);
    }
  }

  lemma StepKeepsInvariant(s: Shared, step: Step, maxAttempts: nat)
    requires 0 < maxAttempts && Invariant(s, maxAttempts) && Enabled(s, step)
    ensures Invariant(Apply(s, step, maxAttempts), maxAttempts)
  {
    match step
    case Claim(runner, batch) => ClaimKeepsInvariant(s, runner, batch, maxAttempts);
    case Resolve(runner, hold, succeeded) => ResolveKeepsInvariant(s, runner, hold, succeeded, maxAttempts);
    case _ => RestKeepsInvariant(s, step, maxAttempts);
  }

  lemma RestKeepsInvariant(s: Shared, step: Step, maxAttempts: nat)
    requires 0 < maxAttempts && Invariant(s, maxAttempts) && Possible(s, step) && !step.Claim? && !step.Resolve?
    ensures Invariant(Apply(s, step, maxAttempts), maxAttempts)
  {
    var s' := Apply(s, step, maxAttempts);
    assert forall r: nat, h | h in HoldsOf(s', r) :: h in HoldsOf(s, r);
    FewerHolds(s, s');
  }

  lemma FewerHolds(s: Shared, s': Shared)
    requires OneHolder(s) && HoldsMatch(s)
    requires s.now <= s'.now && |s.rows| <= |s'.rows| && forall i | 0 <= i < |s.rows| :: s'.rows[i] == s.rows[i]
    requires forall r: nat, h | h in HoldsOf(s', r) :: h in HoldsOf(s, r)
    ensures OneHolder(s') && HoldsMatch(s')
  {
    forall r: nat, h | h in HoldsOf(s', r) && Unexpired(s', h) ensures Unexpired(s, h) {
      assert h in HoldsOf(s, r);
    }
  }

  /** Completed and dead rows are never written again. */
  lemma TerminalRowsStay(s: Shared, step: Step, maxAttempts: nat, i: nat)
    requires Invariant(s, maxAttempts) && Enabled(s, step)
    requires i < |s.rows| && Terminal(s.rows[i])
    ensures var s' := Apply(s, step, maxAttempts); i < |s'.rows| && s'.rows[i] == s.rows[i]
  {
    match step
    case Resolve(runner, hold, succeeded) =>
      assert s.rows[hold.id].status == Processing;
    case _ =>
  }

  lemma {:induction false} RunKeepsInvariant(s: Shared, steps: seq<Step>, maxAttempts: nat)
    requires 0 < maxAttempts && Invariant(s, maxAttempts) && CanRun(s, steps, Timely, maxAttempts)
    ensures Invariant(Exec(s, steps, Timely, maxAttempts), maxAttempts)
    decreases |steps|
  {
    if steps != [] {
      StepKeepsInvariant(s, steps[0], maxAttempts);
      RunKeepsInvariant(Apply(s, steps[0], maxAttempts), steps[1..], maxAttempts);
    }
  }

  lemma {:induction false} TerminalRowsStayForever(s: Shared, steps: seq<Step>, maxAttempts: nat, i: nat)
    requires 0 < maxAttempts && Invariant(s, maxAttempts) && CanRun(s, steps, Timely, maxAttempts)
    requires i < |s.rows| && Terminal(s.rows[i])
    ensures var s' := Exec(s, steps, Timely, maxAttempts); i < |s'.rows| && s'.rows[i] == s.rows[i]
    decreases |steps|
  {
    if steps != [] {
      StepKeepsInvariant(s, steps[0], maxAttempts);
      TerminalRowsStay(s, steps[0], maxAttempts, i);
      TerminalRowsStayForever(Apply(s, steps[0], maxAttempts), steps[1..], maxAttempts, i);
    }
  }

  lemma {:induction false} ExecSplits(s: Shared, one: seq<Step>, other: seq<Step>, d: Discipline, maxAttempts: nat)
    requires CanRun(s, one + other, d, maxAttempts)
    ensures CanRun(s, one, d, maxAttempts) && CanRun(Exec(s, one, d, maxAttempts), other, d, maxAttempts)
    ensures Exec(s, one + other, d, maxAttempts) == Exec(Exec(s, one, d, maxAttempts), other, d, maxAttempts)
    decreases |one|
  {
    if one == [] {
      assert one + other == other;
    } else {
      assert (one + other)[0] == one[0] && (one + other)[1..] == one[1..] + other;
      ExecSplits(Apply(s, one[0], maxAttempts), one[1..], other, d, maxAttempts);
    }
  }

  /**
   * Lease safety: when every result is written before its claim times out, then after any run of any number
   * of runners a row has at most one unexpired holder and its attempts are its recorded failures, and
   * however the run continues its completed and dead rows stay as they are.
   */
  lemma LeaseSafety(run: seq<Step>, continuation: seq<Step>, maxAttempts: nat)
    requires 0 < maxAttempts && CanRun(EMPTY, run + continuation, Timely, maxAttempts)
    ensures CanRun(EMPTY, run, Timely, maxAttempts)
    ensures var s, s' := Exec(EMPTY, run, Timely, maxAttempts), Exec(EMPTY, run + continuation, Timely, maxAttempts);
            && OneHolder(s) && AttemptsAreFailures(s) && AttemptLimit(s, maxAttempts)
            && forall i | 0 <= i < |s.rows| && Terminal(s.rows[i]) :: i < |s'.rows| && s'.rows[i] == s.rows[i]
  {
    ExecSplits(EMPTY, run, continuation, Timely, maxAttempts);
    EmptyFits(maxAttempts);
    RunKeepsInvariant(EMPTY, run, maxAttempts);
    TerminalRowsAreFinal(Exec(EMPTY, run, Timely, maxAttempts), continuation, maxAttempts);
  }

  lemma EmptyFits(maxAttempts: nat)
    ensures Invariant(EMPTY, maxAttempts)
  {
  }

  lemma TerminalRowsAreFinal(s: Shared, steps: seq<Step>, maxAttempts: nat)
    requires 0 < maxAttempts && Invariant(s, maxAttempts) && CanRun(s, steps, Timely, maxAttempts)
    ensures var s' := Exec(s, steps, Timely, maxAttempts);
            forall i | 0 <= i < |s.rows| && Terminal(s.rows[i]) :: i < |s'.rows| && s'.rows[i] == s.rows[i]
  {
    var s' := Exec(s, steps, Timely, maxAttempts);
    forall i: nat | i < |s.rows| && Terminal(s.rows[i]) ensures i < |s'.rows| && s'.rows[i] == s.rows[i] {
      TerminalRowsStayForever(s, steps, maxAttempts, i);
    }
  }

  // ---- Writes without the lease -----------------------------------------------------------------

  /**
   * A result written at any time, late or not, keeps terminal rows and the failure count exactly when its
   * row is still writable; the two update statements do not check this.
   */
  lemma WriteIsSafeIffWritable(s: Shared, h: Hold, succeeded: bool, maxAttempts: nat)
    requires AttemptsAreFailures(s) && h.id < |s.rows|
    ensures var rows := Written(s.rows, h, succeeded, maxAttempts);
            (&& (Terminal(s.rows[h.id]) ==> rows[h.id] == s.rows[h.id])
             && rows[h.id].attempts == Counted(s.failures, h, succeeded)[h.id])
            <==> StillWritable(s.rows[h.id], h, succeeded)
  {
    var row := s.rows[h.id];
    assert row.attempts == s.failures[h.id];
    if !succeeded && Terminal(row) {
      var written := FailedRow(row, h.attempts, maxAttempts);
      assert written == row ==> written.attempts != s.failures[h.id] + 1;
    }
  }

  /** A write within the lease is always such a write. */
  lemma TimelyWriteIsWritable(s: Shared, runner: nat, h: Hold, succeeded: bool, maxAttempts: nat)
    requires Invariant(s, maxAttempts) && h in HoldsOf(s, runner) && Unexpired(s, h)
    ensures StillWritable(s.rows[h.id], h, succeeded)
  {
    assert HoldsMatch(s);
    assert s.rows[h.id].status == Processing;
  }

  ghost predicate CountsFit(s: Shared, maxAttempts: nat) {
    AttemptsAreFailures(s) && AttemptLimit(s, maxAttempts)
  }

  lemma GuardedStep(s: Shared, step: Step, maxAttempts: nat)
    requires 0 < maxAttempts && CountsFit(s, maxAttempts) && Possible(s, step) && Obeys(s, step, Guarded)
    ensures var s' := Apply(s, step, maxAttempts);
            && CountsFit(s', maxAttempts)
            && |s.rows| <= |s'.rows| && forall i | 0 <= i < |s.rows| && Terminal(s.rows[i]) :: s'.rows[i] == s.rows[i]
  {
    if step.Claim? {
      assert forall i: nat | i in step.batch :: i < |s.rows| && Claimable(s.rows[i], s.now);
    }
  }

  lemma {:induction false} GuardedRun(s: Shared, steps: seq<Step>, maxAttempts: nat)
    requires 0 < maxAttempts && CountsFit(s, maxAttempts) && CanRun(s, steps, Guarded, maxAttempts)
    ensures var s' := Exec(s, steps, Guarded, maxAttempts);
            && CountsFit(s', maxAttempts)
            && |s.rows| <= |s'.rows| && forall i | 0 <= i < |s.rows| && Terminal(s.rows[i]) :: s'.rows[i] == s.rows[i]
    decreases |steps|
  {
    if steps != [] {
      GuardedStep(s, steps[0], maxAttempts);
      GuardedRun(Apply(s, steps[0], maxAttempts), steps[1..], maxAttempts);
    }
  }

  /**
   * Guarded writes: results may be written at any time, by any number of runners; if each finds its row still
   * writable, then in every run attempts are the recorded failures, dead rows have used up all of them, and
   * completed and dead rows stay as they are.
   */
  lemma GuardedWritesAreSafe(run: seq<Step>, continuation: seq<Step>, maxAttempts: nat)
    requires 0 < maxAttempts && CanRun(EMPTY, run + continuation, Guarded, maxAttempts)
    ensures CanRun(EMPTY, run, Guarded, maxAttempts)
    ensures var s, s' := Exec(EMPTY, run, Guarded, maxAttempts), Exec(EMPTY, run + continuation, Guarded, maxAttempts);
            && CountsFit(s, maxAttempts)
            && |s.rows| <= |s'.rows| && forall i | 0 <= i < |s.rows| && Terminal(s.rows[i]) :: s'.rows[i] == s.rows[i]
  {
    ExecSplits(EMPTY, run, continuation, Guarded, maxAttempts);
    GuardedRun(EMPTY, run, maxAttempts);
    GuardedRun(Exec(EMPTY, run, Guarded, maxAttempts), continuation, maxAttempts);
  }

  /** A late failure revives a row that another runner has completed. */
  lemma LateFailureRevivesRow(p: Payload, timeout: nat, maxAttempts: nat) returns (s: Shared, late: Hold)
    requires 1 < maxAttempts
    ensures exists steps :: Leads(EMPTY, steps, s, maxAttempts)
    ensures late in HoldsOf(s, 0) && !Unexpired(s, late)
    ensures late.id < |s.rows| && s.rows[late.id].status == Completed
    ensures Written(s.rows, late, false, maxAttempts)[late.id].status == Pending
  {
    late := Hold(0, 0, 0);
    var again := Hold(0, timeout + 1, 0);
    var row := NewRow(p, 0, timeout);
    var claimed, reclaimed := row.(status := Processing), row.(status := Processing, claimedAt := timeout + 1);
    var s1 := Shared([row], 0, map[], [0]);
    var s2 := Shared([claimed], 0, map[0 := {late}], [0]);
    var s3 := s2.(now := timeout + 1);
    var s4 := Shared([reclaimed], timeout + 1, map[0 := {late}, 1 := {again}], [0]);
    s := Shared([reclaimed.(status := Completed)], timeout + 1, map[0 := {late}, 1 := {}], [0]);
    ClaimFirst(s1, 0, s2, late, maxAttempts);
    ClaimFirst(s3, 1, s4, again, maxAttempts);
    ResolveOnly(s4, 1, again, s, maxAttempts);
    ThenTwo(s3, Claim(1, [0]), s4, Resolve(1, again, true), s, maxAttempts);
    var r4 := [Claim(1, [0]), Resolve(1, again, true)];
    Then(s2, Wait(timeout + 1), s3, r4, s, maxAttempts);
    var r3 := [Wait(timeout + 1)] + r4;
    Then(s1, Claim(0, [0]), s2, r3, s, maxAttempts);
    var r2 := [Claim(0, [0])] + r3;
    assert Apply(EMPTY, Insert(p, timeout), maxAttempts) == s1;
    Then(EMPTY, Insert(p, timeout), s1, r2, s, maxAttempts);
    assert Leads(EMPTY, [Insert(p, timeout)] + r2, s, maxAttempts);
  }

  ghost predicate Leads(s: Shared, steps: seq<Step>, s': Shared, maxAttempts: nat) {
    CanRun(s, steps, Timely, maxAttempts) && Exec(s, steps, Timely, maxAttempts) == s'
  }

  lemma Then(s: Shared, step: Step, s1: Shared, steps: seq<Step>, s': Shared, maxAttempts: nat)
    requires Enabled(s, step) && Apply(s, step, maxAttempts) == s1
    requires if steps == [] then s1 == s' else Leads(s1, steps, s', maxAttempts)
    ensures Leads(s, [step] + steps, s', maxAttempts)
  {
    assert ([step] + steps)[1..] == steps;
  }

  lemma ThenTwo(s: Shared, step: Step, s1: Shared, step': Step, s2: Shared, maxAttempts: nat)
    requires Enabled(s, step) && Apply(s, step, maxAttempts) == s1
    requires Enabled(s1, step') && Apply(s1, step', maxAttempts) == s2
    ensures Leads(s, [step, step'], s2, maxAttempts)
  {
    Then(s1, step', s2, [], s2, maxAttempts);
    Then(s, step, s1, [step'] + [], s2, maxAttempts);
    assert [step] + ([step'] + []) == [step, step'];
  }

  /** Claiming the only row of the table. */
  lemma ClaimFirst(s: Shared, runner: nat, s': Shared, hold: Hold, maxAttempts: nat)
    requires |s.rows| == 1 && Claimable(s.rows[0], s.now) && runner !in s.held && hold == Hold(0, s.now, s.rows[0].attempts)
    requires s' == s.(rows := [s.rows[0].(status := Processing, claimedAt := s.now)], held := s.held[runner := {hold}])
    ensures Possible(s, Claim(runner, [0])) && Apply(s, Claim(runner, [0]), maxAttempts) == s'
  {
    assert Taken(s, [0]) == {hold} by {
      assert hold == Hold([0][0], s.now, s.rows[0].attempts);
    }
    assert Claimed(s.rows, [0], s.now) == s'.rows;
    assert HoldsOf(s, runner) + {hold} == {hold};
  }

  /** Completing the only row of the table under the runner's only hold. */
  lemma ResolveOnly(s: Shared, runner: nat, hold: Hold, s': Shared, maxAttempts: nat)
    requires |s.rows| == 1 && hold.id == 0 && runner in s.held && s.held[runner] == {hold}
    requires s' == s.(rows := [s.rows[0].(status := Completed)], held := s.held[runner := {}])
    ensures Possible(s, Resolve(runner, hold, true)) && Apply(s, Resolve(runner, hold, true), maxAttempts) == s'
  {
    assert HoldsOf(s, runner) - {hold} == {};
    assert MarkedCompleted(s.rows, 0) == s'.rows;
  }
}
