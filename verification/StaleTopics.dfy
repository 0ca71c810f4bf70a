/**
 * Why convergence needs its conditions: runs that end with every row completed and an older message retained,
 * one for each condition that the code does not enforce.
 */
module StaleTopics {
  import opened Calls
  import opened Events
  import opened Outbox
  import opened Delivery

  const FINE := Outcome(Accepted, Accepted, Accepted, Accepted, Accepted, true, false)
  const LOST := FINE.(publish := Failed(false))
  const UNWRITTEN := FINE.(written := false)

  /** Two config pushes for one device, `older` before `newer`. */
  function TwoPushes(device: Id, older: string, newer: string): Core {
    Core([NewRow(ConfigPush(device, older), 0, 30), NewRow(ConfigPush(device, newer), 1, 30)], map[], map[])
  }

  predicate Stale(c: Core, device: Id, older: string) {
    && (forall i | 0 <= i < |c.rows| :: c.rows[i].status == Completed)
    && ConfigTopic(device) in c.retained && c.retained[ConfigTopic(device)] == ConfigMessage(older)
  }

  ghost predicate Claims(c: Core, batch: seq<nat>, now: int) {
    IsClaim(c.rows, now, BATCH_SIZE, batch) && InCreationOrder(c.rows, batch)
  }

  lemma ProcessOne(c: Core, e: Event, outcome: nat -> Outcome, maxAttempts: nat)
    requires TypeOf(e.payload) in REGISTERED
    ensures ProcessAll(c, [e], outcome, maxAttempts) == Finish(c, e, Start, outcome(e.id), maxAttempts)
  {
    assert [e][1..] == [];
  }

  lemma ProcessTwo(c: Core, d: Event, e: Event, outcome: nat -> Outcome, maxAttempts: nat)
    requires TypeOf(d.payload) in REGISTERED && TypeOf(e.payload) in REGISTERED
    ensures ProcessAll(c, [d, e], outcome, maxAttempts)
         == Finish(Finish(c, d, Start, outcome(d.id), maxAttempts), e, Start, outcome(e.id), maxAttempts)
  {
    assert [d, e][1..] == [e];
    ProcessOne(Finish(c, d, Start, outcome(d.id), maxAttempts), e, outcome, maxAttempts);
  }

  /** The effect of one attempt at a config push. */
  lemma FinishConfig(c: Core, e: Event, out: Outcome, maxAttempts: nat)
    requires e.payload.ConfigPush? && e.id < |c.rows|
    ensures var topic := ConfigTopic(e.payload.device);
            Finish(c, e, Start, out, maxAttempts)
            == Settle(c.(retained := if TakesEffect(out.publish) then c.retained[topic := ConfigMessage(e.payload.timezone)] else c.retained),
                      e, out.publish.Accepted?, out.written, maxAttempts)
  {
  }

  /** The older push fails while the newer one of the same batch goes through. */
  lemma OlderFails(device: Id, older: string, newer: string, maxAttempts: nat)
    requires 1 < maxAttempts
    ensures var c0 := TwoPushes(device, older, newer);
            var c1 := TickResult(c0, [0, 1], 2, id => if id == 0 then LOST else FINE, maxAttempts);
            && c1.rows == [c0.rows[0].(claimedAt := 2, attempts := 1), c0.rows[1].(claimedAt := 2, status := Completed)]
            && c1.retained == map[ConfigTopic(device) := ConfigMessage(newer)]
  {
    var c0 := TwoPushes(device, older, newer);
    var claimed := c0.(rows := Claimed(c0.rows, [0, 1], 2));
    var d, e := Event(0, ConfigPush(device, older), 0), Event(1, ConfigPush(device, newer), 0);
    assert EventsOf(c0.rows, [0, 1]) == [d, e];
    ProcessTwo(claimed, d, e, id => if id == 0 then LOST else FINE, maxAttempts);
    FinishConfig(claimed, d, LOST, maxAttempts);
    FinishConfig(Finish(claimed, d, Start, LOST, maxAttempts), e, FINE, maxAttempts);
  }

  /** A failed event that is retried after a later event of its batch has been published. */
  lemma RetryOvertakesNewer(device: Id, older: string, newer: string, maxAttempts: nat)
    requires 1 < maxAttempts
    ensures var c0 := TwoPushes(device, older, newer);
            && Claims(c0, [0, 1], 2)
            && var c1 := TickResult(c0, [0, 1], 2, id => if id == 0 then LOST else FINE, maxAttempts);
            && Claims(c1, [0], 3)
            && Stale(TickResult(c1, [0], 3, id => FINE, maxAttempts), device, older)
  {
    OlderFails(device, older, newer, maxAttempts);
    FirstDelivered(TickResult(TwoPushes(device, older, newer), [0, 1], 2, id => if id == 0 then LOST else FINE, maxAttempts),
                   device, older, 3, maxAttempts);
  }

  lemma ClaimsReversed(r0: Row, r1: Row, now: int)
    requires r0.status == Pending && r1.status == Pending
    ensures IsClaim([r0, r1], now, BATCH_SIZE, [1, 0])
    ensures Claimed([r0, r1], [1, 0], now) == [r0.(status := Processing, claimedAt := now), r1.(status := Processing, claimedAt := now)]
    ensures EventsOf([r0, r1], [1, 0]) == [Event(1, r1.payload, r1.attempts), Event(0, r0.payload, r0.attempts)]
  {
  }

  /** A batch returned in another order than that of creation. */
  lemma UnorderedBatchOvertakes(device: Id, older: string, newer: string, maxAttempts: nat)
    ensures var c0 := TwoPushes(device, older, newer);
            && IsClaim(c0.rows, 2, BATCH_SIZE, [1, 0])
            && Stale(TickResult(c0, [1, 0], 2, id => FINE, maxAttempts), device, older)
  {
    var c0 := TwoPushes(device, older, newer);
    var d, e := Event(0, ConfigPush(device, older), 0), Event(1, ConfigPush(device, newer), 0);
    ClaimsReversed(c0.rows[0], c0.rows[1], 2);
    var claimed := c0.(rows := Claimed(c0.rows, [1, 0], 2));
    ProcessTwo(claimed, e, d, id => FINE, maxAttempts);
    FinishConfig(claimed, e, FINE, maxAttempts);
    FinishConfig(Finish(claimed, e, Start, FINE, maxAttempts), d, FINE, maxAttempts);
  }

  /** The older push goes through, but its completion is not written. */
  lemma OlderUnwritten(device: Id, older: string, newer: string, maxAttempts: nat)
    ensures var c0 := TwoPushes(device, older, newer);
            var c1 := TickResult(c0, [0, 1], 2, id => if id == 0 then UNWRITTEN else FINE, maxAttempts);
            && c1.rows == [c0.rows[0].(claimedAt := 2, status := Processing), c0.rows[1].(claimedAt := 2, status := Completed)]
            && c1.retained == map[ConfigTopic(device) := ConfigMessage(newer)]
  {
    var c0 := TwoPushes(device, older, newer);
    var claimed := c0.(rows := Claimed(c0.rows, [0, 1], 2));
    var d, e := Event(0, ConfigPush(device, older), 0), Event(1, ConfigPush(device, newer), 0);
    assert EventsOf(c0.rows, [0, 1]) == [d, e];
    ProcessTwo(claimed, d, e, id => if id == 0 then UNWRITTEN else FINE, maxAttempts);
    FinishConfig(claimed, d, UNWRITTEN, maxAttempts);
    FinishConfig(Finish(claimed, d, Start, UNWRITTEN, maxAttempts), e, FINE, maxAttempts);
  }

  lemma ClaimsFirst(r0: Row, r1: Row, now: int)
    requires Claimable(r0, now) && r1.status == Completed
    ensures IsClaim([r0, r1], now, BATCH_SIZE, [0]) && InCreationOrder([r0, r1], [0])
    ensures Claimed([r0, r1], [0], now) == [r0.(status := Processing, claimedAt := now), r1]
    ensures EventsOf([r0, r1], [0]) == [Event(0, r0.payload, r0.attempts)]
  {
  }

  /** Delivering the only claimable row of two, the first. */
  lemma FirstDelivered(c: Core, device: Id, older: string, now: int, maxAttempts: nat)
    requires |c.rows| == 2 && Claimable(c.rows[0], now) && c.rows[1].status == Completed
    requires c.rows[0].payload == ConfigPush(device, older)
    ensures Claims(c, [0], now) && Stale(TickResult(c, [0], now, id => FINE, maxAttempts), device, older)
  {
    var r0, r1 := c.rows[0], c.rows[1];
    assert c.rows == [r0, r1];
    ClaimsFirst(r0, r1, now);
    var d := Event(0, ConfigPush(device, older), r0.attempts);
    var claimed := c.(rows := [r0.(status := Processing, claimedAt := now), r1]);
    ProcessOne(claimed, d, id => FINE, maxAttempts);
    FinishConfig(claimed, d, FINE, maxAttempts);
    assert MarkedCompleted(claimed.rows, 0) == [r0.(status := Completed, claimedAt := now), r1];
  }

  /** A published event whose completion is not written, delivered again after its claim has timed out. */
  lemma LostWriteOvertakes(device: Id, older: string, newer: string, maxAttempts: nat)
    ensures var c0 := TwoPushes(device, older, newer);
            && Claims(c0, [0, 1], 2)
            && var c1 := TickResult(c0, [0, 1], 2, id => if id == 0 then UNWRITTEN else FINE, maxAttempts);
            && Claims(c1, [0], 33)
            && Stale(TickResult(c1, [0], 33, id => FINE, maxAttempts), device, older)
  {
    OlderUnwritten(device, older, newer, maxAttempts);
    FirstDelivered(TickResult(TwoPushes(device, older, newer), [0, 1], 2, id => if id == 0 then UNWRITTEN else FINE, maxAttempts),
                   device, older, 33, maxAttempts);
  }
}
