/** Provisioning codes: creating and claiming them, by any number of requests at statement granularity. */
module Codes {
  import opened Wrappers
  import opened Calls

  /** A row of provisioning_codes; a code's identity is its position in the table. */
  datatype Code = Code(text: string, user: string, usedAt: Option<int>, device: Option<nat>)

  datatype Refusal = CodeNotFound | CodeAlreadyUsed | StoreFailed | Abandoned

  datatype Kind = Claim(text: string) | Get(user: string)

  /**
   * How far a request has got. From Locked to Marked a claim is inside its transaction, whose writes nobody
   * else sees; an unanswered claim was committed although the commit reported an error.
   */
  datatype Stage =
    | Arrived
    | Looked(code: nat)
    | Begun(code: nat, began: int)
    | Locked(code: nat, began: int, user: string)
    | Inserted(code: nat, began: int, user: string, device: nat)
    | Marked(code: nat, began: int, user: string, device: nat)
    | Claimed(code: nat, user: string, device: nat)
    | Unanswered(code: nat, user: string, device: nat)
    | Peeked(code: nat)
    | Missing
    | Issued(code: nat)
    | Refused(why: Refusal)

  datatype Request = Request(kind: Kind, stage: Stage)

  /** The committed tables, the row locks of open transactions, the next unused device id, and all requests. */
  datatype State = State(codes: seq<Code>, devices: map<nat, string>, locks: map<nat, nat>, nextId: nat,
                         requests: seq<Request>, now: int)

  /** The environment's part in a statement: its outcome, the random text, the row a LIMIT 1 query picks. */
  datatype Env = Env(call: Call, random: string, pick: Option<nat>)

  datatype Step = Arrive(kind: Kind) | Proceed(request: nat, env: Env) | Abandon(request: nat) | Wait(time: nat)

  const EMPTY := State([], map[], map[], 0, [], 0)

  /** The position of the code with `text`, or -1. */
  function Find(codes: seq<Code>, text: string): (i: int)
    ensures -1 <= i < |codes|
    ensures i >= 0 ==> codes[i].text == text
    ensures i < 0 <==> forall k | 0 <= k < |codes| :: codes[k].text != text
  {
    if codes == [] then -1
    else if codes[|codes| - 1].text == text then |codes| - 1
    else Find(codes[..|codes| - 1], text)
  }

  predicate Unused(s: State, code: nat) {
    code < |s.codes| && s.codes[code].usedAt.None?
  }

  function AtStage(s: State, r: nat, stage: Stage): State
    requires r < |s.requests|
  {
    s.(requests := s.requests[r := s.requests[r].(stage := stage)])
  }

  /** Ending the transaction of request `r` releases its locks. */
  function Released(s: State, r: nat): State {
    s.(locks := map c | c in s.locks && s.locks[c] != r :: s.locks[c])
  }

  function RolledBack(s: State, r: nat, why: Refusal): State
    requires r < |s.requests|
  {
    AtStage(Released(s, r), r, Refused(why))
  }

  function AfterLook(s: State, text: string): Stage {
    var i := Find(s.codes, text);
    if i < 0 then Refused(CodeNotFound)
    else if s.codes[i].usedAt.Some? then Refused(CodeAlreadyUsed)
    else Looked(i)
  }

  /** SELECT ... WHERE code = ... AND used_at IS NULL FOR UPDATE waits for the lock and then sees the latest row. */
  function Locking(s: State, r: nat, code: nat, began: int): State
    requires r < |s.requests|
  {
    if code in s.locks then s
    else if !Unused(s, code) then RolledBack(s, r, CodeAlreadyUsed)
    else AtStage(s.(locks := s.locks[code := r]), r, Locked(code, began, s.codes[code].user))
  }

  function Committed(s: State, code: nat, began: int, user: string, device: nat): State {
    if code < |s.codes| then
      s.(codes := s.codes[code := s.codes[code].(usedAt := Some(began), device := Some(device))], devices := s.devices[device := user])
    else s
  }

  function Committing(s: State, r: nat, code: nat, began: int, user: string, device: nat, call: Call): State
    requires r < |s.requests|
  {
    if !TakesEffect(call) then RolledBack(s, r, StoreFailed)
    else AtStage(Committed(Released(s, r), code, began, user, device), r,
                 if call.Accepted? then Claimed(code, user, device) else Unanswered(code, user, device))
  }

  /**
   * SELECT ... WHERE user_id = ... AND used_at IS NULL LIMIT 1 FOR UPDATE. It may find nothing if the user has
   * no unused code, or if the one it waited for has been used.
   */
  ghost predicate MayPick(s: State, user: string, pick: Option<nat>) {
    match pick
    case Some(c) => Unused(s, c) && s.codes[c].user == user && c !in s.locks
    case None => (exists c :: 0 <= c < |s.codes| && s.codes[c].user == user && s.codes[c].usedAt.Some?)
                 || forall c | 0 <= c < |s.codes| :: s.codes[c].user != user
  }

  ghost function Picking(s: State, r: nat, user: string, pick: Option<nat>): State
    requires r < |s.requests|
  {
    if !MayPick(s, user, pick) then s
    else match pick
      case Some(c) => AtStage(s.(locks := s.locks[c := r]), r, Peeked(c))
      case None => AtStage(s, r, Missing)
  }

  function WithCode(s: State, text: string, user: string): State {
    s.(codes := s.codes + [Code(text, user, None, None)])
  }

  function Creating(s: State, r: nat, user: string, env: Env): State
    requires r < |s.requests|
  {
    if !TakesEffect(env.call) || Find(s.codes, env.random) >= 0 then AtStage(s, r, Refused(StoreFailed))
    else AtStage(WithCode(s, env.random, user), r, if env.call.Accepted? then Issued(|s.codes|) else Refused(StoreFailed))
  }

  predicate Ended(stage: Stage) {
    stage.Claimed? || stage.Unanswered? || stage.Issued? || stage.Refused?
  }

  /** A statement that succeeds, except the writes that end a claim or create a code. */
  ghost function Statement(s: State, r: nat, pick: Option<nat>): State
    requires r < |s.requests|
  {
    var Request(kind, stage) := s.requests[r];
    match stage
    case Arrived => if kind.Claim? then AtStage(s, r, AfterLook(s, kind.text)) else Picking(s, r, kind.user, pick)
    case Looked(code) => AtStage(s, r, Begun(code, s.now))
    case Begun(code, began) => Locking(s, r, code, began)
    case Locked(code, began, user) => AtStage(s.(nextId := s.nextId + 1), r, Inserted(code, began, user, s.nextId))
    case Inserted(code, began, user, device) => AtStage(s, r, Marked(code, began, user, device))
    case Peeked(code) => AtStage(Released(s, r), r, Issued(code))
    case _ => s
  }

  /** The next statement of a request. A request that waits for a lock stays where it is. */
  ghost function Advance(s: State, r: nat, env: Env): State
    requires r < |s.requests|
  {
    var Request(kind, stage) := s.requests[r];
    if Ended(stage) then s
    else if stage.Marked? then Committing(s, r, stage.code, stage.began, stage.user, stage.device, env.call)
    else if stage.Missing? && kind.Get? then Creating(s, r, kind.user, env)
    else if !env.call.Accepted? then RolledBack(s, r, StoreFailed)
    else Statement(s, r, env.pick)
  }

  ghost function Apply(s: State, step: Step): State {
    match step
    case Arrive(kind) => s.(requests := s.requests + [Request(kind, Arrived)])
    case Proceed(r, env) => if r < |s.requests| then Advance(s, r, env) else s
    case Abandon(r) => if r < |s.requests| && !Ended(s.requests[r].stage) then RolledBack(s, r, Abandoned) else s
    case Wait(time) => s.(now := s.now + time)
  }

  ghost function Exec(s: State, steps: seq<Step>): State
    decreases |steps|
  {
    if steps == [] then s else Exec(Apply(s, steps[0]), steps[1..])
  }

  // ---- What every run keeps ---------------------------------------------------------------------

  /** A used code names a device of its user. */
  ghost predicate CodesFit(s: State) {
    && (forall c | 0 <= c < |s.codes| ::
          if s.codes[c].usedAt.None? then s.codes[c].device.None?
          else s.codes[c].device.Some? && s.codes[c].device.value in s.devices && s.devices[s.codes[c].device.value] == s.codes[c].user)
    && (forall c, c' | 0 <= c < c' < |s.codes| :: s.codes[c].text != s.codes[c'].text)
    && (forall c, c' | 0 <= c < c' < |s.codes| && s.codes[c].device.Some? :: s.codes[c].device != s.codes[c'].device)
  }

  ghost predicate Named(s: State, device: nat) {
    exists c :: 0 <= c < |s.codes| && s.codes[c].device == Some(device)
  }

  ghost predicate DevicesNamed(s: State) {
    forall d | d in s.devices :: d < s.nextId && Named(s, d)
  }

  predicate Finished(stage: Stage) {
    stage.Claimed? || stage.Unanswered?
  }

  predicate Holds(stage: Stage) {
    stage.Locked? || stage.Inserted? || stage.Marked? || stage.Peeked?
  }

  ghost predicate StageFits(s: State, r: nat)
    requires r < |s.requests|
  {
    var Request(kind, stage) := s.requests[r];
    && (Holds(stage) ==> Unused(s, stage.code) && stage.code in s.locks && s.locks[stage.code] == r)
    && (stage.Locked? || stage.Inserted? || stage.Marked? ==> stage.user == s.codes[stage.code].user)
    && (stage.Inserted? || stage.Marked? ==> stage.device < s.nextId && stage.device !in s.devices)
    && (Finished(stage) ==>
          && stage.code < |s.codes| && s.codes[stage.code].device == Some(stage.device) && s.codes[stage.code].user == stage.user)
    && (stage.Looked? || stage.Begun? ==> stage.code < |s.codes|)
    && (stage.Peeked? || stage.Issued? ==> kind.Get? && stage.code < |s.codes| && s.codes[stage.code].user == kind.user)
  }

  ghost predicate StagesFit(s: State) {
    forall r: nat | r < |s.requests| :: StageFits(s, r)
  }

  predicate HasDevice(stage: Stage) {
    stage.Inserted? || stage.Marked?
  }

  /** No two claims under way have inserted the same device. */
  ghost predicate DevicesDiffer(s: State) {
    forall r, q | 0 <= r < q < |s.requests| && HasDevice(s.requests[r].stage) && HasDevice(s.requests[q].stage) ::
      s.requests[r].stage.device != s.requests[q].stage.device
  }

  predicate ClaimedBy(s: State, code: nat, r: nat) {
    r < |s.requests| && Finished(s.requests[r].stage) && s.requests[r].stage.code == code
  }

  ghost predicate SomeClaim(s: State, code: nat) {
    exists r :: ClaimedBy(s, code, r)
  }

  /** Every used code was used by exactly one claim. */
  ghost predicate OneClaim(s: State) {
    && (forall c, r, q | ClaimedBy(s, c, r) && ClaimedBy(s, c, q) :: r == q)
    && (forall c: nat | c < |s.codes| && !Unused(s, c) :: SomeClaim(s, c))
  }

  ghost predicate Invariant(s: State) {
    CodesFit(s) && DevicesNamed(s) && StagesFit(s) && DevicesDiffer(s) && OneClaim(s)
  }

  // ---- What one step keeps ----------------------------------------------------------------------

  /** The committed tables stay, and no claim finishes or inserts a device. */
  ghost predicate Quiet(s: State, s': State) {
    && s'.codes == s.codes && s'.devices == s.devices && s'.nextId == s.nextId
    && |s.requests| <= |s'.requests|
    && (forall r: nat | r < |s'.requests| :: Finished(s'.requests[r].stage) ==> r < |s.requests| && s'.requests[r] == s.requests[r])
    && (forall r: nat | r < |s.requests| && Finished(s.requests[r].stage) :: s'.requests[r] == s.requests[r])
    && (forall r: nat | r < |s'.requests| && HasDevice(s'.requests[r].stage) ::
          r < |s.requests| && HasDevice(s.requests[r].stage) && s.requests[r].stage.device == s'.requests[r].stage.device)
  }

  lemma QuietKeepsRest(s: State, s': State)
    requires Invariant(s) && Quiet(s, s')
    ensures CodesFit(s') && DevicesNamed(s') && DevicesDiffer(s') && OneClaim(s')
  {
    forall d | d in s'.devices ensures Named(s', d) {
      assert Named(s, d);
    }
    assert forall c, r :: ClaimedBy(s', c, r) <==> ClaimedBy(s, c, r);
    forall c: nat | c < |s'.codes| && !Unused(s', c) ensures SomeClaim(s', c) {
      assert !Unused(s, c) && SomeClaim(s, c);
      var r :| ClaimedBy(s, c, r);
      assert ClaimedBy(s', c, r);
    }
  }

  lemma OthersFit(s: State, s': State, r: nat)
    requires StagesFit(s) && r < |s.requests| == |s'.requests|
    requires s'.codes == s.codes && s'.devices == s.devices && s'.nextId == s.nextId
    requires forall q: nat | q < |s.requests| && q != r :: s'.requests[q] == s.requests[q]
    requires forall c | c in s.locks && s.locks[c] != r :: c in s'.locks && s'.locks[c] == s.locks[c]
    requires StageFits(s', r)
    ensures StagesFit(s')
  {
    forall q: nat | q < |s'.requests| ensures StageFits(s', q) {
      assert StageFits(s, q);
    }
  }

  lemma RollBackKeepsInvariant(s: State, r: nat, why: Refusal)
    requires Invariant(s) && r < |s.requests| && !Ended(s.requests[r].stage)
    ensures Invariant(RolledBack(s, r, why))
  {
    var s' := RolledBack(s, r, why);
    OthersFit(s, s', r);
    QuietKeepsRest(s, s');
  }

  lemma LockKeepsInvariant(s: State, r: nat, code: nat, stage: Stage)
    requires Invariant(s) && r < |s.requests| && !Ended(s.requests[r].stage) && !HasDevice(s.requests[r].stage)
    requires code !in s.locks && Unused(s, code)
    requires (stage.Locked? && stage.user == s.codes[code].user) || (stage.Peeked? && s.requests[r].kind == Get(s.codes[code].user))
    requires stage.code == code
    ensures Invariant(AtStage(s.(locks := s.locks[code := r]), r, stage))
  {
    var s' := AtStage(s.(locks := s.locks[code := r]), r, stage);
    OthersFit(s, s', r);
    QuietKeepsRest(s, s');
  }

  /** A request that moves on without touching the tables or the locks. */
  lemma MoveKeepsInvariant(s: State, r: nat, stage: Stage)
    requires Invariant(s) && r < |s.requests| && !Ended(s.requests[r].stage)
    requires !Finished(stage) && (HasDevice(stage) ==> HasDevice(s.requests[r].stage) && stage.device == s.requests[r].stage.device)
    requires StageFits(AtStage(s, r, stage), r)
    ensures Invariant(AtStage(s, r, stage))
  {
    OthersFit(s, AtStage(s, r, stage), r);
    QuietKeepsRest(s, AtStage(s, r, stage));
  }

  lemma PeekEndKeepsInvariant(s: State, r: nat)
    requires Invariant(s) && r < |s.requests| && s.requests[r].stage.Peeked?
    ensures Invariant(AtStage(Released(s, r), r, Issued(s.requests[r].stage.code)))
  {
    assert StageFits(s, r);
    var s' := AtStage(Released(s, r), r, Issued(s.requests[r].stage.code));
    OthersFit(s, s', r);
    QuietKeepsRest(s, s');
  }

  lemma InsertKeepsInvariant(s: State, r: nat)
    requires Invariant(s) && r < |s.requests| && s.requests[r].stage.Locked?
    ensures var Locked(code, began, user) := s.requests[r].stage;
            Invariant(AtStage(s.(nextId := s.nextId + 1), r, Inserted(code, began, user, s.nextId)))
  {
    var Locked(code, began, user) := s.requests[r].stage;
    var s' := AtStage(s.(nextId := s.nextId + 1), r, Inserted(code, began, user, s.nextId));
    forall q: nat | q < |s'.requests| ensures StageFits(s', q) {
      assert StageFits(s, q);
    }
    forall d | d in s'.devices ensures Named(s', d) {
      assert Named(s, d);
    }
    forall q: nat | q < |s.requests| && HasDevice(s.requests[q].stage) ensures s.requests[q].stage.device < s.nextId {
      assert StageFits(s, q);
    }
    ClaimsStay(s, s');
  }

  lemma ClaimsStay(s: State, s': State)
    requires OneClaim(s) && |s.codes| <= |s'.codes| && |s.requests| == |s'.requests|
    requires forall c: nat | c < |s.codes| :: s'.codes[c] == s.codes[c]
    requires forall c: nat | |s.codes| <= c < |s'.codes| :: s'.codes[c].usedAt.None?
    requires forall r: nat | r < |s.requests| :: Finished(s.requests[r].stage) || Finished(s'.requests[r].stage) ==> s'.requests[r] == s.requests[r]
    ensures OneClaim(s')
  {
    assert forall c, r :: ClaimedBy(s', c, r) <==> ClaimedBy(s, c, r);
    forall c: nat | c < |s'.codes| && !Unused(s', c) ensures SomeClaim(s', c) {
      assert !Unused(s, c) && SomeClaim(s, c);
      var r :| ClaimedBy(s, c, r);
      assert ClaimedBy(s', c, r);
    }
  }

  lemma CreateKeepsTables(s: State, text: string, user: string)
    requires CodesFit(s) && DevicesNamed(s) && Find(s.codes, text) < 0
    ensures CodesFit(WithCode(s, text, user)) && DevicesNamed(WithCode(s, text, user))
  {
    var s' := WithCode(s, text, user);
    forall d | d in s'.devices ensures Named(s', d) {
      assert Named(s, d);
      var c :| 0 <= c < |s.codes| && s.codes[c].device == Some(d);
      assert s'.codes[c].device == Some(d);
    }
  }

  lemma CreateKeepsStages(s: State, r: nat, text: string, stage: Stage)
    requires StagesFit(s) && DevicesDiffer(s) && r < |s.requests| && s.requests[r].stage.Missing? && s.requests[r].kind.Get?
    requires stage.Refused? || stage == Issued(|s.codes|)
    ensures var s' := AtStage(WithCode(s, text, s.requests[r].kind.user), r, stage); StagesFit(s') && DevicesDiffer(s')
  {
    var s' := AtStage(WithCode(s, text, s.requests[r].kind.user), r, stage);
    forall q: nat | q < |s'.requests| ensures StageFits(s', q) {
      assert StageFits(s, q);
    }
  }

  lemma CreateKeepsInvariant(s: State, r: nat, text: string, stage: Stage)
    requires Invariant(s) && r < |s.requests| && s.requests[r].stage.Missing? && s.requests[r].kind.Get?
    requires Find(s.codes, text) < 0 && (stage.Refused? || stage == Issued(|s.codes|))
    ensures Invariant(AtStage(WithCode(s, text, s.requests[r].kind.user), r, stage))
  {
    var s' := AtStage(WithCode(s, text, s.requests[r].kind.user), r, stage);
    CreateKeepsTables(s, text, s.requests[r].kind.user);
    assert forall d :: Named(s', d) <==> Named(WithCode(s, text, s.requests[r].kind.user), d);
    CreateKeepsStages(s, r, text, stage);
    ClaimsStay(s, s');
  }

  /** The commit of a claim: its code becomes used, its device appears. */
  ghost predicate Commits(s: State, s': State, r: nat) {
    && r < |s.requests| && s.requests[r].stage.Marked? && s.requests[r].stage.code < |s.codes|
    && var Marked(code, began, user, device) := s.requests[r].stage;
    && s'.codes == s.codes[code := s.codes[code].(usedAt := Some(began), device := Some(device))]
    && s'.devices == s.devices[device := user] && s'.nextId == s.nextId
    && |s'.requests| == |s.requests|
    && (forall q: nat | q < |s.requests| && q != r :: s'.requests[q] == s.requests[q])
    && (s'.requests[r].stage == Claimed(code, user, device) || s'.requests[r].stage == Unanswered(code, user, device))
    && (forall c | c in s.locks && s.locks[c] != r :: c in s'.locks && s'.locks[c] == s.locks[c])
  }

  lemma CommitKeepsCodes(s: State, s': State, r: nat)
    requires CodesFit(s) && DevicesNamed(s) && StagesFit(s) && Commits(s, s', r)
    ensures CodesFit(s') && DevicesNamed(s')
  {
    var Marked(code, _, _, device) := s.requests[r].stage;
    assert StageFits(s, r);
    forall d | d in s'.devices ensures Named(s', d) {
      if d == device {
        assert s'.codes[code].device == Some(d);
      } else {
        assert Named(s, d);
        var c :| 0 <= c < |s.codes| && s.codes[c].device == Some(d);
        assert s'.codes[c].device == Some(d);
      }
    }
  }

  lemma CommitKeepsStages(s: State, s': State, r: nat)
    requires CodesFit(s) && StagesFit(s) && DevicesDiffer(s) && Commits(s, s', r)
    ensures StagesFit(s') && DevicesDiffer(s')
  {
    assert StageFits(s, r);
    forall q: nat | q < |s'.requests| ensures StageFits(s', q) {
      assert StageFits(s, q);
    }
  }

  lemma CommitKeepsClaims(s: State, s': State, r: nat)
    requires CodesFit(s) && StagesFit(s) && OneClaim(s) && Commits(s, s', r)
    ensures OneClaim(s')
  {
    var code := s.requests[r].stage.code;
    assert StageFits(s, r);
    forall c, q | ClaimedBy(s', c, q) ensures if q == r then c == code else ClaimedBy(s, c, q) && c != code {
      assert q != r ==> StageFits(s, q);
    }
    forall c: nat | c < |s'.codes| && !Unused(s', c) ensures SomeClaim(s', c) {
      if c == code {
        assert ClaimedBy(s', c, r);
      } else {
        assert !Unused(s, c) && SomeClaim(s, c);
        var q :| ClaimedBy(s, c, q);
        assert ClaimedBy(s', c, q);
      }
    }
  }

  lemma CommitKeepsInvariant(s: State, s': State, r: nat)
    requires Invariant(s) && Commits(s, s', r)
    ensures Invariant(s')
  {
    CommitKeepsCodes(s, s', r);
    CommitKeepsStages(s, s', r);
    CommitKeepsClaims(s, s', r);
  }

  lemma MarkedCommits(s: State, r: nat, call: Call)
    requires r < |s.requests| && s.requests[r].stage.Marked? && StageFits(s, r) && TakesEffect(call)
    ensures var Marked(code, began, user, device) := s.requests[r].stage;
            Commits(s, Committing(s, r, code, began, user, device, call), r)
  {
  }

  lemma LockingKeepsInvariant(s: State, r: nat, code: nat, began: int)
    requires Invariant(s) && r < |s.requests| && s.requests[r].stage == Begun(code, began)
    ensures Invariant(Locking(s, r, code, began))
  {
    if code !in s.locks {
      if Unused(s, code) {
        LockKeepsInvariant(s, r, code, Locked(code, began, s.codes[code].user));
      } else {
        RollBackKeepsInvariant(s, r, CodeAlreadyUsed);
      }
    }
  }

  lemma PickKeepsInvariant(s: State, r: nat, pick: Option<nat>)
    requires Invariant(s) && r < |s.requests| && s.requests[r].stage.Arrived? && s.requests[r].kind.Get?
    ensures Invariant(Picking(s, r, s.requests[r].kind.user, pick))
  {
    if MayPick(s, s.requests[r].kind.user, pick) {
      if pick.Some? {
        LockKeepsInvariant(s, r, pick.value, Peeked(pick.value));
      } else {
        MoveKeepsInvariant(s, r, Missing);
      }
    }
  }

  lemma StatementKeepsInvariant(s: State, r: nat, pick: Option<nat>)
    requires Invariant(s) && r < |s.requests| && !Ended(s.requests[r].stage)
    ensures Invariant(Statement(s, r, pick))
  {
    var Request(kind, stage) := s.requests[r];
    assert StageFits(s, r);
    match stage
    case Arrived =>
      if kind.Claim? {
        MoveKeepsInvariant(s, r, AfterLook(s, kind.text));
      } else {
        PickKeepsInvariant(s, r, pick);
      }
    case Looked(code) => MoveKeepsInvariant(s, r, Begun(code, s.now));
    case Begun(code, began) => LockingKeepsInvariant(s, r, code, began);
    case Locked(_, _, _) => InsertKeepsInvariant(s, r);
    case Inserted(code, began, user, device) => MoveKeepsInvariant(s, r, Marked(code, began, user, device));
    case Peeked(_) => PeekEndKeepsInvariant(s, r);
    case _ =>
  }

  lemma AdvanceKeepsInvariant(s: State, r: nat, env: Env)
    requires Invariant(s) && r < |s.requests|
    ensures Invariant(Advance(s, r, env))
  {
    var Request(kind, stage) := s.requests[r];
    assert StageFits(s, r);
    if Ended(stage) {
    } else if stage.Marked? {
      if TakesEffect(env.call) {
        MarkedCommits(s, r, env.call);
        CommitKeepsInvariant(s, Advance(s, r, env), r);
      } else {
        RollBackKeepsInvariant(s, r, StoreFailed);
      }
    } else if stage.Missing? {
      if kind.Claim? {
        assert Advance(s, r, env) == s || Advance(s, r, env) == RolledBack(s, r, StoreFailed);
        RollBackKeepsInvariant(s, r, StoreFailed);
      } else if !TakesEffect(env.call) || Find(s.codes, env.random) >= 0 {
        MoveKeepsInvariant(s, r, Refused(StoreFailed));
      } else {
        CreateKeepsInvariant(s, r, env.random, Advance(s, r, env).requests[r].stage);
      }
    } else if !env.call.Accepted? {
      RollBackKeepsInvariant(s, r, StoreFailed);
    } else {
      StatementKeepsInvariant(s, r, env.pick);
    }
  }

  lemma OutsideKeepsInvariant(s: State, step: Step)
    requires Invariant(s) && (step.Arrive? || step.Wait?)
    ensures Invariant(Apply(s, step))
  {
    var s' := Apply(s, step);
    QuietKeepsRest(s, s');
    forall r: nat | r < |s'.requests| ensures StageFits(s', r) {
      assert r < |s.requests| ==> StageFits(s, r);
    }
  }

  lemma StepKeepsInvariant(s: State, step: Step)
    requires Invariant(s)
    ensures Invariant(Apply(s, step))
  {
    if step.Arrive? || step.Wait? {
      OutsideKeepsInvariant(s, step);
    } else if step.request < |s.requests| {
      if step.Proceed? {
        AdvanceKeepsInvariant(s, step.request, step.env);
      } else if !Ended(s.requests[step.request].stage) {
        RollBackKeepsInvariant(s, step.request, Abandoned);
      }
    }
  }

  lemma {:induction false} RunKeepsInvariant(s: State, steps: seq<Step>)
    requires Invariant(s)
    ensures Invariant(Exec(s, steps))
    decreases |steps|
  {
    if steps != [] {
      StepKeepsInvariant(s, steps[0]);
      RunKeepsInvariant(Apply(s, steps[0]), steps[1..]);
    }
  }

  // ---- What never changes -----------------------------------------------------------------------

  /** Used codes, devices and finished requests stay as they are. */
  ghost predicate Extends(s: State, s': State) {
    && |s.codes| <= |s'.codes| && |s.requests| <= |s'.requests|
    && (forall c: nat | c < |s.codes| :: s'.codes[c].text == s.codes[c].text && s'.codes[c].user == s.codes[c].user)
    && (forall c: nat | c < |s.codes| && s.codes[c].usedAt.Some? :: s'.codes[c] == s.codes[c])
    && (forall d | d in s.devices :: d in s'.devices && s'.devices[d] == s.devices[d])
    && (forall r: nat | r < |s.requests| && Ended(s.requests[r].stage) :: s'.requests[r] == s.requests[r])
  }

  /** The step adds at most unused codes. */
  ghost predicate LeavesTables(s: State, s': State) {
    && s'.devices == s.devices && |s.codes| <= |s'.codes|
    && (forall c: nat | c < |s.codes| :: s'.codes[c] == s.codes[c])
    && (forall c: nat | |s.codes| <= c < |s'.codes| :: Unused(s', c))
  }

  lemma OnlyCommitsChange(s: State, step: Step)
    requires StagesFit(s)
    ensures var s' := Apply(s, step); LeavesTables(s, s') || (step.Proceed? && Commits(s, s', step.request))
  {
    if step.Proceed? && step.request < |s.requests| {
      assert StageFits(s, step.request);
      if s.requests[step.request].stage.Marked? && TakesEffect(step.env.call) {
        MarkedCommits(s, step.request, step.env.call);
      }
    }
  }

  /** Only request `r` may change its stage. */
  predicate Others(s: State, s': State, r: nat) {
    |s'.requests| == |s.requests| && forall q: nat | q < |s.requests| && q != r :: s'.requests[q] == s.requests[q]
  }

  lemma WritesChangeOwnRequest(s: State, r: nat, env: Env)
    requires r < |s.requests|
    ensures forall why :: Others(s, RolledBack(s, r, why), r)
    ensures forall user :: Others(s, Creating(s, r, user, env), r)
    ensures forall code, began, user, device :: Others(s, Committing(s, r, code, began, user, device, env.call), r)
  {
  }

  lemma PlainStatementChangesOwnRequest(s: State, r: nat, pick: Option<nat>)
    requires r < |s.requests|
    ensures Others(s, Statement(s, r, pick), r)
  {
    var Request(kind, stage) := s.requests[r];
    if stage.Arrived? && kind.Get? {
      assert Others(s, Picking(s, r, kind.user, pick), r);
    } else if stage.Begun? {
      assert Others(s, Locking(s, r, stage.code, stage.began), r);
    }
  }

  lemma StatementChangesOwnRequest(s: State, r: nat, env: Env)
    requires r < |s.requests|
    ensures Others(s, Advance(s, r, env), r) && (Ended(s.requests[r].stage) ==> Advance(s, r, env) == s)
  {
    WritesChangeOwnRequest(s, r, env);
    PlainStatementChangesOwnRequest(s, r, env.pick);
  }

  lemma EndedRequestsStay(s: State, step: Step)
    ensures var s' := Apply(s, step);
            && |s.requests| <= |s'.requests|
            && (forall r: nat | r < |s.requests| && Ended(s.requests[r].stage) :: s'.requests[r] == s.requests[r])
  {
    if step.Proceed? && step.request < |s.requests| {
      StatementChangesOwnRequest(s, step.request, step.env);
    }
  }

  lemma StepExtends(s: State, step: Step)
    requires Invariant(s)
    ensures Extends(s, Apply(s, step))
  {
    OnlyCommitsChange(s, step);
    EndedRequestsStay(s, step);
    if step.Proceed? && step.request < |s.requests| {
      assert StageFits(s, step.request);
    }
  }

  lemma {:induction false} RunExtends(s: State, steps: seq<Step>)
    requires Invariant(s)
    ensures Extends(s, Exec(s, steps))
    decreases |steps|
  {
    if steps != [] {
      StepKeepsInvariant(s, steps[0]);
      StepExtends(s, steps[0]);
      RunExtends(Apply(s, steps[0]), steps[1..]);
    }
  }

  lemma {:induction false} ExecSplits(s: State, one: seq<Step>, other: seq<Step>)
    ensures Exec(s, one + other) == Exec(Exec(s, one), other)
    decreases |one|
  {
    if one == [] {
      assert one + other == other;
    } else {
      assert (one + other)[0] == one[0] && (one + other)[1..] == one[1..] + other;
      ExecSplits(Apply(s, one[0]), one[1..], other);
    }
  }

  // ---- Code claims ------------------------------------------------------------------------------

  /**
   * Code claims: under any interleaving of claims and code requests, with any failures, used codes and devices
   * correspond one to one, a device belongs to the user of its code, and every used code was used by exactly
   * one claim, which named that device and user. A code given out belongs to the user who asked for it.
   */
  lemma CodeClaims(steps: seq<Step>)
    ensures var s := Exec(EMPTY, steps);
            && CodesFit(s) && (forall d | d in s.devices :: Named(s, d))
            && OneClaim(s)
            && forall c: nat, r: nat | c < |s.codes| && ClaimedBy(s, c, r) ::
                 s.codes[c].device == Some(s.requests[r].stage.device) && s.codes[c].user == s.requests[r].stage.user
    ensures var s := Exec(EMPTY, steps);
            forall r: nat | r < |s.requests| && s.requests[r].stage.Issued? ::
              && s.requests[r].kind.Get? && s.requests[r].stage.code < |s.codes|
              && s.codes[s.requests[r].stage.code].user == s.requests[r].kind.user
  {
    RunKeepsInvariant(EMPTY, steps);
    var s := Exec(EMPTY, steps);
    forall c: nat, r: nat | c < |s.codes| && ClaimedBy(s, c, r)
      ensures s.codes[c].device == Some(s.requests[r].stage.device) && s.codes[c].user == s.requests[r].stage.user
    {
      assert StageFits(s, r);
    }
    forall r: nat | r < |s.requests| && s.requests[r].stage.Issued?
      ensures s.requests[r].kind.Get? && s.requests[r].stage.code < |s.codes|
      ensures s.codes[s.requests[r].stage.code].user == s.requests[r].kind.user
    {
      assert StageFits(s, r);
    }
  }

  /** However a run continues, a used code, a claimed device and the answer to a request are final. */
  lemma ClaimsAreFinal(steps: seq<Step>, more: seq<Step>)
    ensures Extends(Exec(EMPTY, steps), Exec(EMPTY, steps + more))
  {
    RunKeepsInvariant(EMPTY, steps);
    ExecSplits(EMPTY, steps, more);
    RunExtends(Exec(EMPTY, steps), more);
  }

  /**
   * Only the commit of a claim uses a code or adds a device, and it does both at once: any other step, in
   * particular every rollback, leaves all codes as unused as they were and no device behind.
   */
  lemma RollbackLeavesNothing(steps: seq<Step>, step: Step)
    ensures var s := Exec(EMPTY, steps); var s' := Apply(s, step);
            LeavesTables(s, s') || (step.Proceed? && Commits(s, s', step.request))
  {
    RunKeepsInvariant(EMPTY, steps);
    OnlyCommitsChange(Exec(EMPTY, steps), step);
  }

  // ---- The store, working on the tables in place ------------------------------------------------

  ghost function Proceeds(envs: seq<Env>): seq<Step> {
    if envs == [] then [] else [Proceed(0, envs[0])] + Proceeds(envs[1..])
  }

  ghost function Started(codes: seq<Code>, devices: map<nat, string>, nextId: nat, kind: Kind, now: int): State {
    State(codes, devices, map[], nextId, [Request(kind, Arrived)], now)
  }

  /** A run in which one request arrives and takes its steps without interruption. */
  ghost function Alone(codes: seq<Code>, devices: map<nat, string>, nextId: nat, kind: Kind, now: int, envs: seq<Env>): State {
    Exec(State(codes, devices, map[], nextId, [], now), [Arrive(kind)] + Proceeds(envs))
  }

  lemma AloneStarts(codes: seq<Code>, devices: map<nat, string>, nextId: nat, kind: Kind, now: int, envs: seq<Env>)
    ensures Alone(codes, devices, nextId, kind, now, envs) == Exec(Started(codes, devices, nextId, kind, now), Proceeds(envs))
  {
    var steps := [Arrive(kind)] + Proceeds(envs);
    assert steps[0] == Arrive(kind) && steps[1..] == Proceeds(envs);
    var s := State(codes, devices, map[], nextId, [], now);
    assert s.requests + [Request(kind, Arrived)] == [Request(kind, Arrived)];
  }

  lemma {:induction false} EndedStays(s: State, envs: seq<Env>)
    requires |s.requests| > 0 && Ended(s.requests[0].stage)
    ensures Exec(s, Proceeds(envs)) == s
    decreases |envs|
  {
    if envs != [] {
      var steps := Proceeds(envs);
      assert steps[0] == Proceed(0, envs[0]) && steps[1..] == Proceeds(envs[1..]);
      EndedStays(s, envs[1..]);
    }
  }

  /** Taking the statement with result `envs[k]`; if it ends the request, the rest of the run changes nothing. */
  lemma Turn(s: State, envs: seq<Env>, k: nat)
    requires |s.requests| == 1 && k < |envs|
    ensures |Advance(s, 0, envs[k]).requests| == 1
    ensures Exec(s, Proceeds(envs[k..])) == Exec(Advance(s, 0, envs[k]), Proceeds(envs[k + 1..]))
    ensures Ended(Advance(s, 0, envs[k]).requests[0].stage) || k + 1 == |envs| ==> Exec(s, Proceeds(envs[k..])) == Advance(s, 0, envs[k])
  {
    StatementChangesOwnRequest(s, 0, envs[k]);
    var steps := Proceeds(envs[k..]);
    assert envs[k..][1..] == envs[k + 1..];
    assert steps[0] == Proceed(0, envs[k]) && steps[1..] == Proceeds(envs[k + 1..]);
    var s' := Advance(s, 0, envs[k]);
    if Ended(s'.requests[0].stage) {
      EndedStays(s', envs[k + 1..]);
    }
  }

  function Answer(stage: Stage): Result<(nat, string), Refusal> {
    match stage
    case Claimed(_, user, device) => Ok((device, user))
    case Refused(why) => Err(why)
    case _ => Err(StoreFailed)
  }

  /** A claim that is alone in the system, at `stage`. */
  ghost function Claiming(codes: seq<Code>, devices: map<nat, string>, locks: map<nat, nat>, nextId: nat, text: string, now: int, stage: Stage): State {
    State(codes, devices, locks, nextId, [Request(Claim(text), stage)], now)
  }

  ghost predicate EndsWith(s: State, envs: seq<Env>, k: nat, codes: seq<Code>, devices: map<nat, string>, nextId: nat, answer: Result<(nat, string), Refusal>)
    requires k <= |envs|
  {
    var s' := Exec(s, Proceeds(envs[k..]));
    s'.codes == codes && s'.devices == devices && s'.nextId == nextId && |s'.requests| == 1 && Answer(s'.requests[0].stage) == answer
  }

  lemma LooksUp(codes: seq<Code>, devices: map<nat, string>, nextId: nat, text: string, now: int, env: Env)
    requires env.call.Accepted? && Find(codes, text) >= 0 && codes[Find(codes, text)].usedAt.None?
    ensures Advance(Started(codes, devices, nextId, Claim(text), now), 0, env)
         == Claiming(codes, devices, map[], nextId, text, now, Looked(Find(codes, text)))
  {
  }

  lemma Locks(codes: seq<Code>, devices: map<nat, string>, nextId: nat, text: string, now: int, i: nat, env: Env)
    requires env.call.Accepted? && i < |codes| && codes[i].usedAt.None?
    ensures Advance(Claiming(codes, devices, map[], nextId, text, now, Begun(i, now)), 0, env)
         == Claiming(codes, devices, map[i := 0], nextId, text, now, Locked(i, now, codes[i].user))
  {
  }

  predicate Opens(codes: seq<Code>, text: string, envs: seq<Env>)
    requires |envs| == 6
  {
    var i := Find(codes, text);
    envs[0].call.Accepted? && envs[1].call.Accepted? && envs[2].call.Accepted? && i >= 0 && codes[i].usedAt.None?
  }

  /** A claim of an unused code gets its lock. */
  lemma ClaimOpens(codes: seq<Code>, devices: map<nat, string>, nextId: nat, text: string, now: int, envs: seq<Env>)
    requires |envs| == 6 && Opens(codes, text, envs)
    ensures var i := Find(codes, text);
            Exec(Started(codes, devices, nextId, Claim(text), now), Proceeds(envs))
            == Exec(Claiming(codes, devices, map[i := 0], nextId, text, now, Locked(i, now, codes[i].user)), Proceeds(envs[3..]))
  {
    var i := Find(codes, text);
    assert envs[0..] == envs;
    Turn(Started(codes, devices, nextId, Claim(text), now), envs, 0);
    LooksUp(codes, devices, nextId, text, now, envs[0]);
    var looked, begun := Claiming(codes, devices, map[], nextId, text, now, Looked(i)), Claiming(codes, devices, map[], nextId, text, now, Begun(i, now));
    Turn(looked, envs, 1);
    assert Advance(looked, 0, envs[1]) == begun;
    Turn(begun, envs, 2);
    Locks(codes, devices, nextId, text, now, i, envs[2]);
  }

  /** Any other claim fails without a trace. */
  lemma ClaimFails(codes: seq<Code>, devices: map<nat, string>, nextId: nat, text: string, now: int, envs: seq<Env>)
    requires |envs| == 6 && !Opens(codes, text, envs)
    ensures EndsWith(Started(codes, devices, nextId, Claim(text), now), envs, 0, codes, devices, nextId, Err(WhyNot(codes, text, envs)))
  {
    var s, i := Started(codes, devices, nextId, Claim(text), now), Find(codes, text);
    if envs[0].call.Accepted? && i >= 0 && codes[i].usedAt.None? {
      var looked := Claiming(codes, devices, map[], nextId, text, now, Looked(i));
      if envs[1].call.Accepted? {
        FailsAt(codes, devices, nextId, text, now, envs, 2, Begun(i, now));
        EndsLater(looked, envs, 1, Claiming(codes, devices, map[], nextId, text, now, Begun(i, now)), codes, devices, nextId, Err(StoreFailed));
      } else {
        FailsAt(codes, devices, nextId, text, now, envs, 1, Looked(i));
      }
      LooksUp(codes, devices, nextId, text, now, envs[0]);
      EndsLater(s, envs, 0, looked, codes, devices, nextId, Err(StoreFailed));
    } else {
      FailsAtLook(codes, devices, nextId, text, now, envs);
    }
  }

  function WhyNot(codes: seq<Code>, text: string, envs: seq<Env>): Refusal
    requires |envs| == 6
  {
    var i := Find(codes, text);
    if !envs[0].call.Accepted? then StoreFailed
    else if i < 0 then CodeNotFound
    else if codes[i].usedAt.Some? then CodeAlreadyUsed else StoreFailed
  }

  lemma FailsAtLook(codes: seq<Code>, devices: map<nat, string>, nextId: nat, text: string, now: int, envs: seq<Env>)
    requires |envs| == 6
    requires !envs[0].call.Accepted? || Find(codes, text) < 0 || codes[Find(codes, text)].usedAt.Some?
    ensures EndsWith(Started(codes, devices, nextId, Claim(text), now), envs, 0, codes, devices, nextId, Err(WhyNot(codes, text, envs)))
  {
    EndsHere(Started(codes, devices, nextId, Claim(text), now), envs, 0);
  }

  lemma FailsAt(codes: seq<Code>, devices: map<nat, string>, nextId: nat, text: string, now: int, envs: seq<Env>, k: nat, stage: Stage)
    requires k < |envs| && !envs[k].call.Accepted? && (stage.Looked? || stage.Begun?)
    ensures EndsWith(Claiming(codes, devices, map[], nextId, text, now, stage), envs, k, codes, devices, nextId, Err(StoreFailed))
  {
    EndsHere(Claiming(codes, devices, map[], nextId, text, now, stage), envs, k);
  }

  lemma EndsHere(s: State, envs: seq<Env>, k: nat)
    requires |s.requests| == 1 && k < |envs|
    requires |Advance(s, 0, envs[k]).requests| == 1 && Ended(Advance(s, 0, envs[k]).requests[0].stage)
    ensures var s' := Advance(s, 0, envs[k]); EndsWith(s, envs, k, s'.codes, s'.devices, s'.nextId, Answer(s'.requests[0].stage))
  {
    Turn(s, envs, k);
  }

  lemma EndsLater(s: State, envs: seq<Env>, k: nat, s': State,
                  codes: seq<Code>, devices: map<nat, string>, nextId: nat, answer: Result<(nat, string), Refusal>)
    requires |s.requests| == 1 && k < |envs| && Advance(s, 0, envs[k]) == s'
    requires EndsWith(s', envs, k + 1, codes, devices, nextId, answer)
    ensures EndsWith(s, envs, k, codes, devices, nextId, answer)
  {
    Turn(s, envs, k);
  }

  /** From the lock on a claim commits all of its writes or none. */
  lemma ClaimCloses(codes: seq<Code>, devices: map<nat, string>, nextId: nat, text: string, now: int, i: nat, envs: seq<Env>)
    requires |envs| == 6 && i < |codes|
    ensures var s, user := Claiming(codes, devices, map[i := 0], nextId, text, now, Locked(i, now, codes[i].user)), codes[i].user;
            if !envs[3].call.Accepted? then EndsWith(s, envs, 3, codes, devices, nextId, Err(StoreFailed))
            else if !envs[4].call.Accepted? || !TakesEffect(envs[5].call) then
              EndsWith(s, envs, 3, codes, devices, nextId + 1, Err(StoreFailed))
            else
              EndsWith(s, envs, 3, codes[i := codes[i].(usedAt := Some(now), device := Some(nextId))], devices[nextId := user], nextId + 1,
                       if envs[5].call.Accepted? then Ok((nextId, user)) else Err(StoreFailed))
  {
    var user := codes[i].user;
    var locked := Claiming(codes, devices, map[i := 0], nextId, text, now, Locked(i, now, user));
    Turn(locked, envs, 3);
    if envs[3].call.Accepted? {
      var inserted := Claiming(codes, devices, map[i := 0], nextId + 1, text, now, Inserted(i, now, user, nextId));
      assert Advance(locked, 0, envs[3]) == inserted;
      Turn(inserted, envs, 4);
      if envs[4].call.Accepted? {
        var marked := Claiming(codes, devices, map[i := 0], nextId + 1, text, now, Marked(i, now, user, nextId));
        assert Advance(inserted, 0, envs[4]) == marked;
        Turn(marked, envs, 5);
      }
    }
  }

  lemma GetAlone(codes: seq<Code>, devices: map<nat, string>, nextId: nat, user: string, now: int, look: Env, finish: Env)
    requires look.pick == FirstUnused(codes, user, 0)
    ensures var s := Alone(codes, devices, nextId, Get(user), now, [look, finish]);
            && s.devices == devices && s.nextId == nextId && |s.requests| == 1
            && var stage := s.requests[0].stage;
            if !look.call.Accepted? then s.codes == codes && stage == Refused(StoreFailed)
            else if look.pick.Some? then
              s.codes == codes && stage == if finish.call.Accepted? then Issued(look.pick.value) else Refused(StoreFailed)
            else if !TakesEffect(finish.call) || Find(codes, finish.random) >= 0 then s.codes == codes && stage == Refused(StoreFailed)
            else s.codes == codes + [Code(finish.random, user, None, None)]
                 && stage == if finish.call.Accepted? then Issued(|codes|) else Refused(StoreFailed)
  {
    var s, envs := Started(codes, devices, nextId, Get(user), now), [look, finish];
    AloneStarts(codes, devices, nextId, Get(user), now, envs);
    assert envs[0..] == envs;
    Turn(s, envs, 0);
    if look.call.Accepted? {
      var looked := match look.pick
        case Some(c) => State(codes, devices, map[c := 0], nextId, [Request(Get(user), Peeked(c))], now)
        case None => State(codes, devices, map[], nextId, [Request(Get(user), Missing)], now);
      assert MayPick(s, user, look.pick);
      assert Advance(s, 0, look) == looked;
      Turn(looked, envs, 1);
    }
  }

  class CodeStore {
    var codes: seq<Code>
    var devices: map<nat, string>
    var nextId: nat

    constructor ()
      ensures codes == [] && devices == map[] && nextId == 0
    {
      codes, devices, nextId := [], map[], 0;
    }

    ghost predicate Matches(s: State)
      reads this
    {
      codes == s.codes && devices == s.devices && nextId == s.nextId
    }

    /** `envs` holds the results of the look-up, begin, lock, insert, update and commit, in this order. */
    method ClaimCode(text: string, now: int, envs: seq<Env>) returns (r: Result<(nat, string), Refusal>)
      requires |envs| == 6
      modifies this
      ensures var s := Alone(old(codes), old(devices), old(nextId), Claim(text), now, envs);
              |s.requests| == 1 && Matches(s) && r == Answer(s.requests[0].stage)
    {
      AloneStarts(codes, devices, nextId, Claim(text), now, envs);
      assert envs[0..] == envs;
      if Opens(codes, text, envs) {
        ClaimOpens(codes, devices, nextId, text, now, envs);
      } else {
        ClaimFails(codes, devices, nextId, text, now, envs);
      }
      // The look-up, outside the transaction.
      if !envs[0].call.Accepted? {
        return Err(StoreFailed);
      }
      var i := Find(codes, text);
      if i < 0 {
        return Err(CodeNotFound);
      }
      if codes[i].usedAt.Some? {
        return Err(CodeAlreadyUsed);
      }
      if !envs[1].call.Accepted? || !envs[2].call.Accepted? {
        return Err(StoreFailed);
      }
      ClaimCloses(codes, devices, nextId, text, now, i, envs);
      var user := codes[i].user;
      if !envs[3].call.Accepted? {
        return Err(StoreFailed);
      }
      var device := nextId;
      nextId := nextId + 1;
      if !envs[4].call.Accepted? {
        return Err(StoreFailed);
      }
      if TakesEffect(envs[5].call) {
        codes := codes[i := codes[i].(usedAt := Some(now), device := Some(device))];
        devices := devices[device := user];
      }
      if !envs[5].call.Accepted? {
        return Err(StoreFailed);
      }
      return Ok((device, user));
    }

    /** `look` and `finish` are the results of the look-up and of the insert or commit that follows. */
    method GetOrCreateCode(user: string, now: int, look: Env, finish: Env) returns (r: Result<string, Refusal>)
      modifies this
      ensures var s := Alone(old(codes), old(devices), old(nextId), Get(user), now,
                             [look.(pick := FirstUnused(old(codes), user, 0)), finish]);
              && |s.requests| == 1 && Matches(s)
              && match s.requests[0].stage
                 case Issued(c) => c < |codes| && r == Ok(codes[c].text)
                 case Refused(why) => r == Err(why)
                 case _ => false
    {
      GetAlone(codes, devices, nextId, user, now, look.(pick := FirstUnused(codes, user, 0)), finish);
      if !look.call.Accepted? {
        return Err(StoreFailed);
      }
      var pick := FirstUnused(codes, user, 0);
      if pick.Some? {
        return if finish.call.Accepted? then Ok(codes[pick.value].text) else Err(StoreFailed);
      }
      if Find(codes, finish.random) >= 0 {
        return Err(StoreFailed);
      }
      if TakesEffect(finish.call) {
        codes := codes + [Code(finish.random, user, None, None)];
      }
      return if finish.call.Accepted? then Ok(finish.random) else Err(StoreFailed);
    }
  }

  /** The first unused code of the user from position `from` on. */
  function FirstUnused(codes: seq<Code>, user: string, from: nat): (pick: Option<nat>)
    requires from <= |codes|
    ensures pick.Some? ==> pick.value < |codes| && codes[pick.value].user == user && codes[pick.value].usedAt.None?
    ensures pick.None? ==> forall c | from <= c < |codes| :: codes[c].user != user || codes[c].usedAt.Some?
    decreases |codes| - from
  {
    if from == |codes| then None
    else if codes[from].user == user && codes[from].usedAt.None? then Some(from)
    else FirstUnused(codes, user, from + 1)
  }
}
