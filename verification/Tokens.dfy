/** Refresh tokens: issuing, rotating and revoking them, by any number of requests at statement granularity. */
module Tokens {
  import opened Wrappers
  import opened Calls

  const TTL: nat := 30 * 24 * 3600

  /** A row of refresh_tokens; a token's id is its position in the table. */
  datatype Token = Token(user: string, hash: nat, expiresAt: int, revokedAt: Option<int>)

  datatype Refusal = TokenNotFound | TokenRevoked | TokenExpired | StoreFailed | SigningFailed | Abandoned

  /** What the environment decides about one statement of a request: its outcome, a random hash, the signing. */
  datatype Env = Env(call: Call, random: nat, signed: bool)

  predicate HashFree(tokens: seq<Token>, hash: nat) {
    forall i | 0 <= i < |tokens| :: tokens[i].hash != hash
  }

  /** The position of the token with `hash`, or -1. */
  function Find(tokens: seq<Token>, hash: nat): (i: int)
    ensures -1 <= i < |tokens|
    ensures i >= 0 ==> tokens[i].hash == hash
    ensures i < 0 <==> HashFree(tokens, hash)
  {
    if tokens == [] then -1
    else if tokens[|tokens| - 1].hash == hash then |tokens| - 1
    else Find(tokens[..|tokens| - 1], hash)
  }

  // ---- The machine ------------------------------------------------------------------------------

  /**
   * How far a request has got. A checked request is about to revoke its token, a minting one has revoked it
   * and is about to create the next. A lost request failed after its token was revoked, and no token followed.
   */
  datatype Stage =
    | Presented
    | Found(id: nat, snapshot: Token)
    | Checked(id: nat, user: string)
    | Minting(id: nat, user: string)
    | Renewed(id: nat, child: nat)
    | Closed(id: nat)
    | Lost(id: nat)
    | Refused(why: Refusal)

  datatype Request = Request(logout: bool, hash: nat, stage: Stage)

  /** How a token came about: by a login, or by a rotation of `parent` that had checked it at `checkedAt`. */
  datatype Origin = FromLogin(at: int) | FromRotation(parent: nat, checkedAt: int, at: int)

  /**
   * Three fields are not stored but record history: the family of each token, which is the login token it descends
   * from, the origin of each token, and the time at which each request checked its token.
   */
  datatype State = State(tokens: seq<Token>, family: seq<nat>, requests: seq<Request>, now: int,
                         origins: seq<Origin>, checks: map<nat, int>)

  datatype Step =
    | Login(user: string, hash: nat, call: Call)
    | Arrive(logout: bool, hash: nat)
    | Proceed(request: nat, env: Env)
    | Abandon(request: nat)
    | Wait(time: nat)

  const EMPTY := State([], [], [], 0, [], map[])

  function Revoked(tokens: seq<Token>, id: nat, now: int): seq<Token>
    requires id < |tokens|
  {
    tokens[id := tokens[id].(revokedAt := Some(now))]
  }

  function AtStage(s: State, r: nat, stage: Stage): State
    requires r < |s.requests|
  {
    s.(requests := s.requests[r := s.requests[r].(stage := stage)])
  }

  function AfterFind(s: State, r: Request, env: Env): Stage {
    var i := Find(s.tokens, r.hash);
    if !env.call.Accepted? then Refused(StoreFailed)
    else if i < 0 then Refused(TokenNotFound)
    else if r.logout then Checked(i, s.tokens[i].user)
    else Found(i, s.tokens[i])
  }

  /** The request reads the clock for its check. */
  function Noted(s: State, r: nat): State {
    s.(checks := s.checks[r := s.now])
  }

  function AfterCheck(id: nat, snapshot: Token, now: int): Stage {
    if snapshot.revokedAt.Some? then Refused(TokenRevoked)
    else if now > snapshot.expiresAt then Refused(TokenExpired)
    else Checked(id, snapshot.user)
  }

  /** UPDATE ... SET revoked_at WHERE id = ... AND revoked_at IS NULL; no matching row is reported as not found. */
  function Revoking(s: State, r: nat, id: nat, user: string, env: Env): State
    requires r < |s.requests|
  {
    if id >= |s.tokens| || s.tokens[id].revokedAt.Some? then
      AtStage(s, r, Refused(if env.call.Accepted? then TokenNotFound else StoreFailed))
    else if !TakesEffect(env.call) then AtStage(s, r, Refused(StoreFailed))
    else
      AtStage(s.(tokens := Revoked(s.tokens, id, s.now)), r,
              if !env.call.Accepted? then Lost(id) else if s.requests[r].logout then Closed(id) else Minting(id, user))
  }

  function WithToken(s: State, user: string, hash: nat, family: nat, origin: Origin): State {
    s.(tokens := s.tokens + [Token(user, hash, s.now + TTL, None)], family := s.family + [family], origins := s.origins + [origin])
  }

  function OriginOf(s: State, r: nat, id: nat): Origin {
    FromRotation(id, if r in s.checks then s.checks[r] else s.now, s.now)
  }

  function Creating(s: State, r: nat, id: nat, user: string, env: Env): State
    requires r < |s.requests|
  {
    if !TakesEffect(env.call) || !HashFree(s.tokens, env.random) then AtStage(s, r, Lost(id))
    else
      AtStage(WithToken(s, user, env.random, if id < |s.family| then s.family[id] else 0, OriginOf(s, r, id)), r,
              if !env.call.Accepted? then Refused(StoreFailed)
              else if !env.signed then Refused(SigningFailed)
              else Renewed(id, |s.tokens|))
  }

  /** The next statement of a request. */
  function Advance(s: State, r: nat, env: Env): State
    requires r < |s.requests|
  {
    match s.requests[r].stage
    case Presented => AtStage(s, r, AfterFind(s, s.requests[r], env))
    case Found(id, snapshot) => AtStage(Noted(s, r), r, AfterCheck(id, snapshot, s.now))
    case Checked(id, user) => Revoking(s, r, id, user, env)
    case Minting(id, user) => Creating(s, r, id, user, env)
    case _ => s
  }

  /** A cancelled request or a crash. */
  function Abandoning(stage: Stage): Stage {
    match stage
    case Presented => Refused(Abandoned)
    case Found(_, _) => Refused(Abandoned)
    case Checked(_, _) => Refused(Abandoned)
    case Minting(id, _) => Lost(id)
    case _ => stage
  }

  function Apply(s: State, step: Step): State {
    match step
    case Login(user, hash, call) =>
      if TakesEffect(call) && HashFree(s.tokens, hash) then WithToken(s, user, hash, |s.tokens|, FromLogin(s.now)) else s
    case Arrive(logout, hash) => s.(requests := s.requests + [Request(logout, hash, Presented)])
    case Proceed(r, env) => if r < |s.requests| then Advance(s, r, env) else s
    case Abandon(r) => if r < |s.requests| then AtStage(s, r, Abandoning(s.requests[r].stage)) else s
    case Wait(time) => s.(now := s.now + time)
  }

  function Exec(s: State, steps: seq<Step>): State
    decreases |steps|
  {
    if steps == [] then s else Exec(Apply(s, steps[0]), steps[1..])
  }

  // ---- What every run keeps ---------------------------------------------------------------------

  ghost predicate TokensFit(tokens: seq<Token>, family: seq<nat>) {
    && |family| == |tokens|
    && (forall i, j | 0 <= i < j < |tokens| :: tokens[i].hash != tokens[j].hash)
    && (forall i | 0 <= i < |tokens| ::
          family[i] <= i && family[family[i]] == family[i] && tokens[i].user == tokens[family[i]].user)
  }

  predicate StageFits(tokens: seq<Token>, family: seq<nat>, stage: Stage)
    requires |family| == |tokens|
  {
    match stage
    case Presented => true
    case Found(id, snapshot) => id < |tokens| && snapshot.user == tokens[id].user
    case Checked(id, user) => id < |tokens| && user == tokens[id].user
    case Minting(id, user) => id < |tokens| && user == tokens[id].user && tokens[id].revokedAt.Some?
    case Renewed(id, child) => id < child < |tokens| && family[id] == family[child] && tokens[id].revokedAt.Some?
    case Closed(id) => id < |tokens| && tokens[id].revokedAt.Some?
    case Lost(id) => id < |tokens| && tokens[id].revokedAt.Some?
    case Refused(_) => true
  }

  ghost predicate StagesFit(s: State) {
    |s.family| == |s.tokens| && forall r | 0 <= r < |s.requests| :: StageFits(s.tokens, s.family, s.requests[r].stage)
  }

  /** The request's revoke statement was the one that revoked the token. */
  predicate Spends(stage: Stage, id: nat) {
    (stage.Minting? || stage.Renewed? || stage.Closed? || stage.Lost?) && stage.id == id
  }

  ghost predicate OneSpender(s: State) {
    forall a: nat, b: nat, id | a < |s.requests| && b < |s.requests| && Spends(s.requests[a].stage, id) && Spends(s.requests[b].stage, id) ::
      a == b
  }

  /** What stands for a family: its usable token, or the request that has taken it over. */
  datatype Carrier = OfToken(i: nat) | OfRequest(r: nat)

  predicate Holding(stage: Stage) {
    stage.Minting? || stage.Closed? || stage.Lost?
  }

  /** A family is carried by a token that is not revoked, by a rotation under way, or by the request that ended it. */
  predicate Carries(s: State, c: Carrier, f: nat) {
    match c
    case OfToken(i) => i < |s.tokens| && i < |s.family| && s.family[i] == f && s.tokens[i].revokedAt.None?
    case OfRequest(r) =>
      && r < |s.requests|
      && Holding(s.requests[r].stage)
      && s.requests[r].stage.id < |s.family| && s.family[s.requests[r].stage.id] == f
  }

  ghost predicate Carried(s: State, f: nat) {
    exists c :: Carries(s, c, f)
  }

  ghost predicate OneCarrier(s: State) {
    && (forall c, c', f | Carries(s, c, f) && Carries(s, c', f) :: c == c')
    && (forall i | 0 <= i < |s.family| :: Carried(s, s.family[i]))
  }

  ghost predicate Invariant(s: State) {
    TokensFit(s.tokens, s.family) && StagesFit(s) && OneSpender(s) && OneCarrier(s)
  }

  // ---- What one step does to the carriers -------------------------------------------------------

  /** The step hands the family of one carrier over to another and leaves all other families alone. */
  ghost predicate HandsOver(s: State, s': State, from: Carrier, to: Carrier) {
    && (forall c, f | Carries(s', c, f) :: if c == to then Carries(s, from, f) else c != from && Carries(s, c, f))
    && (forall c, f | Carries(s, c, f) :: Carries(s', if c == from then to else c, f))
    && (forall i | 0 <= i < |s'.family| :: (i < |s.family| && s.family[i] == s'.family[i]) || Carries(s, from, s'.family[i]))
  }

  lemma HandingOverKeepsOneCarrier(s: State, s': State, from: Carrier, to: Carrier)
    requires OneCarrier(s) && HandsOver(s, s', from, to)
    ensures OneCarrier(s')
  {
    forall i | 0 <= i < |s'.family| ensures Carried(s', s'.family[i]) {
      assert Carried(s, s'.family[i]);
      var c :| Carries(s, c, s'.family[i]);
      assert Carries(s', if c == from then to else c, s'.family[i]);
    }
    forall c, c', f | Carries(s', c, f) && Carries(s', c', f) ensures c == c' {
      assert Carries(s, if c == to then from else c, f) && Carries(s, if c' == to then from else c', f);
    }
  }

  /** The stage of one request moves, and it neither starts nor stops spending or holding. */
  lemma StageMoves(s: State, r: nat, stage: Stage)
    requires Invariant(s) && r < |s.requests| && StageFits(s.tokens, s.family, stage)
    requires forall id :: Spends(stage, id) <==> Spends(s.requests[r].stage, id)
    requires Holding(stage) <==> Holding(s.requests[r].stage)
    ensures Invariant(AtStage(s, r, stage))
  {
    var s' := AtStage(s, r, stage);
    assert Holding(stage) ==> Spends(stage, stage.id);
    assert Holding(s.requests[r].stage) ==> Spends(s.requests[r].stage, s.requests[r].stage.id);
    assert HandsOver(s, s', OfRequest(r), OfRequest(r));
    HandingOverKeepsOneCarrier(s, s', OfRequest(r), OfRequest(r));
  }

  lemma RevokeKeepsFit(s: State, r: nat, id: nat, now: int, stage: Stage)
    requires Invariant(s) && r < |s.requests| && id < |s.tokens| && s.tokens[id].revokedAt.None?
    requires Spends(stage, id) && Holding(stage) && (stage.Minting? ==> stage.user == s.tokens[id].user)
    ensures var s' := AtStage(s.(tokens := Revoked(s.tokens, id, now)), r, stage);
            TokensFit(s'.tokens, s'.family) && StagesFit(s') && OneSpender(s')
  {
    var s' := AtStage(s.(tokens := Revoked(s.tokens, id, now)), r, stage);
    forall q | 0 <= q < |s'.requests| ensures StageFits(s'.tokens, s'.family, s'.requests[q].stage) {
      assert q != r ==> StageFits(s.tokens, s.family, s.requests[q].stage);
    }
    forall q | 0 <= q < |s.requests| ensures !Spends(s.requests[q].stage, id) {
      assert StageFits(s.tokens, s.family, s.requests[q].stage);
    }
  }

  lemma RevokeHandsOver(s: State, r: nat, id: nat, now: int, stage: Stage)
    requires r < |s.requests| && id < |s.tokens| == |s.family| && s.tokens[id].revokedAt.None?
    requires !Holding(s.requests[r].stage)
    requires Spends(stage, id) && Holding(stage)
    ensures HandsOver(s, AtStage(s.(tokens := Revoked(s.tokens, id, now)), r, stage), OfToken(id), OfRequest(r))
  {
  }

  lemma RevokeKeepsInvariant(s: State, r: nat, id: nat, now: int, stage: Stage)
    requires Invariant(s) && r < |s.requests| && id < |s.tokens| && s.tokens[id].revokedAt.None?
    requires !Holding(s.requests[r].stage)
    requires Spends(stage, id) && Holding(stage) && (stage.Minting? ==> stage.user == s.tokens[id].user)
    ensures Invariant(AtStage(s.(tokens := Revoked(s.tokens, id, now)), r, stage))
  {
    var s' := AtStage(s.(tokens := Revoked(s.tokens, id, now)), r, stage);
    RevokeKeepsFit(s, r, id, now, stage);
    RevokeHandsOver(s, r, id, now, stage);
    HandingOverKeepsOneCarrier(s, s', OfToken(id), OfRequest(r));
  }

  lemma CreateKeepsFit(s: State, r: nat, hash: nat, origin: Origin, stage: Stage)
    requires Invariant(s) && r < |s.requests| && s.requests[r].stage.Minting? && HashFree(s.tokens, hash)
    requires StageFits(s.tokens, s.family, s.requests[r].stage)
    requires stage.Refused? || stage == Renewed(s.requests[r].stage.id, |s.tokens|)
    ensures var Minting(id, user) := s.requests[r].stage;
            var s' := AtStage(WithToken(s, user, hash, s.family[id], origin), r, stage);
            TokensFit(s'.tokens, s'.family) && StagesFit(s') && OneSpender(s')
  {
    var Minting(id, user) := s.requests[r].stage;
    var s' := AtStage(WithToken(s, user, hash, s.family[id], origin), r, stage);
    forall q | 0 <= q < |s'.requests| ensures StageFits(s'.tokens, s'.family, s'.requests[q].stage) {
      assert StageFits(s.tokens, s.family, s.requests[q].stage);
    }
    assert forall q: nat, i | q < |s'.requests| && Spends(s'.requests[q].stage, i) :: Spends(s.requests[q].stage, i);
  }

  lemma CreateHandsOver(s: State, r: nat, hash: nat, origin: Origin, stage: Stage)
    requires |s.family| == |s.tokens| && r < |s.requests|
    requires s.requests[r].stage.Minting? && s.requests[r].stage.id < |s.tokens|
    requires forall q | 0 <= q < |s.requests| && Holding(s.requests[q].stage) :: s.requests[q].stage.id < |s.tokens|
    requires !Holding(stage)
    ensures var Minting(id, user) := s.requests[r].stage;
            HandsOver(s, AtStage(WithToken(s, user, hash, s.family[id], origin), r, stage), OfRequest(r), OfToken(|s.tokens|))
  {
  }

  lemma CreateKeepsInvariant(s: State, r: nat, hash: nat, origin: Origin, stage: Stage)
    requires Invariant(s) && r < |s.requests| && s.requests[r].stage.Minting? && HashFree(s.tokens, hash)
    requires StageFits(s.tokens, s.family, s.requests[r].stage)
    requires stage.Refused? || stage == Renewed(s.requests[r].stage.id, |s.tokens|)
    ensures var Minting(id, user) := s.requests[r].stage;
            Invariant(AtStage(WithToken(s, user, hash, s.family[id], origin), r, stage))
  {
    var Minting(id, user) := s.requests[r].stage;
    var s' := AtStage(WithToken(s, user, hash, s.family[id], origin), r, stage);
    forall q | 0 <= q < |s.requests| && Holding(s.requests[q].stage) ensures s.requests[q].stage.id < |s.tokens| {
      assert StageFits(s.tokens, s.family, s.requests[q].stage);
    }
    CreateKeepsFit(s, r, hash, origin, stage);
    CreateHandsOver(s, r, hash, origin, stage);
    HandingOverKeepsOneCarrier(s, s', OfRequest(r), OfToken(|s.tokens|));
  }

  lemma LoginKeepsInvariant(s: State, step: Step)
    requires Invariant(s) && step.Login?
    ensures Invariant(Apply(s, step))
  {
    if !TakesEffect(step.call) || !HashFree(s.tokens, step.hash) {
      return;
    }
    var s', n := WithToken(s, step.user, step.hash, |s.tokens|, FromLogin(s.now)), |s.tokens|;
    forall q | 0 <= q < |s'.requests| ensures StageFits(s'.tokens, s'.family, s'.requests[q].stage) {
      assert StageFits(s.tokens, s.family, s.requests[q].stage);
    }
    forall c, f | Carries(s', c, f) ensures if f == n then c == OfToken(n) else Carries(s, c, f) {
      assert c.OfRequest? ==> StageFits(s.tokens, s.family, s.requests[c.r].stage);
    }
    forall i | 0 <= i < |s'.family| ensures Carried(s', s'.family[i]) {
      if i < n {
        assert Carried(s, s.family[i]);
        var c :| Carries(s, c, s.family[i]);
        assert Carries(s', c, s'.family[i]);
      } else {
        assert Carries(s', OfToken(n), n);
      }
    }
  }

  lemma OutsideKeepsInvariant(s: State, step: Step)
    requires Invariant(s) && (step.Arrive? || step.Wait?)
    ensures Invariant(Apply(s, step))
  {
    var s' := Apply(s, step);
    var none := OfRequest(|s.requests|);
    assert HandsOver(s, s', none, none);
    HandingOverKeepsOneCarrier(s, s', none, none);
  }

  lemma NotedKeepsInvariant(s: State, r: nat)
    requires Invariant(s)
    ensures Invariant(Noted(s, r))
  {
    var none := OfRequest(|s.requests|);
    assert HandsOver(s, Noted(s, r), none, none);
    HandingOverKeepsOneCarrier(s, Noted(s, r), none, none);
  }

  lemma AdvanceKeepsInvariant(s: State, r: nat, env: Env)
    requires Invariant(s) && r < |s.requests|
    ensures Invariant(Advance(s, r, env))
  {
    var s' := Advance(s, r, env);
    var stage := s.requests[r].stage;
    assert StageFits(s.tokens, s.family, stage);
    match stage
    case Presented => StageMoves(s, r, AfterFind(s, s.requests[r], env));
    case Found(id, snapshot) =>
      NotedKeepsInvariant(s, r);
      StageMoves(Noted(s, r), r, AfterCheck(id, snapshot, s.now));
    case Checked(id, user) =>
      if s.tokens[id].revokedAt.None? && TakesEffect(env.call) {
        RevokeKeepsInvariant(s, r, id, s.now, s'.requests[r].stage);
      } else {
        StageMoves(s, r, s'.requests[r].stage);
      }
    case Minting(id, user) =>
      if !TakesEffect(env.call) || !HashFree(s.tokens, env.random) {
        StageMoves(s, r, Lost(id));
      } else {
        CreateKeepsInvariant(s, r, env.random, OriginOf(s, r, id), s'.requests[r].stage);
      }
    case _ =>
  }

  lemma AbandonKeepsInvariant(s: State, r: nat)
    requires Invariant(s) && r < |s.requests|
    ensures Invariant(AtStage(s, r, Abandoning(s.requests[r].stage)))
  {
    assert StageFits(s.tokens, s.family, s.requests[r].stage);
    StageMoves(s, r, Abandoning(s.requests[r].stage));
  }

  lemma StepKeepsInvariant(s: State, step: Step)
    requires Invariant(s)
    ensures Invariant(Apply(s, step))
  {
    if step.Login? {
      LoginKeepsInvariant(s, step);
    } else if step.Arrive? || step.Wait? {
      OutsideKeepsInvariant(s, step);
    } else {
      RequestKeepsInvariant(s, step);
    }
  }

  lemma RequestKeepsInvariant(s: State, step: Step)
    requires Invariant(s) && (step.Proceed? || step.Abandon?)
    ensures Invariant(Apply(s, step))
  {
    var r := step.request;
    if r >= |s.requests| {
      assert Apply(s, step) == s;
    } else if step.Proceed? {
      AdvanceKeepsInvariant(s, r, step.env);
    } else {
      AbandonKeepsInvariant(s, r);
    }
  }

  lemma {:induction false} RunKeepsInvariant(s: State, steps: seq<Step>)
    requires Invariant(s)
    ensures Invariant(Exec(s, steps))
    decreases |steps|
  {
    if steps != [] {
      StepKeepsInvariant(s, steps[0]);
      RunKeepsInvariant(Apply(s, steps[0]), steps[1..]);
    }
  }

  // ---- What never changes -----------------------------------------------------------------------

  predicate SameButRevoked(t: Token, t': Token) {
    t' == t || (t.revokedAt.None? && t' == t.(revokedAt := t'.revokedAt))
  }

  /** Tokens and their families stay, and a revocation time once set stays. */
  ghost predicate Extends(s: State, s': State) {
    && |s.tokens| <= |s'.tokens| && |s.family| == |s.tokens| && |s'.family| == |s'.tokens|
    && (forall i | 0 <= i < |s.tokens| :: s'.family[i] == s.family[i] && SameButRevoked(s.tokens[i], s'.tokens[i]))
    && |s.requests| <= |s'.requests|
    && (forall r | 0 <= r < |s.requests| ::
          (s.requests[r].stage.Closed? || s.requests[r].stage.Lost? || s.requests[r].stage.Renewed?) ==> s'.requests[r] == s.requests[r])
  }

  lemma StepExtends(s: State, step: Step)
    requires |s.family| == |s.tokens|
    ensures Extends(s, Apply(s, step))
  {
  }

  lemma {:induction false} RunExtends(s: State, steps: seq<Step>)
    requires |s.family| == |s.tokens|
    ensures Extends(s, Exec(s, steps))
    decreases |steps|
  {
    if steps != [] {
      StepExtends(s, steps[0]);
      RunExtends(Apply(s, steps[0]), steps[1..]);
    }
  }

  lemma {:induction false} ExecSplits(s: State, one: seq<Step>, other: seq<Step>)
    ensures Exec(s, one + other) == Exec(Exec(s, one), other)
    decreases |one|
  {
    if one == [] {
      assert one + other == other;
    } else {
      assert (one + other)[0] == one[0] && (one + other)[1..] == one[1..] + other;
      ExecSplits(Apply(s, one[0]), one[1..], other);
    }
  }

  // ---- Token families ---------------------------------------------------------------------------

  /**
   * Token families: under any interleaving of logins, rotations and logouts, with any failures, a family has
   * exactly one of a usable token, a rotation between its revoke and its create, and a request that ended it;
   * its tokens belong to one user; and no token is spent by two requests.
   */
  lemma TokenFamilies(steps: seq<Step>)
    ensures var s := Exec(EMPTY, steps); TokensFit(s.tokens, s.family) && OneCarrier(s) && OneSpender(s)
  {
    RunKeepsInvariant(EMPTY, steps);
  }

  /** However a run continues, a revocation time is set at most once and a token keeps its user and family. */
  lemma RevokedOnce(steps: seq<Step>, more: seq<Step>)
    ensures Extends(Exec(EMPTY, steps), Exec(EMPTY, steps + more))
  {
    ExecSplits(EMPTY, steps, more);
    RunExtends(EMPTY, steps);
    RunExtends(Exec(EMPTY, steps), more);
  }

  /** Once a logout is confirmed or a rotation is lost, its family never again has a usable token. */
  lemma EndedFamilyStaysEnded(steps: seq<Step>, more: seq<Step>, r: nat)
    requires var s := Exec(EMPTY, steps);
             r < |s.requests| && (s.requests[r].stage.Closed? || s.requests[r].stage.Lost?)
    ensures var s, s' := Exec(EMPTY, steps), Exec(EMPTY, steps + more);
            && s.requests[r].stage.id < |s.family| && |s'.family| == |s'.tokens|
            && forall i | 0 <= i < |s'.tokens| && s'.family[i] == s.family[s.requests[r].stage.id] :: s'.tokens[i].revokedAt.Some?
  {
    var s, s' := Exec(EMPTY, steps), Exec(EMPTY, steps + more);
    RunKeepsInvariant(EMPTY, steps);
    RunKeepsInvariant(EMPTY, steps + more);
    RevokedOnce(steps, more);
    var stage := s.requests[r].stage;
    assert StageFits(s.tokens, s.family, stage);
    assert Carries(s', OfRequest(r), s.family[stage.id]);
    forall i: nat | i < |s'.tokens| && s'.family[i] == s.family[stage.id] ensures s'.tokens[i].revokedAt.Some? {
      assert !Carries(s', OfToken(i), s.family[stage.id]);
    }
  }

  /** Of any requests that present one token, at most one is answered with a new token, and that token is of its family. */
  lemma OneRotationWins(steps: seq<Step>, a: nat, b: nat)
    requires var s := Exec(EMPTY, steps);
             && a < |s.requests| && b < |s.requests|
             && s.requests[a].stage.Renewed? && s.requests[b].stage.Renewed?
             && s.requests[a].stage.id == s.requests[b].stage.id
    ensures a == b
    ensures var s := Exec(EMPTY, steps);
            var Renewed(id, child) := s.requests[a].stage;
            id < child < |s.tokens| && s.tokens[child].user == s.tokens[id].user && s.tokens[id].revokedAt.Some?
  {
    RunKeepsInvariant(EMPTY, steps);
    var s := Exec(EMPTY, steps);
    assert StageFits(s.tokens, s.family, s.requests[a].stage);
    assert Spends(s.requests[a].stage, s.requests[a].stage.id) && Spends(s.requests[b].stage, s.requests[a].stage.id);
  }

  // ---- Expiry -----------------------------------------------------------------------------------

  /** A token expires TTL after it was created, and the parent of a rotated one had not expired when it was checked. */
  predicate OriginFits(tokens: seq<Token>, i: nat, origin: Origin)
    requires i < |tokens|
  {
    match origin
    case FromLogin(at) => tokens[i].expiresAt == at + TTL
    case FromRotation(parent, checkedAt, at) =>
      && tokens[i].expiresAt == at + TTL
      && parent < i && checkedAt <= at && checkedAt <= tokens[parent].expiresAt
  }

  ghost predicate OriginsFit(s: State) {
    |s.origins| == |s.tokens| && forall i: nat | i < |s.tokens| :: OriginFits(s.tokens, i, s.origins[i])
  }

  predicate CheckFits(s: State, r: nat)
    requires r < |s.requests|
  {
    var Request(logout, _, stage) := s.requests[r];
    match stage
    case Found(id, snapshot) => id < |s.tokens| && snapshot.expiresAt == s.tokens[id].expiresAt
    case Checked(id, _) => !logout ==> id < |s.tokens| && r in s.checks && s.checks[r] <= s.now && s.checks[r] <= s.tokens[id].expiresAt
    case Minting(id, _) => id < |s.tokens| && r in s.checks && s.checks[r] <= s.now && s.checks[r] <= s.tokens[id].expiresAt
    case Renewed(id, child) => child < |s.origins| && s.origins[child].FromRotation? && s.origins[child].parent == id
    case _ => true
  }

  ghost predicate ExpiryFits(s: State) {
    OriginsFit(s) && forall r: nat | r < |s.requests| :: CheckFits(s, r)
  }

  /** Tokens keep their expiry and their origin, and requests other than `r` keep their stage and check. */
  ghost predicate KeepsOthers(s: State, s': State, r: nat) {
    && |s.tokens| <= |s'.tokens| && |s.origins| <= |s'.origins| && s.now <= s'.now && |s.requests| <= |s'.requests|
    && (forall i | 0 <= i < |s.tokens| :: s'.tokens[i].expiresAt == s.tokens[i].expiresAt)
    && (forall i | 0 <= i < |s.origins| :: s'.origins[i] == s.origins[i])
    && (forall q | q in s.checks && q != r :: q in s'.checks && s'.checks[q] == s.checks[q])
    && (forall q: nat | q < |s.requests| && q != r :: s'.requests[q] == s.requests[q])
    && (forall q: nat | |s.requests| <= q < |s'.requests| :: s'.requests[q].stage == Presented)
  }

  lemma AdvanceKeepsOthers(s: State, r: nat, env: Env)
    requires r < |s.requests|
    ensures KeepsOthers(s, Advance(s, r, env), r)
  {
  }

  lemma OutsideKeepsOthers(s: State, step: Step, r: nat)
    requires !step.Proceed? && !step.Abandon?
    ensures KeepsOthers(s, Apply(s, step), r) && (r < |s.requests| ==> Apply(s, step).requests[r] == s.requests[r])
    ensures Apply(s, step).checks == s.checks
  {
  }

  lemma KeptCheckFits(s: State, s': State, r: nat, q: nat)
    requires KeepsOthers(s, s', r) && q < |s'.requests| && q != r && (q < |s.requests| ==> CheckFits(s, q))
    ensures CheckFits(s', q)
  {
  }

  lemma LookExpiry(s: State, r: nat, env: Env)
    requires OriginsFit(s) && r < |s.requests|
    ensures var s' := AtStage(s, r, AfterFind(s, s.requests[r], env)); s.requests[r].logout == s'.requests[r].logout && OriginsFit(s') && CheckFits(s', r)
  {
  }

  lemma CheckExpiry(s: State, r: nat, id: nat, snapshot: Token)
    requires OriginsFit(s) && r < |s.requests| && s.requests[r].stage == Found(id, snapshot) && CheckFits(s, r)
    ensures var s' := AtStage(Noted(s, r), r, AfterCheck(id, snapshot, s.now)); OriginsFit(s') && CheckFits(s', r)
  {
  }

  lemma RevokedOrigins(s: State, id: nat, now: int)
    requires OriginsFit(s) && id < |s.tokens|
    ensures OriginsFit(s.(tokens := Revoked(s.tokens, id, now)))
  {
    var s' := s.(tokens := Revoked(s.tokens, id, now));
    forall i: nat | i < |s'.tokens| ensures OriginFits(s'.tokens, i, s'.origins[i]) {
      assert OriginFits(s.tokens, i, s.origins[i]);
    }
  }

  lemma RevokeExpiry(s: State, r: nat, id: nat, user: string, env: Env)
    requires OriginsFit(s) && r < |s.requests| && s.requests[r].stage == Checked(id, user) && CheckFits(s, r)
    ensures var s' := Revoking(s, r, id, user, env); OriginsFit(s') && r < |s'.requests| && CheckFits(s', r)
  {
    if id < |s.tokens| {
      RevokedOrigins(s, id, s.now);
    }
  }

  lemma OriginAdded(s: State, user: string, hash: nat, family: nat, origin: Origin)
    requires OriginsFit(s)
    requires OriginFits(WithToken(s, user, hash, family, origin).tokens, |s.tokens|, origin)
    ensures OriginsFit(WithToken(s, user, hash, family, origin))
  {
    var s' := WithToken(s, user, hash, family, origin);
    forall i: nat | i < |s'.tokens| ensures OriginFits(s'.tokens, i, s'.origins[i]) {
      if i < |s.tokens| {
        assert OriginFits(s.tokens, i, s.origins[i]);
      }
    }
  }

  lemma CreateExpiry(s: State, r: nat, id: nat, user: string, env: Env)
    requires OriginsFit(s) && r < |s.requests| && s.requests[r].stage == Minting(id, user) && CheckFits(s, r)
    ensures var s' := Creating(s, r, id, user, env); OriginsFit(s') && r < |s'.requests| && CheckFits(s', r)
  {
    OriginAdded(s, user, env.random, if id < |s.family| then s.family[id] else 0, OriginOf(s, r, id));
  }

  lemma OwnCheckFits(s: State, r: nat, env: Env)
    requires OriginsFit(s) && r < |s.requests| && CheckFits(s, r)
    ensures r < |Advance(s, r, env).requests| && CheckFits(Advance(s, r, env), r) && OriginsFit(Advance(s, r, env))
  {
    match s.requests[r].stage
    case Presented => LookExpiry(s, r, env);
    case Found(id, snapshot) => CheckExpiry(s, r, id, snapshot);
    case Checked(id, user) => RevokeExpiry(s, r, id, user, env);
    case Minting(id, user) => CreateExpiry(s, r, id, user, env);
    case _ => assert Advance(s, r, env) == s;
  }

  lemma AdvanceKeepsExpiry(s: State, r: nat, env: Env)
    requires ExpiryFits(s) && r < |s.requests|
    ensures ExpiryFits(Advance(s, r, env))
  {
    assert CheckFits(s, r);
    OwnCheckFits(s, r, env);
    AdvanceKeepsOthers(s, r, env);
    forall q: nat | q < |Advance(s, r, env).requests| ensures CheckFits(Advance(s, r, env), q) {
      if q != r {
        KeptCheckFits(s, Advance(s, r, env), r, q);
      }
    }
  }

  lemma AbandonKeepsExpiry(s: State, r: nat)
    requires ExpiryFits(s) && r < |s.requests|
    ensures ExpiryFits(AtStage(s, r, Abandoning(s.requests[r].stage)))
  {
    var s' := AtStage(s, r, Abandoning(s.requests[r].stage));
    assert CheckFits(s, r);
    forall q: nat | q < |s'.requests| ensures CheckFits(s', q) {
      assert CheckFits(s, q);
    }
  }

  lemma OutsideKeepsExpiry(s: State, step: Step)
    requires ExpiryFits(s) && !step.Proceed? && !step.Abandon?
    ensures ExpiryFits(Apply(s, step))
  {
    var s' := Apply(s, step);
    if step.Login? {
      OriginAdded(s, step.user, step.hash, |s.tokens|, FromLogin(s.now));
    }
    var none := |s'.requests|;
    OutsideKeepsOthers(s, step, none);
    forall q: nat | q < |s'.requests| ensures CheckFits(s', q) {
      KeptCheckFits(s, s', none, q);
    }
  }

  lemma StepKeepsExpiry(s: State, step: Step)
    requires ExpiryFits(s)
    ensures ExpiryFits(Apply(s, step))
  {
    if !step.Proceed? && !step.Abandon? {
      OutsideKeepsExpiry(s, step);
    } else if step.request >= |s.requests| {
      assert Apply(s, step) == s;
    } else if step.Proceed? {
      AdvanceKeepsExpiry(s, step.request, step.env);
    } else {
      AbandonKeepsExpiry(s, step.request);
    }
  }

  lemma {:induction false} RunKeepsExpiry(s: State, steps: seq<Step>)
    requires ExpiryFits(s)
    ensures ExpiryFits(Exec(s, steps))
    decreases |steps|
  {
    if steps != [] {
      StepKeepsExpiry(s, steps[0]);
      RunKeepsExpiry(Apply(s, steps[0]), steps[1..]);
    }
  }

  /**
   * Expiry: in every run each token expires TTL after its own creation, and a token that a rotation created has a
   * parent that was checked no later than that parent's expiry. A renewed request's new token is such a child.
   */
  lemma RotatedBeforeExpiry(steps: seq<Step>)
    ensures var s := Exec(EMPTY, steps); OriginsFit(s) && forall r: nat | r < |s.requests| && s.requests[r].stage.Renewed? :: ChildFits(s, r)
  {
    RunKeepsExpiry(EMPTY, steps);
    RunKeepsInvariant(EMPTY, steps);
    var s := Exec(EMPTY, steps);
    forall r: nat | r < |s.requests| && s.requests[r].stage.Renewed? ensures ChildFits(s, r) {
      RenewedChild(s, r);
    }
  }

  ghost predicate ChildFits(s: State, r: nat)
    requires r < |s.requests| && s.requests[r].stage.Renewed? && |s.origins| == |s.tokens|
  {
    var Renewed(id, child) := s.requests[r].stage;
    && id < child < |s.tokens| && s.origins[child].FromRotation? && s.origins[child].parent == id
    && s.origins[child].checkedAt <= s.tokens[id].expiresAt
  }

  lemma RenewedChild(s: State, r: nat)
    requires StagesFit(s) && ExpiryFits(s) && r < |s.requests| && s.requests[r].stage.Renewed?
    ensures ChildFits(s, r)
  {
    assert CheckFits(s, r) && StageFits(s.tokens, s.family, s.requests[r].stage);
  }

  // ---- The service, working on the table in place -----------------------------------------------

  /** A run in which one request arrives and takes its steps without interruption. */
  ghost function Alone(tokens: seq<Token>, logout: bool, hash: nat, now: int, envs: seq<Env>): State {
    Exec(State(tokens, seq(|tokens|, _ => 0), [], now, seq(|tokens|, _ => FromLogin(now)), map[]), [Arrive(logout, hash)] + Proceeds(envs))
  }

  ghost function Proceeds(envs: seq<Env>): seq<Step> {
    if envs == [] then [] else [Proceed(0, envs[0])] + Proceeds(envs[1..])
  }

  ghost function Started(tokens: seq<Token>, logout: bool, hash: nat, now: int): State {
    State(tokens, seq(|tokens|, _ => 0), [Request(logout, hash, Presented)], now, seq(|tokens|, _ => FromLogin(now)), map[])
  }

  lemma AloneStarts(tokens: seq<Token>, logout: bool, hash: nat, now: int, envs: seq<Env>)
    ensures Alone(tokens, logout, hash, now, envs) == Exec(Started(tokens, logout, hash, now), Proceeds(envs))
  {
    var steps := [Arrive(logout, hash)] + Proceeds(envs);
    assert steps[0] == Arrive(logout, hash) && steps[1..] == Proceeds(envs);
    var s := State(tokens, seq(|tokens|, _ => 0), [], now, seq(|tokens|, _ => FromLogin(now)), map[]);
    assert Apply(s, steps[0]) == Started(tokens, logout, hash, now) by {
      assert s.requests + [Request(logout, hash, Presented)] == [Request(logout, hash, Presented)];
    }
  }

  lemma Takes(s: State, env: Env, envs: seq<Env>)
    requires |s.requests| > 0
    ensures Exec(s, Proceeds([env] + envs)) == Exec(Advance(s, 0, env), Proceeds(envs))
  {
    assert ([env] + envs)[1..] == envs;
    var steps := Proceeds([env] + envs);
    assert steps[0] == Proceed(0, env) && steps[1..] == Proceeds(envs);
  }

  lemma RotationAlone(tokens: seq<Token>, hash: nat, now: int, find: Env, revoke: Env, create: Env)
    ensures Alone(tokens, false, hash, now, [find, find, revoke, create])
         == Advance(Advance(Advance(Advance(Started(tokens, false, hash, now), 0, find), 0, find), 0, revoke), 0, create)
  {
    var s1 := Started(tokens, false, hash, now);
    var s2 := Advance(s1, 0, find);
    var s3 := Advance(s2, 0, find);
    var s4 := Advance(s3, 0, revoke);
    AloneStarts(tokens, false, hash, now, [find, find, revoke, create]);
    assert [find, find, revoke, create] == [find] + [find, revoke, create];
    Takes(s1, find, [find, revoke, create]);
    assert [find, revoke, create] == [find] + [revoke, create];
    Takes(s2, find, [revoke, create]);
    assert [revoke, create] == [revoke] + [create];
    Takes(s3, revoke, [create]);
    assert [create] == [create] + [];
    Takes(s4, create, []);
  }

  lemma LogoutAlone(tokens: seq<Token>, hash: nat, now: int, find: Env, revoke: Env)
    ensures Alone(tokens, true, hash, now, [find, revoke])
         == Advance(Advance(Started(tokens, true, hash, now), 0, find), 0, revoke)
  {
    var s := Started(tokens, true, hash, now);
    AloneStarts(tokens, true, hash, now, [find, revoke]);
    assert [find, revoke] == [find] + [revoke];
    Takes(s, find, [revoke]);
    assert [revoke] == [revoke] + [];
    Takes(Advance(s, 0, find), revoke, []);
  }

  /** How a stage is answered. */
  function Answer(stage: Stage): Result<nat, Refusal> {
    match stage
    case Renewed(_, child) => Ok(child)
    case Closed(id) => Ok(id)
    case Refused(why) => Err(why)
    case _ => Err(StoreFailed)
  }

  class TokenService {
    var tokens: seq<Token>

    constructor ()
      ensures tokens == []
    {
      tokens := [];
    }

    method Create(user: string, hash: nat, expiresAt: int, call: Call) returns (r: Result<nat, Refusal>)
      modifies this
      ensures tokens == if TakesEffect(call) && HashFree(old(tokens), hash) then old(tokens) + [Token(user, hash, expiresAt, None)]
                        else old(tokens)
      ensures r == if call.Accepted? && HashFree(old(tokens), hash) then Ok(|old(tokens)|) else Err(StoreFailed)
    {
      var free := Find(tokens, hash) < 0;
      var created := |tokens|;
      if TakesEffect(call) && free {
        tokens := tokens + [Token(user, hash, expiresAt, None)];
      }
      return if call.Accepted? && free then Ok(created) else Err(StoreFailed);
    }

    method FindByHash(hash: nat, call: Call) returns (r: Result<(nat, Token), Refusal>)
      ensures !call.Accepted? ==> r == Err(StoreFailed)
      ensures call.Accepted? && HashFree(tokens, hash) ==> r == Err(TokenNotFound)
      ensures call.Accepted? && !HashFree(tokens, hash) ==> r == Ok((Find(tokens, hash), tokens[Find(tokens, hash)]))
    {
      if !call.Accepted? {
        return Err(StoreFailed);
      }
      var i := Find(tokens, hash);
      return if i < 0 then Err(TokenNotFound) else Ok((i, tokens[i]));
    }

    method Revoke(id: nat, now: int, call: Call) returns (r: Result<(), Refusal>)
      modifies this
      ensures var usable := id < |old(tokens)| && old(tokens)[id].revokedAt.None?;
              && tokens == (if usable && TakesEffect(call) then Revoked(old(tokens), id, now) else old(tokens))
              && r == if !call.Accepted? then Err(StoreFailed) else if usable then Ok(()) else Err(TokenNotFound)
    {
      var n := 0;
      if id < |tokens| && tokens[id].revokedAt.None? && TakesEffect(call) {
        tokens := tokens[id := tokens[id].(revokedAt := Some(now))];
        n := 1;
      }
      if !call.Accepted? {
        return Err(StoreFailed);
      }
      return if n == 0 then Err(TokenNotFound) else Ok(());
    }

    method IssueRefreshToken(user: string, random: nat, now: int, call: Call) returns (r: Result<nat, Refusal>)
      modifies this
      ensures forall s: State | s.tokens == old(tokens) && s.now == now :: tokens == Apply(s, Login(user, random, call)).tokens
      ensures r.Ok? ==> tokens == old(tokens) + [Token(user, random, now + TTL, None)]
      ensures r == if call.Accepted? && HashFree(old(tokens), random) then Ok(|old(tokens)|) else Err(StoreFailed)
    {
      r := Create(user, random, now + TTL, call);
    }

    method RotateRefreshToken(hash: nat, now: int, find: Env, revoke: Env, create: Env) returns (r: Result<nat, Refusal>)
      modifies this
      ensures var s := Alone(old(tokens), false, hash, now, [find, find, revoke, create]);
              |s.requests| == 1 && tokens == s.tokens && r == Answer(s.requests[0].stage)
      ensures r.Ok? ==>
                && !HashFree(old(tokens), hash)
                && var i := Find(old(tokens), hash);
                && old(tokens)[i].revokedAt.None? && now <= old(tokens)[i].expiresAt
                && r.value == |old(tokens)|
                && tokens == Revoked(old(tokens), i, now) + [Token(old(tokens)[i].user, create.random, now + TTL, None)]
      ensures find.call.Accepted? && HashFree(old(tokens), hash) ==> r == Err(TokenNotFound) && tokens == old(tokens)
      ensures find.call.Accepted? && !HashFree(old(tokens), hash) ==>
                var t := old(tokens)[Find(old(tokens), hash)];
                && (t.revokedAt.Some? ==> r == Err(TokenRevoked) && tokens == old(tokens))
                && (t.revokedAt.None? && now > t.expiresAt ==> r == Err(TokenExpired) && tokens == old(tokens))
                && ((t.revokedAt.None? && now <= t.expiresAt && revoke.call.Accepted? && create.call.Accepted? && create.signed
                     && HashFree(old(tokens), create.random)) ==> r.Ok?)
    {
      RotationAlone(tokens, hash, now, find, revoke, create);
      var found := FindByHash(hash, find.call);
      if found.Err? {
        return Err(found.error);
      }
      var (id, token) := found.value;
      if token.revokedAt.Some? {
        return Err(TokenRevoked);
      }
      if now > token.expiresAt {
        return Err(TokenExpired);
      }
      var revoked := Revoke(id, now, revoke.call);
      if revoked.Err? {
        return Err(revoked.error);
      }
      var created := Create(token.user, create.random, now + TTL, create.call);
      if created.Err? {
        return Err(created.error);
      }
      if !create.signed {
        return Err(SigningFailed);
      }
      return created;
    }

    method RevokeRefreshToken(hash: nat, now: int, find: Env, revoke: Env) returns (r: Result<(), Refusal>)
      modifies this
      ensures var s := Alone(old(tokens), true, hash, now, [find, revoke]);
              && |s.requests| == 1 && tokens == s.tokens
              && r == match Answer(s.requests[0].stage)
                      case Ok(_) => Ok(())
                      case Err(why) => Err(why)
      ensures r.Ok? ==>
                && !HashFree(old(tokens), hash)
                && var i := Find(old(tokens), hash);
                   old(tokens)[i].revokedAt.None? && tokens == Revoked(old(tokens), i, now)
    {
      LogoutAlone(tokens, hash, now, find, revoke);
      var found := FindByHash(hash, find.call);
      if found.Err? {
        return Err(found.error);
      }
      r := Revoke(found.value.0, now, revoke.call);
    }
  }
}
