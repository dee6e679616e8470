/**
 The protocol over those tables: which statements run alone, which run together
 in one transaction, and what every run keeps.
 */
module LeaseProtocol {
  import opened Common
  import opened LeaseTables

  /** Removing an agent also reads the step attempts bound to it: whether one is live, and of which deployments. */
  datatype Action =
    | Plain(q: Statement)
    | Revoke(agent: nat, now: int)
    | Remove(agent: nat, now: int, live: bool, attempted: set<nat>)
    | Repair(agent: nat)
    | Recover(now: int, local: set<nat>)

  /** Statements that run in a transaction of their own, and what their callers see to. */
  predicate Allowed(t: Tables, q: Statement) {
    match q
    case Claim(_, token, _, _, _) => token !in t.issued
    case Finish(_, _, result, _) => result in RESULTS
    case SetStatus(_, status) => status != Revoked
    case DeleteAgentRow(agent) => forall r :: r in t.rows ==> r.agent != agent
    case RevokeRuns(_, _) => false
    case RevokeStarted(_, _, _) => false
    case RevokeUnstarted(_, _, _) => false
    case DeleteRuns(_) => false
    case DeleteClaims(_) => false
    case PreserveCleanup(_, _) => false
    case ResetForPairing(_) => false
    case _ => true
  }

  predicate Enabled(t: Tables, a: Action) {
    a.Plain? ==> Allowed(t, a.q)
  }

  // ----- revoking an agent -----

  /** A claim that revoking its agent has to settle. */
  predicate Revocable(t: Tables, agent: nat, dep: nat) {
    var r := WholeClaim(dep, agent);
    r in t.rows && t.rows[r].state in {Waiting, Claimed, RunState.Started, CancelRequested}
  }

  function RevocableClaims(t: Tables, agent: nat): set<nat> {
    set r | r in t.rows && r.WholeClaim? && r.agent == agent && Revocable(t, agent, r.deployment) :: r.deployment
  }

  function RevokeStatement(t: Tables, agent: nat, now: int, dep: nat): Statement
    requires WholeClaim(dep, agent) in t.rows
  {
    if t.rows[WholeClaim(dep, agent)].started.Some? then RevokeStarted(dep, agent, now)
    else RevokeUnstarted(dep, agent, now)
  }

  /** The statement for this claim, and the one for its deployment, each find their row. */
  predicate Settles(t: Tables, agent: nat, now: int, dep: nat) {
    && WholeClaim(dep, agent) in t.rows
    && Updated(t, RevokeStatement(t, agent, now, dep), WholeClaim(dep, agent)) != t.rows[WholeClaim(dep, agent)]
    && t.AssignedIn(dep, agent, TERMINABLE)
  }

  /** The claims of these deployments settled, all at once. */
  function Settled(t: Tables, agent: nat, now: int, deps: set<nat>): Tables {
    t.(rows := map r | r in t.rows ::
         if r.WholeClaim? && r.agent == agent && r.deployment in deps
         then Updated(t, RevokeStatement(t, agent, now, r.deployment), r) else t.rows[r],
       deployments := map dep | dep in t.deployments ::
         if dep in deps then Written(t, Terminate(dep, agent), dep) else t.deployments[dep])
  }

  /** The tables once the agent may not work and its step runs are settled. */
  function Barred(t: Tables, agent: nat, now: int): Tables {
    Apply(Apply(t, SetStatus(agent, Revoked)), RevokeRuns(agent, now))
  }

  /** Revoking in one transaction; None when it is rolled back. */
  function RevokeAgent(t: Tables, agent: nat, now: int): Option<Tables> {
    if agent !in t.agents then None
    else if t.agents[agent].status == Revoked then Some(t)
    else
      var u := Barred(t, agent, now);
      var deps := RevocableClaims(u, agent);
      if forall dep :: dep in deps ==> Settles(u, agent, now, dep)
      then Some(Apply(Settled(u, agent, now, deps), FailTerminal)) else None
  }

  // ----- deleting an agent -----

  /** Work of the agent that nobody has accounted for. */
  predicate DeletionBlocked(t: Tables, agent: nat) {
    exists r :: r in t.rows && r.agent == agent && Blocks(t.rows[r])
  }

  predicate Blocks(w: Row) {
    Holding(w) || w.state in {Lost, CancelUnconfirmed} || Unacknowledged(w) || w.logs
  }

  predicate StillReferenced(t: Tables, agent: nat, attempted: set<nat>) {
    exists dep :: dep in t.deployments && Unsettled(t, dep)
      && (|| t.deployments[dep].assignee == Some(agent)
          || dep in attempted
          || exists r :: r in t.rows && r.deployment == dep && r.agent == agent)
  }

  predicate Unsettled(t: Tables, dep: nat)
    requires dep in t.deployments
  {
    var d := t.deployments[dep];
    || d.status !in {Done, Broken, Stopped, Rejected, TimedOut, Unclean}
    || (d.status == Unclean
        && (|| d.container.Some?
            || (d.confirmed.None? && !(exists r :: r in t.rows && r.deployment == dep && t.rows[r].confirmed.Some?))
            || exists r :: r in t.rows && r.deployment == dep && Unacknowledged(t.rows[r])))
  }

  /** The deletions themselves, once nothing stands in their way. */
  function Purged(t: Tables, agent: nat, now: int): Tables {
    var t1 := Apply(t, PreserveCleanup(agent, now));
    var t2 := Apply(t1, DeleteRuns(agent));
    var t3 := Apply(t2, DeleteClaims(agent));
    var t4 := Apply(t3, Detach(agent));
    Apply(t4, DeleteAgentRow(agent))
  }

  function RemoveAgent(t: Tables, agent: nat, now: int, live: bool, attempted: set<nat>): Option<Tables> {
    if agent !in t.agents || live || DeletionBlocked(t, agent) then None
    else
      match RevokeAgent(t, agent, now)
      case None => None
      case Some(u) =>
        if StillReferenced(u, agent, attempted) then None else Some(Purged(u, agent, now))
  }

  // ----- pairing a revoked agent again, and recovery at startup -----

  function RepairAgent(t: Tables, agent: nat): Option<Tables> {
    if agent !in t.agents || t.agents[agent].status != Revoked || t.agents[agent].pairing == Unpaired then None
    else
      var u := Apply(t, SetPairing(agent, Committing));
      if Resettable(u, agent) then Some(Apply(u, ResetForPairing(agent))) else None
  }

  function Recovered(t: Tables, now: int, local: set<nat>): Tables {
    Apply(Apply(Apply(t, CancelOrphaned(now)), MarkUnreconciled(local)), FailOrphaned)
  }

  function Next(t: Tables, a: Action): Tables {
    match a
    case Plain(q) => Apply(t, q)
    case Revoke(agent, now) => RevokeAgent(t, agent, now).GetOr(t)
    case Remove(agent, now, live, attempted) => RemoveAgent(t, agent, now, live, attempted).GetOr(t)
    case Repair(agent) => RepairAgent(t, agent).GetOr(t)
    case Recover(now, local) => Recovered(t, now, local)
  }

  // ----- runs -----

  const EMPTY := Tables(map[], map[], map[], {})

  /** The states of a run from empty tables, and what happened between them. */
  ghost predicate IsRun(run: seq<Tables>, acts: seq<Action>) {
    && |run| == |acts| + 1 && run[0] == EMPTY
    && forall k :: 0 <= k < |acts| ==> Enabled(run[k], acts[k]) && run[k + 1] == Next(run[k], acts[k])
  }

  // ----- what every run keeps -----

  predicate RowOK(r: Ref, w: Row) {
    && (w.state in {Waiting, Claimed} ==> w.started.None?)
    && (w.state == Waiting ==> w.token.None?)
    && (w.state == Claimed ==> w.token.Some?)
    && (w.confirmed.Some? ==> w.state == CleanupUnconfirmed)
    && (r.WholeClaim? && w.state in {RunState.Started, CancelRequested, Lost, CancelUnconfirmed} ==> w.started.Some?)
  }

  ghost predicate RowsOK(t: Tables) {
    forall r :: r in t.rows ==> RowOK(r, t.rows[r])
  }

  ghost predicate TokensOK(t: Tables) {
    && (forall r :: r in t.rows && t.rows[r].token.Some? ==> t.rows[r].token.value in t.issued)
    && (forall r, s :: r in t.rows && s in t.rows && t.rows[r].token.Some? && t.rows[r].token == t.rows[s].token ==> r == s)
  }

  /** The primary key of the claims table. */
  ghost predicate OneClaim(t: Tables) {
    forall r, s :: r in t.rows && s in t.rows && r.WholeClaim? && s.WholeClaim? && r.deployment == s.deployment ==> r == s
  }

  /** An agent holds at most one whole deployment. */
  ghost predicate OneHeld(t: Tables) {
    forall r, s ::
      (r in t.rows && s in t.rows && r.WholeClaim? && s.WholeClaim? && r.agent == s.agent
       && Holding(t.rows[r]) && Holding(t.rows[s])) ==> r == s
  }

  ghost predicate Idle(t: Tables, agent: nat) {
    forall r :: r in t.rows && r.agent == agent ==> !Holding(t.rows[r])
  }

  ghost predicate RevokedIdle(t: Tables) {
    forall agent :: agent in t.agents && t.agents[agent].status == Revoked ==> Idle(t, agent)
  }

  ghost predicate Shaped(t: Tables) {
    RowsOK(t) && TokensOK(t) && OneClaim(t) && OneHeld(t)
  }

  ghost predicate Inv(t: Tables) {
    Shaped(t) && RevokedIdle(t)
  }

  // ----- one statement, one row -----

  function Rank(s: RunState): nat {
    match s
    case Waiting => 0
    case Claimed => 0
    case Started => 1
    case CancelRequested => 2
    case Lost => 3
    case CancelUnconfirmed => 3
    case _ => 4
  }

  predicate Terminal(s: RunState) {
    Rank(s) == 4
  }

  /** Only waiting and claimed can alternate; everything else goes up or stays. */
  predicate Advances(s: RunState, u: RunState) {
    s == u || Rank(s) < Rank(u) || (Rank(s) == 0 && Rank(u) == 0)
  }

  /** Results written by finish statements. */
  predicate Sane(q: Statement) {
    q.Finish? ==> q.result in RESULTS
  }

  predicate Fresh(t: Tables, q: Statement) {
    q.Claim? ==> q.token !in t.issued
  }

  /** What any statement may do to a row it leaves in place. */
  ghost predicate RowStep(t: Tables, q: Statement, r: Ref, w: Row, v: Row)
    requires r in t.rows
  {
    && Advances(w.state, v.state)
    && (RowOK(r, w) ==> RowOK(r, v))
    && TokenStep(q, r, w, v)
    && HoldStep(t, q, r, w, v)
  }

  ghost predicate TokenStep(q: Statement, r: Ref, w: Row, v: Row) {
    && (v.token == w.token || v.token.None? || (q.Claim? && q.ref == r && v.token == Some(q.token)))
    && (v.state == Claimed && w.state == Claimed ==> v.token == w.token && v.expires == w.expires)
    && (v.confirmed != w.confirmed ==> q.ConfirmCleanup? && q.agent == r.agent && q.runs == r.StepRun?)
  }

  /** Who may come to hold an agent, and who may start. */
  ghost predicate HoldStep(t: Tables, q: Statement, r: Ref, w: Row, v: Row)
    requires r in t.rows
  {
    && (RowOK(r, w) && Holding(v) && !Holding(w) ==> q.Claim? && q.ref == r && Claimable(t, r, q.expires, q.now, q.eligible))
    && (v.state == Claimed && w.state != Claimed ==>
          && q.Claim? && q.ref == r && Claimable(t, r, q.expires, q.now, q.eligible)
          && v.token == Some(q.token) && v.expires == Some(q.expires))
    && (v.state == RunState.Started && w.state != RunState.Started ==>
          && q.Start? && q.ref == r && w.state == Claimed && t.PairedAgent(r.agent)
          && w.token == Some(q.token) == v.token && w.expires.Some? && q.now < w.expires.value)
  }

  lemma UpdatedTokens(t: Tables, q: Statement, r: Ref)
    requires r in t.rows && Sane(q)
    ensures TokenStep(q, r, t.rows[r], Updated(t, q, r))
  {
    hide Tables.PairedAgent, Tables.AssignedIn, Tables.DirtyAgent, Tables.BusyAgent;
  }

  lemma UpdatedHolds(t: Tables, q: Statement, r: Ref)
    requires r in t.rows && Sane(q)
    ensures HoldStep(t, q, r, t.rows[r], Updated(t, q, r))
  {
    hide Tables.PairedAgent, Tables.AssignedIn, Tables.DirtyAgent, Tables.BusyAgent;
  }

  lemma UpdatedAdvances(t: Tables, q: Statement, r: Ref)
    requires r in t.rows && Sane(q)
    ensures Advances(t.rows[r].state, Updated(t, q, r).state)
    ensures RowOK(r, t.rows[r]) ==> RowOK(r, Updated(t, q, r))
  {
    hide Tables.PairedAgent, Tables.AssignedIn, Tables.DirtyAgent, Tables.BusyAgent;
  }

  lemma UpdatedSteps(t: Tables, q: Statement, r: Ref)
    requires r in t.rows && Sane(q)
    ensures RowStep(t, q, r, t.rows[r], Updated(t, q, r))
  {
    hide Updated, RowOK, Advances, HoldStep, TokenStep;
    UpdatedAdvances(t, q, r);
    UpdatedTokens(t, q, r);
    UpdatedHolds(t, q, r);
  }

  /** A lifecycle statement presents a claim token. */
  function Presented(q: Statement): Option<(Ref, nat)> {
    match q
    case Start(ref, token, _) => Some((ref, token))
    case Heartbeat(ref, token, _) => Some((ref, token))
    case Acknowledge(ref, token, _) => Some((ref, token))
    case Finish(ref, token, _, _) => Some((ref, token))
    case SetLogBuffer(ref, token, _) => Some((ref, token))
    case _ => None
  }

  /** With any other token than the row's own, a lifecycle statement changes no row. */
  lemma WrongTokenChangesNothing(t: Tables, q: Statement, r: Ref)
    requires r in t.rows && Presented(q).Some?
    requires Presented(q).value.0 == r ==> t.rows[r].token != Some(Presented(q).value.1)
    ensures Updated(t, q, r) == t.rows[r]
  {
    hide Claimable, Tables.PairedAgent, Tables.AssignedIn;
  }
}
