/**
 The tables behind remote work: step runs and whole-deployment claims, agents
 and deployments, and every SQL statement that writes the first two. A statement
 is a value; `Apply` is the table contents after it. What a statement reads from
 tables outside this model (slots, capabilities, the eligibility view) is part of
 the statement, so nothing is assumed about it.
 */
module LeaseTables {
  import opened Common

  datatype RunState =
    | Waiting | Claimed | Started | CancelRequested | Lost | CancelUnconfirmed
    | Succeeded | Failed | Cancelled | CleanupUnconfirmed

  /** The key of a row of either table. */
  datatype Ref =
    | StepRun(deployment: nat, step: nat, agent: nat)
    | WholeClaim(deployment: nat, agent: nat)

  datatype Row = Row(
    state: RunState, token: Option<nat>, expires: Option<int>, heartbeat: Option<int>, started: Option<int>,
    finished: Option<int>, cancelAt: Option<int>, updated: int, recovery: bool, logs: bool, confirmed: Option<int>)

  /** The column values pending, active, disabled and revoked, in this order. */
  datatype AgentStatus = Registered | Active | Disabled | Revoked

  datatype Pairing = Unpaired | Pending | Committing | Paired | Expired

  datatype Agent = Agent(status: AgentStatus, draining: bool, pairing: Pairing)

  /**
   The column values queued, pending_approval, pending, running, publishing_artifact and awaiting_artifact_approval,
   then succeeded, failed, cancelled, rejected, expired and cleanup_unconfirmed, in this order.
   */
  datatype Status =
    | Queued | PendingApproval | Ready | Running | Publishing | AwaitingApproval
    | Done | Broken | Stopped | Rejected | TimedOut | Unclean

  datatype Deployment = Deployment(
    status: Status, assignee: Option<nat>, container: Option<nat>, confirmed: Option<int>,
    environment: nat, project: nat, created: int)

  datatype Tables = Tables(
    rows: map<Ref, Row>, agents: map<nat, Agent>, deployments: map<nat, Deployment>, issued: set<nat>)
  {
    predicate ActiveAgent(agent: nat) {
      agent in agents && agents[agent].status == Active
    }

    predicate PairedAgent(agent: nat) {
      ActiveAgent(agent) && agents[agent].pairing == Paired
    }

    predicate AssignedIn(dep: nat, agent: nat, among: set<Status>) {
      dep in deployments && deployments[dep].assignee == Some(agent) && deployments[dep].status in among
    }

    /** Some row of the agent still has cleanup to confirm. */
    predicate DirtyAgent(agent: nat) {
      exists r :: r in rows && r.agent == agent && Unacknowledged(rows[r])
    }

    predicate BusyAgent(agent: nat, other: Ref) {
      exists r :: r in rows && r.WholeClaim? && r.agent == agent && r != other && Holding(rows[r])
    }

    predicate HasRun(dep: nat, states: set<RunState>) {
      exists r :: r in rows && r.StepRun? && r.deployment == dep && rows[r].state in states
    }

    predicate HasRecoveryCancelled(dep: nat) {
      exists r :: r in rows && r.StepRun? && r.deployment == dep && rows[r].state == Cancelled && rows[r].recovery
    }
  }

  /** A cleanup that the agent has not acknowledged. */
  predicate Unacknowledged(w: Row) {
    w.state == CleanupUnconfirmed && w.confirmed.None?
  }

  /** The row occupies its agent. */
  predicate Holding(w: Row) {
    w.state in {Claimed, RunState.Started, CancelRequested}
  }

  const FRESH := Row(Waiting, None, None, None, None, None, None, 0, false, false, None)

  const RESULTS := {Succeeded, Failed, CleanupUnconfirmed}

  datatype Scope = AllRuns | AllClaims | Single(ref: Ref) {
    predicate Covers(r: Ref) {
      match this
      case AllRuns => r.StepRun?
      case AllClaims => r.WholeClaim?
      case Single(ref) => r == ref && r.WholeClaim?
    }
  }

  datatype Statement =
    // rows
    | CreateRuns(dep: nat, step: nat, chosen: set<nat>, now: int)
    | CreateClaim(dep: nat, now: int)
    | Claim(ref: Ref, token: nat, expires: int, now: int, eligible: bool)
    | Start(ref: Ref, token: nat, now: int)
    | Heartbeat(ref: Ref, token: nat, now: int)
    | ExpireClaims(scope: Scope, now: int)
    | LoseStale(scope: Scope, now: int, cutoff: int)
    | RequestCancellation(runs: bool, dep: nat, now: int)
    | ExpireCancellations(scope: Scope, now: int, cutoff: int)
    | Acknowledge(ref: Ref, token: nat, now: int)
    | Finish(ref: Ref, token: nat, result: RunState, now: int)
    | ConfirmCleanup(runs: bool, agent: nat, now: int)
    | FailInvalidRuns(dep: nat, now: int)
    | FailPayload(dep: nat, agent: nat, now: int)
    | FailUnsupported(runs: bool, agent: nat, supported: set<Ref>, now: int)
    | CancelQueuedClaim(dep: nat, now: int)
    | SetLogBuffer(ref: Ref, token: nat, full: bool)
    | CancelOrphaned(now: int)
    | RevokeRuns(agent: nat, now: int)
    | RevokeStarted(dep: nat, agent: nat, now: int)
    | RevokeUnstarted(dep: nat, agent: nat, now: int)
    | DeleteRuns(agent: nat)
    | DeleteClaims(agent: nat)
    | DropDeployment(dep: nat)
    // agents
    | CreateAgent(agent: nat)
    | SetStatus(agent: nat, status: AgentStatus)
    | SetDraining(agent: nat, draining: bool)
    | SetPairing(agent: nat, pairing: Pairing)
    | Activate(agent: nat)
    | ResetForPairing(agent: nat)
    | DeleteAgentRow(agent: nat)
    // deployments
    | PreserveCleanup(agent: nat, now: int)
    | Detach(agent: nat)
    | Terminate(dep: nat, agent: nat)
    | FailTerminal
    | MarkUnreconciled(local: set<nat>)
    | FailOrphaned
    | WriteDeployment(dep: nat, value: Deployment)

  /** One row after a statement that updates rows: its guard, then its assignments. */
  function Updated(t: Tables, q: Statement, r: Ref): Row
    requires r in t.rows
  {
    var w := t.rows[r];
    match q
    case Claim(ref, token, expires, now, eligible) =>
      if r == ref && Claimable(t, r, expires, now, eligible)
      then w.(state := Claimed, token := Some(token), expires := Some(expires), heartbeat := Some(now), updated := now)
      else w
    case Start(ref, token, now) =>
      if r == ref && w.token == Some(token) && w.state == Claimed && w.expires.Some? && w.expires.value > now
         && t.PairedAgent(r.agent)
         && (r.WholeClaim? ==> w.started.None? && t.AssignedIn(r.deployment, r.agent, {Ready}))
      then w.(state := RunState.Started, started := Some(now), updated := now,
              heartbeat := if r.StepRun? then Some(now) else w.heartbeat)
      else w
    case Heartbeat(ref, token, now) =>
      if r == ref && w.token == Some(token) && w.state in {RunState.Started, CancelRequested}
         && (r.WholeClaim? ==> w.heartbeat.Some? && w.heartbeat.value <= now && t.PairedAgent(r.agent))
      then w.(heartbeat := Some(now), updated := now)
      else w
    case ExpireClaims(scope, now) =>
      if scope.Covers(r) && w.state == Claimed && w.started.None? && w.expires.Some? && w.expires.value <= now
      then w.(state := Waiting, token := None, expires := None, heartbeat := None, updated := now)
      else w
    case LoseStale(scope, now, cutoff) =>
      if scope.Covers(r) && w.state == RunState.Started && w.heartbeat.Some? && w.heartbeat.value <= cutoff
      then w.(state := Lost, finished := Some(now), updated := now, logs := false)
      else w
    case RequestCancellation(runs, dep, now) =>
      if r.StepRun? == runs && r.deployment == dep && w.state in {Waiting, Claimed, RunState.Started} then
        if runs then
          if w.state == Waiting
          then w.(state := Cancelled, cancelAt := Some(now), finished := Some(now), updated := now)
          else w.(state := CancelRequested, cancelAt := Some(now), updated := now)
        else if w.started.None?
        then w.(state := Cancelled, finished := Some(now), cancelAt := Some(now), updated := now)
        else w.(state := CancelRequested, finished := None, cancelAt := Some(now), updated := now)
      else w
    case ExpireCancellations(scope, now, cutoff) =>
      if scope.Covers(r) && w.state == CancelRequested && w.cancelAt.Some? && w.cancelAt.value <= cutoff
      then w.(state := CancelUnconfirmed, finished := Some(now), updated := now, logs := false)
      else w
    case Acknowledge(ref, token, now) =>
      if r == ref && w.token == Some(token) && w.state in {CancelRequested, CancelUnconfirmed}
      then w.(state := Cancelled, finished := Some(now), updated := now)
      else w
    case Finish(ref, token, result, now) =>
      if r == ref && w.token == Some(token)
         && (w.state in {RunState.Started, Lost, CancelUnconfirmed}
             || (w.state == CancelRequested && result == CleanupUnconfirmed))
         && (r.WholeClaim? ==>
               && w.started.Some? && result in RESULTS && t.PairedAgent(r.agent)
               && t.AssignedIn(r.deployment, r.agent, {Running, Broken}))
      then w.(state := result, finished := Some(now), updated := now,
              cancelAt := if r.WholeClaim? then None else w.cancelAt)
      else w
    case ConfirmCleanup(runs, agent, now) =>
      if r.StepRun? == runs && r.agent == agent && Unacknowledged(w) then w.(confirmed := Some(now)) else w
    case FailInvalidRuns(dep, now) =>
      if r.StepRun? && r.deployment == dep && w.state == Waiting
      then w.(state := Failed, finished := Some(now), updated := now)
      else w
    case FailPayload(dep, agent, now) =>
      if r == WholeClaim(dep, agent) && w.state == Waiting
      then w.(state := Failed, finished := Some(now), updated := now)
      else w
    case FailUnsupported(runs, agent, supported, now) =>
      if r.StepRun? == runs && r.agent == agent && w.state == Waiting && r !in supported
      then w.(state := Failed, finished := Some(now), updated := now)
      else w
    case CancelQueuedClaim(dep, now) =>
      if r.WholeClaim? && r.deployment == dep && w.state == Waiting
      then w.(state := Cancelled, finished := Some(now), updated := now)
      else w
    case SetLogBuffer(ref, token, full) =>
      if r == ref && w.token == Some(token) then w.(logs := full) else w
    case CancelOrphaned(now) =>
      if r.StepRun? && w.state in {Waiting, Claimed, RunState.Started, CancelRequested}
         && r.deployment in t.deployments && Orphaned(t.deployments[r.deployment], {Running})
      then w.(state := if w.state == Waiting then Cancelled else CancelRequested, recovery := true,
              cancelAt := if w.state == CancelRequested then w.cancelAt else Some(now),
              finished := if w.state == Waiting then Some(now) else w.finished, updated := now)
      else w
    case RevokeRuns(agent, now) =>
      if r.StepRun? && r.agent == agent && w.state in {Waiting, Claimed, RunState.Started, CancelRequested}
      then w.(state := if w.state == Waiting then Failed else Lost, finished := Some(now), updated := now, logs := false)
      else w
    case RevokeStarted(dep, agent, now) =>
      if r == WholeClaim(dep, agent) && w.state in {RunState.Started, CancelRequested} && w.started.Some?
      then w.(state := Lost, cancelAt := None, finished := Some(now), updated := now, logs := false)
      else w
    case RevokeUnstarted(dep, agent, now) =>
      if r == WholeClaim(dep, agent) && w.state in {Waiting, Claimed} && w.started.None?
      then w.(state := Failed, finished := Some(now), updated := now, logs := false)
      else w
    case _ => w
  }

  predicate Claimable(t: Tables, r: Ref, expires: int, now: int, eligible: bool)
    requires r in t.rows
  {
    var w := t.rows[r];
    && w.state == Waiting && eligible && t.ActiveAgent(r.agent) && !t.agents[r.agent].draining
    && !t.DirtyAgent(r.agent)
    && (r.WholeClaim? ==>
          && w.token.None? && w.started.None? && expires > now
          && t.AssignedIn(r.deployment, r.agent, {Ready})
          && t.PairedAgent(r.agent) && !t.BusyAgent(r.agent, r))
  }

  /** Running or publishing with no agent to finish it. */
  predicate Orphaned(d: Deployment, among: set<Status>) {
    d.status in among && d.assignee.None?
  }

  predicate Deleted(q: Statement, r: Ref) {
    match q
    case DeleteRuns(agent) => r.StepRun? && r.agent == agent
    case DeleteClaims(agent) => r.WholeClaim? && r.agent == agent
    case DropDeployment(dep) => r.deployment == dep
    case _ => false
  }

  function Inserted(t: Tables, q: Statement): map<Ref, Row> {
    match q
    case CreateRuns(dep, step, chosen, now) =>
      if dep in t.deployments && t.deployments[dep].status == Running
      then map agent | agent in chosen :: StepRun(dep, step, agent) := FRESH.(updated := now)
      else map[]
    case CreateClaim(dep, now) =>
      if dep in t.deployments && t.deployments[dep].assignee.Some? && t.deployments[dep].status in {Ready, PendingApproval}
         && !(exists r :: r in t.rows && r.WholeClaim? && r.deployment == dep)
      then map[WholeClaim(dep, t.deployments[dep].assignee.value) := FRESH.(updated := now)]
      else map[]
    case _ => map[]
  }

  function Rows(t: Tables, q: Statement): map<Ref, Row> {
    Inserted(t, q) + map r | r in t.rows && !Deleted(q, r) :: Updated(t, q, r)
  }

  function Agents(t: Tables, q: Statement): map<nat, Agent> {
    match q
    case CreateAgent(agent) =>
      if agent in t.agents then t.agents else t.agents[agent := Agent(Registered, false, Unpaired)]
    case SetStatus(agent, status) =>
      if agent in t.agents && Settable(t.agents[agent].status, status)
      then t.agents[agent := t.agents[agent].(status := status)] else t.agents
    case SetDraining(agent, draining) =>
      if t.ActiveAgent(agent) then t.agents[agent := t.agents[agent].(draining := draining)] else t.agents
    case SetPairing(agent, pairing) =>
      if agent in t.agents then t.agents[agent := t.agents[agent].(pairing := pairing)] else t.agents
    case Activate(agent) =>
      if agent in t.agents && t.agents[agent].status == Registered && t.agents[agent].pairing == Paired
      then t.agents[agent := t.agents[agent].(status := Active)] else t.agents
    case ResetForPairing(agent) =>
      if Resettable(t, agent)
      then t.agents[agent := Agent(Registered, false, t.agents[agent].pairing)] else t.agents
    case DeleteAgentRow(agent) => t.agents - {agent}
    case _ => t.agents
  }

  predicate Settable(from: AgentStatus, to: AgentStatus) {
    from != Revoked && (to == Revoked || (from in {Active, Disabled} && to in {Active, Disabled}))
  }

  predicate Resettable(t: Tables, agent: nat) {
    && agent in t.agents && t.agents[agent].status == Revoked && !t.DirtyAgent(agent)
    && !(exists r :: r in t.rows && r.agent == agent && t.rows[r].state in {Lost, CancelUnconfirmed})
  }

  function Written(t: Tables, q: Statement, dep: nat): Deployment
    requires dep in t.deployments
  {
    var d := t.deployments[dep];
    match q
    case PreserveCleanup(agent, now) =>
      if d.status == Unclean && d.confirmed.None? && d.container.None?
         && (exists r :: r in t.rows && r.deployment == dep && r.agent == agent && t.rows[r].confirmed.Some?)
         && !(exists r :: r in t.rows && r.deployment == dep && Unacknowledged(t.rows[r]))
      then d.(confirmed := Some(now)) else d
    case Detach(agent) => if d.assignee == Some(agent) then d.(assignee := None) else d
    case Terminate(target, agent) =>
      if dep == target && t.AssignedIn(dep, agent, TERMINABLE) then d.(status := Broken) else d
    case FailTerminal =>
      if d.assignee.None? && (d.status == Running || (d.status == Broken && t.HasRun(dep, {CleanupUnconfirmed})))
         && (t.HasRun(dep, {Failed, Lost, CancelUnconfirmed, CleanupUnconfirmed}) || t.HasRecoveryCancelled(dep))
         && !t.HasRun(dep, {Waiting, Claimed, RunState.Started, CancelRequested})
      then d.(status := if t.HasRun(dep, {CleanupUnconfirmed}) then Unclean else Broken) else d
    case MarkUnreconciled(local) =>
      if Orphaned(d, {Running, Publishing}) && d.container.Some? && dep in local
         && !t.HasRun(dep, {Claimed, RunState.Started, CancelRequested})
      then d.(status := Unclean) else d
    case FailOrphaned =>
      if Orphaned(d, {Running, Publishing}) && !t.HasRun(dep, {CancelRequested})
      then d.(status := Broken) else d
    case _ => d
  }

  const TERMINABLE := {Queued, Ready, PendingApproval, Running}

  function Deployments(t: Tables, q: Statement): map<nat, Deployment> {
    match q
    case WriteDeployment(dep, value) => t.deployments[dep := value]
    case DropDeployment(dep) => t.deployments - {dep}
    case _ => map dep | dep in t.deployments :: Written(t, q, dep)
  }

  function Issued(t: Tables, q: Statement): set<nat> {
    if q.Claim? then t.issued + {q.token} else t.issued
  }

  function Apply(t: Tables, q: Statement): Tables {
    Tables(Rows(t, q), Agents(t, q), Deployments(t, q), Issued(t, q))
  }
}
