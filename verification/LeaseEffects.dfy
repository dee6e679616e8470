/** What each statement does to the row it is about, and when it does nothing. */
module LeaseEffects {
  import opened Common
  import opened LeaseTables
  import opened LeaseProtocol
  import opened LeaseTransactions
  import LeaseStore

  predicate Presents(w: Row, token: nat) {
    w.token == Some(token)
  }

  /** The agent of a whole claim has to be active and paired. */
  predicate Present(t: Tables, r: Ref) {
    r.WholeClaim? ==>
      r.agent in t.agents && t.agents[r.agent].status == Active && t.agents[r.agent].pairing == Paired
  }

  /** A whole claim's deployment is still assigned to its agent, with one of these statuses. */
  predicate Assigned(t: Tables, r: Ref, among: set<Status>) {
    r.WholeClaim? ==>
      && r.deployment in t.deployments && t.deployments[r.deployment].assignee == Some(r.agent)
      && t.deployments[r.deployment].status in among
  }

  // ----- the life of a claim -----

  /** No other whole claim of the agent is held, and none of its rows has cleanup to confirm. */
  ghost predicate Free(t: Tables, r: Ref) {
    && (forall s: Ref :: s in t.rows && s.agent == r.agent ==>
          !(t.rows[s].state == CleanupUnconfirmed && t.rows[s].confirmed.None?))
    && (r.WholeClaim? ==> forall s: Ref :: s in t.rows && s.WholeClaim? && s.agent == r.agent && s != r ==>
          t.rows[s].state !in {Claimed, RunState.Started, CancelRequested})
  }

  /** A waiting row is claimed exactly when its agent may take it, and then carries token, lease and heartbeat. */
  lemma ClaimsExactly(t: Tables, r: Ref, token: nat, expires: int, now: int, eligible: bool)
    requires r in t.rows && RowOK(r, t.rows[r])
    ensures
      var w := t.rows[r];
      Updated(t, Claim(r, token, expires, now, eligible), r) ==
        if w.state == Waiting && eligible && Free(t, r)
           && r.agent in t.agents && t.agents[r.agent].status == Active && !t.agents[r.agent].draining
           && Present(t, r) && Assigned(t, r, {Ready}) && (r.WholeClaim? ==> now < expires)
        then w.(state := Claimed, token := Some(token), expires := Some(expires), heartbeat := Some(now), updated := now)
        else w
  {
    assert t.DirtyAgent(r.agent) <==>
      exists s: Ref :: (s in t.rows && s.agent == r.agent && t.rows[s].state == CleanupUnconfirmed && t.rows[s].confirmed.None?);
    assert t.BusyAgent(r.agent, r) <==>
      exists s: Ref :: (s in t.rows && s.WholeClaim? && s.agent == r.agent && s != r && Holding(t.rows[s]));
  }

  /** A claimed row starts exactly with its own token, before its lease ends, on a paired agent. */
  lemma StartsExactly(t: Tables, r: Ref, token: nat, now: int)
    requires r in t.rows && RowOK(r, t.rows[r])
    ensures
      var w := t.rows[r];
      Updated(t, Start(r, token, now), r) ==
        if w.state == Claimed && Presents(w, token) && w.expires.Some? && now < w.expires.value
           && t.PairedAgent(r.agent) && Assigned(t, r, {Ready})
        then w.(state := RunState.Started, started := Some(now), updated := now,
                heartbeat := if r.StepRun? then Some(now) else w.heartbeat)
        else w
  {
  }

  /** A heartbeat counts exactly for work under way, from its own token; whole claims also never go back in time. */
  lemma HeartbeatsExactly(t: Tables, r: Ref, token: nat, now: int)
    requires r in t.rows
    ensures
      var w := t.rows[r];
      Updated(t, Heartbeat(r, token, now), r) ==
        if Presents(w, token) && w.state in {RunState.Started, CancelRequested} && Present(t, r)
           && (r.WholeClaim? ==> w.heartbeat.Some? && w.heartbeat.value <= now)
        then w.(heartbeat := Some(now), updated := now) else w
  {
  }

  /** The rows a sweep looks at. */
  predicate Swept(scope: Scope, r: Ref) {
    (scope.AllRuns? && r.StepRun?) || (scope.AllClaims? && r.WholeClaim?) || (scope == Single(r) && r.WholeClaim?)
  }

  /** A claim that was never started goes back to waiting exactly when its lease has ended, and forgets its token. */
  lemma ExpiresExactly(t: Tables, scope: Scope, now: int, r: Ref)
    requires r in t.rows && RowOK(r, t.rows[r])
    ensures
      var w := t.rows[r];
      Updated(t, ExpireClaims(scope, now), r) ==
        if Swept(scope, r) && w.state == Claimed && w.expires.Some? && w.expires.value <= now
        then w.(state := Waiting, token := None, expires := None, heartbeat := None, updated := now) else w
  {
  }

  /** Started work is lost exactly when its last heartbeat is not after the cutoff. */
  lemma LosesExactly(t: Tables, scope: Scope, now: int, cutoff: int, r: Ref)
    requires r in t.rows
    ensures
      var w := t.rows[r];
      Updated(t, LoseStale(scope, now, cutoff), r) ==
        if Swept(scope, r) && w.state == RunState.Started && w.heartbeat.Some? && w.heartbeat.value <= cutoff
        then w.(state := Lost, finished := Some(now), updated := now, logs := false) else w
  {
  }

  // ----- cancelling -----

  /** Cancelling ends what waits and asks for the rest; a whole claim that never started ends too. */
  lemma CancelsExactly(t: Tables, runs: bool, dep: nat, now: int, r: Ref)
    requires r in t.rows && RowOK(r, t.rows[r])
    ensures
      var w := t.rows[r];
      Updated(t, RequestCancellation(runs, dep, now), r) ==
        if r.StepRun? != runs || r.deployment != dep then w
        else
          match w.state
          case Waiting => w.(state := Cancelled, finished := Some(now), cancelAt := Some(now), updated := now)
          case Claimed =>
            if runs then w.(state := CancelRequested, cancelAt := Some(now), updated := now)
            else w.(state := Cancelled, finished := Some(now), cancelAt := Some(now), updated := now)
          case Started =>
            w.(state := CancelRequested, cancelAt := Some(now), updated := now, finished := if runs then w.finished else None)
          case _ => w
  {
  }

  /** A request unanswered at the cutoff becomes unconfirmed. */
  lemma UnansweredExactly(t: Tables, scope: Scope, now: int, cutoff: int, r: Ref)
    requires r in t.rows
    ensures
      var w := t.rows[r];
      Updated(t, ExpireCancellations(scope, now, cutoff), r) ==
        if Swept(scope, r) && w.state == CancelRequested && w.cancelAt.Some? && w.cancelAt.value <= cutoff
        then w.(state := CancelUnconfirmed, finished := Some(now), updated := now, logs := false) else w
  {
  }

  /** The agent's acknowledgement settles a request, however late. */
  lemma AcknowledgesExactly(t: Tables, r: Ref, token: nat, now: int)
    requires r in t.rows
    ensures
      var w := t.rows[r];
      Updated(t, Acknowledge(r, token, now), r) ==
        if Presents(w, token) && w.state in {CancelRequested, CancelUnconfirmed}
        then w.(state := Cancelled, finished := Some(now), updated := now) else w
  {
  }

  // ----- finishing -----

  /** Someone still waits for this row's result: always for a step run, for a whole claim while its deployment does. */
  predicate Awaited(t: Tables, r: Ref) {
    Present(t, r) && Assigned(t, r, {Running, Broken})
  }

  /** Work under way or given up may report any result; where it was asked to cancel, only unconfirmed cleanup. */
  predicate Reportable(w: Row, result: RunState) {
    w.state in {RunState.Started, Lost, CancelUnconfirmed} || (w.state == CancelRequested && result == CleanupUnconfirmed)
  }

  /** A report with the row's own token is taken exactly when the row can report it and it is awaited. */
  lemma FinishesExactly(t: Tables, r: Ref, token: nat, result: RunState, now: int)
    requires r in t.rows && RowOK(r, t.rows[r]) && result in {Succeeded, Failed, CleanupUnconfirmed}
    ensures
      var w := t.rows[r];
      Updated(t, Finish(r, token, result, now), r) ==
        if Presents(w, token) && Reportable(w, result) && Awaited(t, r)
        then w.(state := result, finished := Some(now), updated := now, cancelAt := if r.WholeClaim? then None else w.cancelAt)
        else w
  {
  }

  /** Open cleanup of the agent is confirmed, table by table, and nothing else is. */
  lemma ConfirmsExactly(t: Tables, runs: bool, agent: nat, now: int, r: Ref)
    requires r in t.rows
    ensures
      var w := t.rows[r];
      Updated(t, ConfirmCleanup(runs, agent, now), r) ==
        if r.StepRun? == runs && r.agent == agent && w.state == CleanupUnconfirmed && w.confirmed.None?
        then w.(confirmed := Some(now)) else w
  {
  }

  /** Rows that cannot go ahead are failed, or cancelled, only while they wait. */
  lemma WaitingEndsExactly(t: Tables, q: Statement, r: Ref)
    requires r in t.rows && (q.FailInvalidRuns? || q.FailPayload? || q.FailUnsupported? || q.CancelQueuedClaim?)
    ensures
      var w := t.rows[r];
      var meant :=
        match q
        case FailInvalidRuns(dep, _) => r.StepRun? && r.deployment == dep
        case FailPayload(dep, agent, _) => r.WholeClaim? && r.deployment == dep && r.agent == agent
        case FailUnsupported(runs, agent, supported, _) => r.StepRun? == runs && r.agent == agent && r !in supported
        case CancelQueuedClaim(dep, _) => r.WholeClaim? && r.deployment == dep
        case _ => false;
      Updated(t, q, r) ==
        if meant && w.state == Waiting
        then w.(state := if q.CancelQueuedClaim? then Cancelled else Failed, finished := Some(q.now), updated := q.now) else w
  {
  }

  /** Revoking ends every live row of the agent: what waits fails, what was under way is lost. */
  lemma RevokesExactly(t: Tables, agent: nat, now: int, r: Ref)
    requires r in t.rows && RowOK(r, t.rows[r]) && r.agent == agent
    ensures
      var w := t.rows[r];
      var q := if r.StepRun? then RevokeRuns(agent, now)
               else if w.started.Some? then RevokeStarted(r.deployment, agent, now)
               else RevokeUnstarted(r.deployment, agent, now);
      var v := Updated(t, q, r);
      match w.state
      case Waiting => v == w.(state := Failed, finished := Some(now), updated := now, logs := false)
      case Claimed =>
        v == w.(state := if r.StepRun? then Lost else Failed, finished := Some(now), updated := now, logs := false)
      case Started => v.state == Lost && v.finished == Some(now) && !v.logs && v.token == w.token
      case CancelRequested => v.state == Lost && v.finished == Some(now) && !v.logs && v.token == w.token
      case _ => v == w
  {
  }

  /** Recovery ends the waiting step runs of orphaned running deployments and asks for the rest, keeping the time of an earlier request. */
  lemma RecoversExactly(t: Tables, now: int, r: Ref)
    requires r in t.rows
    ensures
      var w := t.rows[r];
      Updated(t, CancelOrphaned(now), r) ==
        if r.StepRun? && r.deployment in t.deployments && t.deployments[r.deployment].assignee.None?
           && t.deployments[r.deployment].status == Running && w.state in {Waiting, Claimed, RunState.Started, CancelRequested}
        then
          match w.state
          case Waiting => w.(state := Cancelled, recovery := true, cancelAt := Some(now), finished := Some(now), updated := now)
          case CancelRequested => w.(recovery := true, updated := now)
          case _ => w.(state := CancelRequested, recovery := true, cancelAt := Some(now), updated := now)
        else w
  {
  }

  /** Buffered logs are noted only under the row's own token. */
  lemma BuffersExactly(t: Tables, r: Ref, token: nat, full: bool)
    requires r in t.rows
    ensures Updated(t, SetLogBuffer(r, token, full), r) ==
      if Presents(t.rows[r], token) then t.rows[r].(logs := full) else t.rows[r]
  {
  }

  // ----- new rows -----

  /** Step runs are created for the chosen agents of a running deployment, waiting and blank, and none is replaced. */
  lemma RunsCreatedExactly(t: Tables, dep: nat, step: nat, chosen: set<nat>, now: int, r: Ref)
    ensures
      var rows := Rows(t, CreateRuns(dep, step, chosen, now));
      && (r in rows <==>
            (|| r in t.rows
             || (r.StepRun? && r.deployment == dep && r.step == step && r.agent in chosen
                 && dep in t.deployments && t.deployments[dep].status == Running)))
      && (r in t.rows ==> rows[r] == t.rows[r])
      && (r in rows && r !in t.rows ==>
            rows[r] == Row(Waiting, None, None, None, None, None, None, now, false, false, None))
  {
    if r in t.rows { NoRowUpdated(t, CreateRuns(dep, step, chosen, now), r); }
    hide Updated;
    if r.StepRun? && r.deployment == dep && r.step == step {
      assert r == StepRun(dep, step, r.agent);
    }
  }

  lemma NoRowUpdated(t: Tables, q: Statement, r: Ref)
    requires r in t.rows && (q.CreateRuns? || q.CreateClaim?)
    ensures Updated(t, q, r) == t.rows[r]
  {
  }

  /** A deployment gets one claim, for the agent it is assigned to, while it is pending and has none. */
  lemma ClaimCreatedExactly(t: Tables, dep: nat, now: int, r: Ref)
    ensures
      var rows := Rows(t, CreateClaim(dep, now));
      && (r in rows <==>
            (|| r in t.rows
             || (r.WholeClaim? && r.deployment == dep && dep in t.deployments
                 && t.deployments[dep].assignee == Some(r.agent) && t.deployments[dep].status in {Ready, PendingApproval}
                 && forall s: Ref :: s in t.rows && s.WholeClaim? ==> s.deployment != dep)))
      && (r in t.rows ==> rows[r] == t.rows[r])
      && (r in rows && r !in t.rows ==>
            rows[r] == Row(Waiting, None, None, None, None, None, None, now, false, false, None))
  {
    hide Updated;
    if r in t.rows { NoRowUpdated(t, CreateClaim(dep, now), r); }
  }

  // ----- agents -----

  /** An agent becomes active only by completing a pairing, or by being enabled again; a revoked one only starts over. */
  lemma AgentMovesExactly(t: Tables, q: Statement, agent: nat)
    requires agent in t.agents && agent in Agents(t, q)
    ensures
      var from, to := t.agents[agent].status, Agents(t, q)[agent].status;
      && (from != to && to == Active ==>
            || (q == Activate(agent) && from == Registered && t.agents[agent].pairing == Paired)
            || (q == SetStatus(agent, Active) && from == Disabled))
      && (from == Revoked && to != Revoked ==> q == ResetForPairing(agent) && to == Registered)
      && (to == Revoked && from != Revoked ==> q == SetStatus(agent, Revoked))
  {
  }

  /** Draining is switched for active agents, and starting over forgets it. */
  lemma AgentsDrainExactly(t: Tables, agent: nat, draining: bool)
    requires agent in t.agents
    ensures Agents(t, SetDraining(agent, draining))[agent] ==
      if t.agents[agent].status == Active then t.agents[agent].(draining := draining) else t.agents[agent]
    ensures Resettable(t, agent) ==> Agents(t, ResetForPairing(agent))[agent] == Agent(Registered, false, t.agents[agent].pairing)
  {
  }

  // ----- queue blockers -----

  /** What blocks a queue: a deployment under way, unconfirmed cleanup, or rows that are live or given up. */
  lemma BlocksExactly(t: Tables, dep: nat)
    requires dep in t.deployments
    ensures BlocksQueue(t, dep) <==>
      || t.deployments[dep].status in {Ready, Running, Publishing, AwaitingApproval}
      || HasUnconfirmedContainerCleanup(t, dep)
      || exists r: Ref ::
           (r in t.rows && r.deployment == dep
            && t.rows[r].state in {Claimed, RunState.Started, CancelRequested, Lost, CancelUnconfirmed})
  {
    forall r: Ref | r in t.rows && r.deployment == dep ensures RowOf(t, dep, r) {
    }
  }

  // ----- what deletion may take away -----

  /** Nothing is lost with a deleted agent: its rows had ended or only waited, were accounted for, and held no logs. */
  lemma DeletedRowsAreSettled(t: Tables, agent: nat, now: int, live: bool, attempted: set<nat>, r: Ref)
    requires RemoveAgent(t, agent, now, live, attempted).Some? && r in t.rows && r.agent == agent
    ensures
      && t.rows[r].state in {Waiting, Succeeded, Failed, Cancelled, CleanupUnconfirmed}
      && (t.rows[r].state == CleanupUnconfirmed ==> t.rows[r].confirmed.Some?)
      && !t.rows[r].logs && !live
  {
    hide RevokeAgent, Purged, StillReferenced;
    assert !Blocks(t.rows[r]);
  }

  /** And no deployment that is not settled still refers to it, by assignment, row or attempt. */
  lemma DeletedAgentsAreUnreferenced(t: Tables, agent: nat, now: int, live: bool, attempted: set<nat>, dep: nat)
    requires RemoveAgent(t, agent, now, live, attempted).Some?
    ensures RevokeAgent(t, agent, now).Some?
    ensures
      var u := RevokeAgent(t, agent, now).value;
      dep in u.deployments
      && (u.deployments[dep].assignee == Some(agent) || dep in attempted
          || exists r :: r in u.rows && r.deployment == dep && r.agent == agent) ==>
        && u.deployments[dep].status in {Done, Broken, Stopped, Rejected, TimedOut, Unclean}
        && (u.deployments[dep].status == Unclean ==>
              && u.deployments[dep].container.None?
              && (u.deployments[dep].confirmed.Some? || exists r: Ref :: r in u.rows && r.deployment == dep && u.rows[r].confirmed.Some?)
              && forall r: Ref :: r in u.rows && r.deployment == dep ==> !Unacknowledged(u.rows[r]))
  {
    hide RevokeAgent, Purged, DeletionBlocked;
  }

  // ----- deployments -----

  predicate LiveRun(t: Tables, dep: nat) {
    t.HasRun(dep, {Waiting, Claimed, RunState.Started, CancelRequested})
  }

  /** Revoked work fails its deployment, if it is still to be done or under way. */
  lemma TerminatesExactly(t: Tables, target: nat, agent: nat, dep: nat)
    requires dep in t.deployments
    ensures
      var d := t.deployments[dep];
      Written(t, Terminate(target, agent), dep) ==
        if dep == target && d.assignee == Some(agent) && d.status in {Queued, Ready, PendingApproval, Running}
        then d.(status := Broken) else d
  {
  }

  /**
   An unassigned deployment whose step runs have all ended, one of them badly,
   is failed, or cleanup_unconfirmed if some cleanup is.
   */
  lemma FailsTerminalExactly(t: Tables, dep: nat)
    requires dep in t.deployments
    ensures
      var d := t.deployments[dep];
      var unclean := t.HasRun(dep, {CleanupUnconfirmed});
      Written(t, FailTerminal, dep) ==
        if d.assignee.None? && !LiveRun(t, dep)
           && (unclean || t.HasRun(dep, {Failed, Lost, CancelUnconfirmed}) || t.HasRecoveryCancelled(dep))
           && (d.status == Running || (d.status == Broken && unclean))
        then d.(status := if unclean then Unclean else Broken) else d
  {
    EndedBadly(t, dep);
  }

  lemma EndedBadly(t: Tables, dep: nat)
    ensures t.HasRun(dep, {Failed, Lost, CancelUnconfirmed, CleanupUnconfirmed})
      <==> t.HasRun(dep, {Failed, Lost, CancelUnconfirmed}) || t.HasRun(dep, {CleanupUnconfirmed})
  {
    HasRunUnion(t, dep, {Failed, Lost, CancelUnconfirmed}, {CleanupUnconfirmed});
    assert {Failed, Lost, CancelUnconfirmed} + {CleanupUnconfirmed} == {Failed, Lost, CancelUnconfirmed, CleanupUnconfirmed};
  }

  lemma HasRunUnion(t: Tables, dep: nat, a: set<RunState>, b: set<RunState>)
    ensures t.HasRun(dep, a + b) <==> t.HasRun(dep, a) || t.HasRun(dep, b)
  {
  }

  /** After a revocation the deployment of every claim it settled is failed. */
  lemma RevokedDeploymentsFail(t: Tables, agent: nat, now: int, dep: nat)
    requires RevokeAgent(t, agent, now).Some? && t.agents[agent].status != Revoked
    requires dep in RevocableClaims(Barred(t, agent, now), agent)
    ensures
      var u := RevokeAgent(t, agent, now).value;
      dep in u.deployments && u.deployments[dep].status == Broken && u.deployments[dep].assignee == Some(agent)
  {
    hide Barred, RevocableClaims, Updated, Rows, Agents, Written, Settled, Deployments;
    var t2 := Barred(t, agent, now);
    var deps := RevocableClaims(t2, agent);
    var t3 := Settled(t2, agent, now, deps);
    assert Settles(t2, agent, now, dep);
    LeaseStore.SettledDeployments(t2, agent, now, deps);
    TerminatesExactly(t2, dep, agent, dep);
    DeploymentAt(t3, FailTerminal);
    FailsTerminalExactly(t3, dep);
  }

  /**
   Recovery fails every unassigned deployment under way that waits for no
   cancelled run; with containers of its own that may still be there, and no run
   that could be using them, it is cleanup_unconfirmed instead. No other changes.
   */
  lemma RecoveryStatuses(t: Tables, now: int, local: set<nat>, dep: nat)
    requires dep in t.deployments
    ensures dep in Recovered(t, now, local).deployments
    ensures
      var u := Recovered(t, now, local);
      var d := t.deployments[dep];
      u.deployments[dep] ==
        if d.assignee.Some? || d.status !in {Running, Publishing} || u.HasRun(dep, {CancelRequested}) then d
        else if d.container.Some? && dep in local && !u.HasRun(dep, {Claimed, RunState.Started}) then d.(status := Unclean)
        else d.(status := Broken)
  {
    hide Apply, Recovered, Updated, Written, Tables.HasRun;
    RecoveredParts(t, now, local);
    var t1 := Apply(t, CancelOrphaned(now));
    var t2 := Apply(t1, MarkUnreconciled(local));
    MarksExactly(t1, local, dep);
    FailsOrphanedExactly(t2, dep);
    SameRuns(t1, t2, dep);
    SameRuns(t1, Recovered(t, now, local), dep);
    RunsUnion(t1, dep);
  }

  lemma MarksExactly(t: Tables, local: set<nat>, dep: nat)
    requires dep in t.deployments
    ensures
      var d := t.deployments[dep];
      Written(t, MarkUnreconciled(local), dep) ==
        if d.assignee.None? && d.status in {Running, Publishing} && d.container.Some? && dep in local
           && !t.HasRun(dep, {Claimed, RunState.Started, CancelRequested})
        then d.(status := Unclean) else d
  {
  }

  lemma FailsOrphanedExactly(t: Tables, dep: nat)
    requires dep in t.deployments
    ensures
      var d := t.deployments[dep];
      Written(t, FailOrphaned, dep) ==
        if d.assignee.None? && d.status in {Running, Publishing} && !t.HasRun(dep, {CancelRequested})
        then d.(status := Broken) else d
  {
  }

  lemma SameRuns(t: Tables, u: Tables, dep: nat)
    requires t.rows == u.rows
    ensures forall states :: t.HasRun(dep, states) <==> u.HasRun(dep, states)
  {
  }

  lemma RunsUnion(t: Tables, dep: nat)
    ensures t.HasRun(dep, {Claimed, RunState.Started, CancelRequested})
      <==> t.HasRun(dep, {Claimed, RunState.Started}) || t.HasRun(dep, {CancelRequested})
  {
    HasRunUnion(t, dep, {Claimed, RunState.Started}, {CancelRequested});
    assert {Claimed, RunState.Started} + {CancelRequested} == {Claimed, RunState.Started, CancelRequested};
  }
}
