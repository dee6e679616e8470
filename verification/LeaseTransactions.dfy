/** What deleting an agent and recovering at startup do to deployments. */
module LeaseTransactions {
  import opened LeaseTables
  import opened LeaseProtocol
  import opened LeaseProofs

  // ----- what holds up a queue -----

  ghost predicate RowOf(t: Tables, dep: nat, r: Ref) {
    r in t.rows && r.deployment == dep
  }

  ghost predicate OpenCleanup(t: Tables, dep: nat) {
    exists r :: RowOf(t, dep, r) && Unacknowledged(t.rows[r])
  }

  /** The deployment's own containers may still be there. */
  ghost predicate OwnCleanup(t: Tables, dep: nat)
    requires dep in t.deployments
  {
    var d := t.deployments[dep];
    d.status == Unclean
    && (d.container.Some?
        || (d.confirmed.None? && !exists r :: RowOf(t, dep, r) && t.rows[r].state == CleanupUnconfirmed))
  }

  ghost predicate HasUnconfirmedContainerCleanup(t: Tables, dep: nat) {
    (dep in t.deployments && OwnCleanup(t, dep)) || OpenCleanup(t, dep)
  }

  ghost predicate BlocksQueue(t: Tables, dep: nat)
    requires dep in t.deployments
  {
    || t.deployments[dep].status in {Ready, Running, Publishing, AwaitingApproval}
    || OwnCleanup(t, dep)
    || OpenCleanup(t, dep)
    || exists r :: RowOf(t, dep, r) && (Holding(t.rows[r]) || t.rows[r].state in {Lost, CancelUnconfirmed})
  }

  /** The deployments that hold up one environment's queue for one project. */
  ghost function QueueBlockers(t: Tables, environment: nat, project: nat): set<nat> {
    set dep | dep in t.deployments && t.deployments[dep].environment == environment
              && t.deployments[dep].project == project && BlocksQueue(t, dep)
  }

  // ----- deleting an agent -----

  lemma PurgedRows(t: Tables, agent: nat, now: int)
    ensures Purged(t, agent, now).rows == map r | r in t.rows && r.agent != agent :: t.rows[r]
  {
    hide Purged;
    forall r
      ensures r in Purged(t, agent, now).rows <==> r in t.rows && r.agent != agent
      ensures r in Purged(t, agent, now).rows ==> Purged(t, agent, now).rows[r] == t.rows[r]
    {
      PurgedRow(t, agent, now, r);
    }
  }

  lemma PurgedRow(t: Tables, agent: nat, now: int, r: Ref)
    ensures r in Purged(t, agent, now).rows <==> r in t.rows && r.agent != agent
    ensures r in Purged(t, agent, now).rows ==> Purged(t, agent, now).rows[r] == t.rows[r]
  {
    hide Apply;
    var t1 := Apply(t, PreserveCleanup(agent, now));
    var t2 := Apply(t1, DeleteRuns(agent));
    var t3 := Apply(t2, DeleteClaims(agent));
    var t4 := Apply(t3, Detach(agent));
    RowKept(t, PreserveCleanup(agent, now), r);
    RowKept(t1, DeleteRuns(agent), r);
    RowKept(t2, DeleteClaims(agent), r);
    RowKept(t3, Detach(agent), r);
    RowKept(t4, DeleteAgentRow(agent), r);
  }

  lemma RowKept(t: Tables, q: Statement, r: Ref)
    requires q.PreserveCleanup? || q.DeleteRuns? || q.DeleteClaims? || q.Detach? || q.DeleteAgentRow?
    ensures r in Apply(t, q).rows <==> r in t.rows && !Deleted(q, r)
    ensures r in Apply(t, q).rows ==> Apply(t, q).rows[r] == t.rows[r]
  {
    hide Updated, Deleted, Agents, Deployments;
    if r in t.rows {
      UpdatedSame(t, q, r);
    }
  }

  lemma UpdatedSame(t: Tables, q: Statement, r: Ref)
    requires r in t.rows
    requires q.PreserveCleanup? || q.DeleteRuns? || q.DeleteClaims? || q.Detach? || q.DeleteAgentRow?
             || q.MarkUnreconciled? || q.FailOrphaned?
    ensures Updated(t, q, r) == t.rows[r]
  {
  }

  lemma DeploymentAt(t: Tables, q: Statement)
    requires !q.WriteDeployment? && !q.DropDeployment?
    ensures Deployments(t, q).Keys == t.deployments.Keys
    ensures forall dep :: dep in t.deployments ==> Deployments(t, q)[dep] == Written(t, q, dep)
  {
    hide Written;
  }

  lemma WrittenSame(t: Tables, q: Statement, dep: nat)
    requires dep in t.deployments && (q.DeleteRuns? || q.DeleteClaims? || q.Detach? || q.DeleteAgentRow? || q.CancelOrphaned?)
    ensures q.Detach? || Written(t, q, dep) == t.deployments[dep]
    ensures Written(t, q, dep) == t.deployments[dep].(assignee := Written(t, q, dep).assignee)
  {
  }

  /** What the purge writes to a deployment. */
  lemma PurgedDeployment(t: Tables, agent: nat, now: int, dep: nat)
    ensures dep in Purged(t, agent, now).deployments <==> dep in t.deployments
    ensures dep in t.deployments ==>
      var d := Written(t, PreserveCleanup(agent, now), dep);
      var v := Purged(t, agent, now).deployments[dep];
      v == d.(assignee := v.assignee)
  {
    hide Rows, Agents, Deployments, Written;
    var t1 := Apply(t, PreserveCleanup(agent, now));
    var t2 := Apply(t1, DeleteRuns(agent));
    var t3 := Apply(t2, DeleteClaims(agent));
    var t4 := Apply(t3, Detach(agent));
    DeploymentAt(t, PreserveCleanup(agent, now));
    DeploymentAt(t1, DeleteRuns(agent));
    DeploymentAt(t2, DeleteClaims(agent));
    DeploymentAt(t3, Detach(agent));
    DeploymentAt(t4, DeleteAgentRow(agent));
    if dep in t.deployments {
      WrittenSame(t1, DeleteRuns(agent), dep);
      WrittenSame(t2, DeleteClaims(agent), dep);
      WrittenSame(t3, Detach(agent), dep);
      WrittenSame(t4, DeleteAgentRow(agent), dep);
    }
  }

  lemma OthersDecide(t: Tables, u: Tables, agent: nat, dep: nat)
    requires u.rows == map r | r in t.rows && r.agent != agent :: t.rows[r]
    requires !DeletionBlocked(t, agent)
    ensures OpenCleanup(u, dep) == OpenCleanup(t, dep)
    ensures (exists r :: RowOf(u, dep, r) && (Holding(u.rows[r]) || u.rows[r].state in {Lost, CancelUnconfirmed}))
      <==> exists r :: RowOf(t, dep, r) && (Holding(t.rows[r]) || t.rows[r].state in {Lost, CancelUnconfirmed})
  {
    forall r | RowOf(t, dep, r) && Blocks(t.rows[r]) && !t.rows[r].logs ensures RowOf(u, dep, r) && u.rows[r] == t.rows[r] {
    }
    forall r | RowOf(t, dep, r) && (Unacknowledged(t.rows[r]) || Holding(t.rows[r]) || t.rows[r].state in {Lost, CancelUnconfirmed})
      ensures RowOf(u, dep, r) && u.rows[r] == t.rows[r]
    {
      assert Blocks(t.rows[r]);
    }
    assert forall r :: RowOf(u, dep, r) ==> RowOf(t, dep, r) && u.rows[r] == t.rows[r];
  }

  /** Confirmed cleanup that leaves with the agent is kept on the deployment. */
  lemma CleanupIsPreserved(t: Tables, agent: nat, now: int, dep: nat)
    requires RowsOK(t) && !DeletionBlocked(t, agent) && dep in t.deployments
    ensures var u := Purged(t, agent, now);
      dep in u.deployments && OwnCleanup(u, dep) == OwnCleanup(t, dep)
  {
    hide Purged;
    var u := Purged(t, agent, now);
    PurgedRows(t, agent, now);
    PurgedDeployment(t, agent, now, dep);
    var d := t.deployments[dep];
    if d.status == Unclean && d.container.None? && d.confirmed.None? {
      if r :| RowOf(t, dep, r) && t.rows[r].state == CleanupUnconfirmed {
        if s :| RowOf(t, dep, s) && t.rows[s].state == CleanupUnconfirmed && s.agent != agent {
          assert RowOf(u, dep, s) && u.rows[s].state == CleanupUnconfirmed;
        } else {
          assert t.rows[r].confirmed.Some? by { assert r.agent == agent && !Blocks(t.rows[r]); }
          forall s | s in t.rows && s.deployment == dep ensures !Unacknowledged(t.rows[s]) {
            assert RowOf(t, dep, s);
            assert s.agent == agent && t.rows[s].state == CleanupUnconfirmed ==> !Blocks(t.rows[s]);
          }
          assert u.deployments[dep].confirmed.Some?;
        }
      } else {
        forall s | RowOf(u, dep, s) ensures u.rows[s].state != CleanupUnconfirmed {
          assert RowOf(t, dep, s);
        }
        forall r | r in t.rows && r.deployment == dep ensures t.rows[r].confirmed.None? {
          assert RowOf(t, dep, r) && RowOK(r, t.rows[r]);
        }
        assert u.deployments[dep].confirmed.None?;
      }
    }
  }

  /**
   Deleting an agent without blockers leaves the queue of every scope, and the
   container cleanup of every deployment, exactly as they were.
   */
  lemma PurgeLeavesQueuesAlone(t: Tables, agent: nat, now: int)
    requires RowsOK(t) && !DeletionBlocked(t, agent)
    ensures forall environment, project ::
      QueueBlockers(Purged(t, agent, now), environment, project) == QueueBlockers(t, environment, project)
    ensures forall dep ::
      HasUnconfirmedContainerCleanup(Purged(t, agent, now), dep) == HasUnconfirmedContainerCleanup(t, dep)
  {
    hide Purged, OwnCleanup, OpenCleanup, RowsOK, DeletionBlocked, Holding;
    var u := Purged(t, agent, now);
    PurgedRows(t, agent, now);
    forall dep
      ensures HasUnconfirmedContainerCleanup(u, dep) == HasUnconfirmedContainerCleanup(t, dep)
      ensures dep in u.deployments <==> dep in t.deployments
      ensures dep in t.deployments ==>
        && BlocksQueue(u, dep) == BlocksQueue(t, dep)
        && u.deployments[dep].environment == t.deployments[dep].environment
        && u.deployments[dep].project == t.deployments[dep].project
    {
      PurgedDeployment(t, agent, now, dep);
      OthersDecide(t, u, agent, dep);
      if dep in t.deployments {
        CleanupIsPreserved(t, agent, now, dep);
      }
    }
  }

  lemma UpdatedUnblocked(t: Tables, q: Statement, r: Ref)
    requires q.SetStatus? || q.RevokeRuns? || q.RevokeStarted? || q.RevokeUnstarted? || q.FailTerminal?
    requires r in t.rows && !Blocks(t.rows[r])
    ensures !Blocks(Updated(t, q, r))
  {
  }

  lemma ApplyUnblocked(t: Tables, q: Statement, agent: nat)
    requires q.SetStatus? || q.RevokeRuns? || q.FailTerminal?
    requires !DeletionBlocked(t, agent)
    ensures !DeletionBlocked(Apply(t, q), agent)
  {
    hide Rows, Deployments, Agents, Updated, Blocks;
    forall r | r in Rows(t, q) && r.agent == agent ensures !Blocks(Rows(t, q)[r]) {
      RowsAt(t, q, r);
      UpdatedUnblocked(t, q, r);
    }
  }

  /** Without blockers, revoking the agent first adds none. */
  lemma RevokeAddsNoBlockers(t: Tables, agent: nat, now: int)
    requires !DeletionBlocked(t, agent) && RevokeAgent(t, agent, now).Some?
    ensures !DeletionBlocked(RevokeAgent(t, agent, now).value, agent)
  {
    hide Apply, DeletionBlocked, Settles, RevocableClaims;
    if t.agents[agent].status != Revoked {
      var t2 := Barred(t, agent, now);
      var t3 := Settled(t2, agent, now, RevocableClaims(t2, agent));
      ApplyUnblocked(t, SetStatus(agent, Revoked), agent);
      ApplyUnblocked(Apply(t, SetStatus(agent, Revoked)), RevokeRuns(agent, now), agent);
      SettledUnblocked(t2, agent, now, RevocableClaims(t2, agent));
      ApplyUnblocked(t3, FailTerminal, agent);
    }
  }

  lemma SettledUnblocked(t: Tables, agent: nat, now: int, deps: set<nat>)
    requires !DeletionBlocked(t, agent)
    ensures !DeletionBlocked(Settled(t, agent, now, deps), agent)
  {
    hide Updated, Blocks;
    var u := Settled(t, agent, now, deps);
    forall r | r in u.rows && r.agent == agent ensures !Blocks(u.rows[r]) {
      if r.WholeClaim? {
        UpdatedUnblocked(t, RevokeStatement(t, agent, now, r.deployment), r);
      }
    }
  }

  /** The whole deletion changes queues and cleanup by what revoking the agent changes, and no more. */
  lemma DeletionLeavesQueuesAlone(t: Tables, agent: nat, now: int, live: bool, attempted: set<nat>)
    requires Inv(t) && RemoveAgent(t, agent, now, live, attempted).Some?
    ensures RevokeAgent(t, agent, now).Some?
    ensures
      var u, v := RevokeAgent(t, agent, now).value, RemoveAgent(t, agent, now, live, attempted).value;
      && (forall environment, project :: QueueBlockers(v, environment, project) == QueueBlockers(u, environment, project))
      && (forall dep :: HasUnconfirmedContainerCleanup(v, dep) == HasUnconfirmedContainerCleanup(u, dep))
      && agent !in v.agents && forall r :: r in v.rows ==> r.agent != agent
  {
    hide RevokeAgent, Purged, StillReferenced, DeletionBlocked, QueueBlockers, HasUnconfirmedContainerCleanup, Quiet,
         TokensOK, OneClaim, OneHeld, RowsOK;
    var u := RevokeAgent(t, agent, now).value;
    RevokeKeeps(t, agent, now);
    RevokeAddsNoBlockers(t, agent, now);
    PurgeLeavesQueuesAlone(u, agent, now);
    PurgeKeeps(u, agent, now);
  }

  // ----- recovery at startup -----

  lemma CancelledRow(t: Tables, now: int, r: Ref)
    requires r in t.rows
    ensures r in Rows(t, CancelOrphaned(now)) && Rows(t, CancelOrphaned(now))[r] == Updated(t, CancelOrphaned(now), r)
  {
    hide Updated;
  }

  lemma RowsUntouched(t: Tables, q: Statement)
    requires q.MarkUnreconciled? || q.FailOrphaned?
    ensures Rows(t, q) == t.rows
  {
    hide Updated;
    forall r | r in t.rows ensures Updated(t, q, r) == t.rows[r] {
      UpdatedSame(t, q, r);
    }
  }

  lemma RecoveredParts(t: Tables, now: int, local: set<nat>)
    ensures
      var t1 := Apply(t, CancelOrphaned(now));
      var t2 := Apply(t1, MarkUnreconciled(local));
      var u := Recovered(t, now, local);
      && t1.deployments == t.deployments && t2.rows == t1.rows && u.rows == t1.rows
      && u.rows.Keys == t.rows.Keys
      && (forall r :: r in t.rows ==> u.rows[r] == Updated(t, CancelOrphaned(now), r))
      && t2.deployments.Keys == t.deployments.Keys && u.deployments.Keys == t.deployments.Keys
      && (forall dep :: dep in t.deployments ==>
            && t2.deployments[dep] == Written(t1, MarkUnreconciled(local), dep)
            && u.deployments[dep] == Written(t2, FailOrphaned, dep))
  {
    hide Updated, Written, Rows, Agents, Deployments;
    var t1 := Apply(t, CancelOrphaned(now));
    var t2 := Apply(t1, MarkUnreconciled(local));
    RowsUntouched(t1, MarkUnreconciled(local));
    RowsUntouched(t2, FailOrphaned);
    DeploymentAt(t, CancelOrphaned(now));
    DeploymentAt(t1, MarkUnreconciled(local));
    DeploymentAt(t2, FailOrphaned);
    forall dep | dep in t.deployments ensures t1.deployments[dep] == t.deployments[dep] {
      WrittenSame(t, CancelOrphaned(now), dep);
    }
    forall r | r in Rows(t, CancelOrphaned(now)) ensures r in t.rows {
      RowsAt(t, CancelOrphaned(now), r);
    }
    forall r | r in t.rows ensures r in t1.rows && t1.rows[r] == Updated(t, CancelOrphaned(now), r) {
      CancelledRow(t, now, r);
    }
  }

  /** What the first statement of a recovery does to a step run of an orphaned deployment, and to any other row. */
  lemma CancelStates(t: Tables, now: int, r: Ref)
    requires r in t.rows
    ensures
      var w, v := t.rows[r], Updated(t, CancelOrphaned(now), r);
      if r.StepRun? && w.state in {Waiting, Claimed, RunState.Started, CancelRequested}
         && r.deployment in t.deployments && Orphaned(t.deployments[r.deployment], {Running})
      then v.state in {Cancelled, CancelRequested} && v.recovery
           && (w.state == CancelRequested ==> v == w.(recovery := true, updated := now))
      else v == w
  {
  }

  lemma SurvivesFail(t: Tables, dep: nat)
    requires dep in t.deployments && Orphaned(Written(t, FailOrphaned, dep), {Running, Publishing})
    ensures Written(t, FailOrphaned, dep) == t.deployments[dep] && t.HasRun(dep, {CancelRequested})
  {
  }

  lemma SurvivesMark(t: Tables, local: set<nat>, dep: nat)
    requires dep in t.deployments && Orphaned(Written(t, MarkUnreconciled(local), dep), {Running, Publishing})
    ensures Written(t, MarkUnreconciled(local), dep) == t.deployments[dep]
  {
  }

  /** A deployment that waits for a cancelled step run is left alone, and so is one that is not orphaned. */
  lemma WrittenAgain(t: Tables, q: Statement, dep: nat)
    requires (q.MarkUnreconciled? || q.FailOrphaned?) && dep in t.deployments
    requires Orphaned(t.deployments[dep], {Running, Publishing}) ==> t.HasRun(dep, {CancelRequested})
    ensures Written(t, q, dep) == t.deployments[dep]
  {
    if r :| r in t.rows && r.StepRun? && r.deployment == dep && t.rows[r].state in {CancelRequested} {
      assert t.HasRun(dep, {Claimed, RunState.Started, CancelRequested});
    }
  }

  /**
   After recovery every unassigned deployment still running or publishing waits
   for a cancelled step run, and no step run of a running one is still to come
   or under way.
   */
  lemma RecoverySettles(t: Tables, now: int, local: set<nat>, dep: nat)
    requires
      var u := Recovered(t, now, local);
      dep in u.deployments && Orphaned(u.deployments[dep], {Running, Publishing})
    ensures Recovered(t, now, local).HasRun(dep, {CancelRequested})
    ensures Recovered(t, now, local).deployments[dep].status == Running ==>
      !Recovered(t, now, local).HasRun(dep, {Waiting, Claimed, RunState.Started})
  {
    hide Recovered, Apply, Updated, Written;
    RecoveredParts(t, now, local);
    var u := Recovered(t, now, local);
    var t1 := Apply(t, CancelOrphaned(now));
    var t2 := Apply(t1, MarkUnreconciled(local));
    SurvivesFail(t2, dep);
    SurvivesMark(t1, local, dep);
    assert u.HasRun(dep, {CancelRequested});
    if u.deployments[dep].status == Running {
      forall r | r in u.rows && r.StepRun? && r.deployment == dep
        ensures u.rows[r].state !in {Waiting, Claimed, RunState.Started}
      {
        CancelStates(t, now, r);
      }
    }
  }

  /** A second recovery, whenever it runs, changes nothing but the time rows were last touched. */
  lemma RecoveryIsIdempotent(t: Tables, now: int, local: set<nat>, later: int, local': set<nat>)
    ensures
      var u := Recovered(t, now, local);
      var v := Recovered(u, later, local');
      && v.deployments == u.deployments && v.agents == u.agents && v.rows.Keys == u.rows.Keys
      && forall r :: r in u.rows ==> v.rows[r] == u.rows[r].(updated := v.rows[r].updated)
  {
    hide Recovered, Apply, Tables.HasRun, Updated, Written;
    var u := Recovered(t, now, local);
    var v := Recovered(u, later, local');
    RecoveredParts(t, now, local);
    RecoveredParts(u, later, local');
    RecoveryKeeps(u, later, local');
    forall r | r in u.rows ensures v.rows[r] == u.rows[r].(updated := v.rows[r].updated) {
      CancelledOnce(t, u, now, local, later, r);
    }
    forall dep | dep in u.deployments ensures v.deployments[dep] == u.deployments[dep] {
      WrittenOnce(t, now, local, later, local', dep);
    }
  }

  lemma CancelledOnce(t: Tables, u: Tables, now: int, local: set<nat>, later: int, r: Ref)
    requires u == Recovered(t, now, local) && r in t.rows && r in u.rows
    ensures Updated(u, CancelOrphaned(later), r) == u.rows[r].(updated := Updated(u, CancelOrphaned(later), r).updated)
  {
    hide Recovered, Apply, Updated, Written;
    RecoveredParts(t, now, local);
    CancelStates(t, now, r);
    CancelStates(u, later, r);
    var dep := r.deployment;
    if dep in u.deployments && Orphaned(u.deployments[dep], {Running}) {
      var t1 := Apply(t, CancelOrphaned(now));
      SurvivesFail(Apply(t1, MarkUnreconciled(local)), dep);
      SurvivesMark(t1, local, dep);
    }
  }

  lemma WrittenOnce(t: Tables, now: int, local: set<nat>, later: int, local': set<nat>, dep: nat)
    requires dep in t.deployments && dep in Recovered(t, now, local).deployments
    requires dep in Recovered(Recovered(t, now, local), later, local').deployments
    ensures Recovered(Recovered(t, now, local), later, local').deployments[dep] == Recovered(t, now, local).deployments[dep]
  {
    hide Recovered, Apply, Updated, Written;
    var u := Recovered(t, now, local);
    var v := Recovered(u, later, local');
    var t1 := Apply(u, CancelOrphaned(later));
    var t2 := Apply(t1, MarkUnreconciled(local'));
    RecoveredParts(t, now, local);
    RecoveredParts(u, later, local');
    if Orphaned(u.deployments[dep], {Running, Publishing}) {
      RecoverySettles(t, now, local, dep);
      var r :| r in u.rows && r.StepRun? && r.deployment == dep && u.rows[r].state in {CancelRequested};
      CancelledOnce(t, u, now, local, later, r);
      assert v.rows[r].state == CancelRequested;
      assert t1.HasRun(dep, {CancelRequested}) && t2.HasRun(dep, {CancelRequested});
    }
    WrittenAgain(t1, MarkUnreconciled(local'), dep);
    WrittenAgain(t2, FailOrphaned, dep);
  }
}
