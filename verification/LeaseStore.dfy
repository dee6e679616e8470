/** The transactions of the lease protocol as they run, statement by statement. */
module LeaseStore {
  import opened LeaseTables
  import opened LeaseProtocol
  import LeaseTransactions

  /** Settling one more claim by its two statements is settling it along with the others. */
  lemma SettleOne(t: Tables, agent: nat, now: int, done: set<nat>, dep: nat)
    requires dep !in done && WholeClaim(dep, agent) in t.rows
    ensures
      var s := Settled(t, agent, now, done);
      var q := RevokeStatement(t, agent, now, dep);
      var v := Apply(s, q);
      && (v.rows != s.rows <==> Updated(t, q, WholeClaim(dep, agent)) != t.rows[WholeClaim(dep, agent)])
      && Apply(v, Terminate(dep, agent)) == Settled(t, agent, now, done + {dep})
      && (Apply(v, Terminate(dep, agent)).deployments != v.deployments <==> t.AssignedIn(dep, agent, TERMINABLE))
  {
    hide Updated, Written, Rows, Deployments, Tables.AssignedIn, Settled;
    var s := Settled(t, agent, now, done);
    var q := RevokeStatement(t, agent, now, dep);
    var v := Apply(s, q);
    var u := Settled(t, agent, now, done + {dep});
    SettleRow(t, agent, now, done, dep);
    SettleDeployment(t, agent, now, done, dep);
  }

  lemma RowsInPlace(t: Tables, q: Statement)
    requires q.RevokeStarted? || q.RevokeUnstarted? || q.Terminate?
    ensures Rows(t, q).Keys == t.rows.Keys
    ensures forall r :: r in t.rows ==> Rows(t, q)[r] == Updated(t, q, r)
  {
    hide Updated;
  }

  lemma SettledRows(t: Tables, agent: nat, now: int, deps: set<nat>)
    ensures
      var s := Settled(t, agent, now, deps);
      && s.rows.Keys == t.rows.Keys && s.agents == t.agents && s.issued == t.issued
      && forall r :: r in t.rows ==>
           s.rows[r] == if r.WholeClaim? && r.agent == agent && r.deployment in deps
                        then Updated(t, RevokeStatement(t, agent, now, r.deployment), r) else t.rows[r]
  {
    hide Updated, Written;
  }

  lemma SettledDeployments(t: Tables, agent: nat, now: int, deps: set<nat>)
    ensures
      var s := Settled(t, agent, now, deps);
      && s.deployments.Keys == t.deployments.Keys
      && forall dep :: dep in t.deployments ==>
           s.deployments[dep] == if dep in deps then Written(t, Terminate(dep, agent), dep) else t.deployments[dep]
  {
    hide Updated, Written;
  }

  lemma SettleRow(t: Tables, agent: nat, now: int, done: set<nat>, dep: nat)
    requires dep !in done && WholeClaim(dep, agent) in t.rows
    ensures
      var s := Settled(t, agent, now, done);
      var q := RevokeStatement(t, agent, now, dep);
      && Rows(s, q) == Settled(t, agent, now, done + {dep}).rows
      && Rows(Apply(s, q), Terminate(dep, agent)) == Rows(s, q)
      && (Rows(s, q) != s.rows <==> Updated(t, q, WholeClaim(dep, agent)) != t.rows[WholeClaim(dep, agent)])
      && Settled(t, agent, now, done + {dep}).agents == s.agents == t.agents
      && Settled(t, agent, now, done + {dep}).issued == s.issued == t.issued
  {
    hide Updated, Deployments, Settled, Rows;
    var s := Settled(t, agent, now, done);
    var q := RevokeStatement(t, agent, now, dep);
    var c := WholeClaim(dep, agent);
    SettledRows(t, agent, now, done);
    SettledRows(t, agent, now, done + {dep});
    RowsInPlace(s, q);
    RowsInPlace(Apply(s, q), Terminate(dep, agent));
    forall r | r in s.rows ensures Updated(s, q, r) == if r == c then Updated(t, q, r) else s.rows[r] {
      RevokeTouchesOne(s, t, q, dep, agent, now, r);
    }
    forall r | r in Rows(s, q) ensures Updated(Apply(s, q), Terminate(dep, agent), r) == Rows(s, q)[r] {
      TerminateTouchesNone(Apply(s, q), dep, agent, r);
    }
    if Updated(t, q, c) != t.rows[c] {
      assert Rows(s, q)[c] != s.rows[c];
    }
  }

  lemma RevokeTouchesOne(s: Tables, t: Tables, q: Statement, dep: nat, agent: nat, now: int, r: Ref)
    requires q == RevokeStarted(dep, agent, now) || q == RevokeUnstarted(dep, agent, now)
    requires r in s.rows
    ensures r != WholeClaim(dep, agent) ==> Updated(s, q, r) == s.rows[r]
    ensures r == WholeClaim(dep, agent) && r in t.rows && t.rows[r] == s.rows[r] ==> Updated(s, q, r) == Updated(t, q, r)
  {
  }

  lemma TerminateTouchesNone(t: Tables, dep: nat, agent: nat, r: Ref)
    requires r in t.rows
    ensures Updated(t, Terminate(dep, agent), r) == t.rows[r]
  {
  }

  lemma SettleDeployment(t: Tables, agent: nat, now: int, done: set<nat>, dep: nat)
    requires dep !in done && WholeClaim(dep, agent) in t.rows
    ensures
      var s := Settled(t, agent, now, done);
      var v := Apply(s, RevokeStatement(t, agent, now, dep));
      && Deployments(v, Terminate(dep, agent)) == Settled(t, agent, now, done + {dep}).deployments
      && (Deployments(v, Terminate(dep, agent)) != v.deployments <==> t.AssignedIn(dep, agent, TERMINABLE))
  {
    hide Updated, Rows, Settled, Written, Deployments;
    var s := Settled(t, agent, now, done);
    var q := RevokeStatement(t, agent, now, dep);
    var v := Apply(s, q);
    SettledDeployments(t, agent, now, done);
    SettledDeployments(t, agent, now, done + {dep});
    LeaseTransactions.DeploymentAt(s, q);
    LeaseTransactions.DeploymentAt(v, Terminate(dep, agent));
    forall d | d in t.deployments
      ensures v.deployments[d] == s.deployments[d]
      ensures Written(v, Terminate(dep, agent), d) == if d == dep then Written(t, Terminate(dep, agent), d) else v.deployments[d]
    {
      TerminateWritesOne(s, t, q, dep, agent, now, d);
      TerminateWritesOne(v, t, q, dep, agent, now, d);
    }
    assert v.deployments == s.deployments;
    if dep in t.deployments {
      TerminateWritesOne(v, t, q, dep, agent, now, dep);
    }
  }

  lemma TerminateWritesOne(s: Tables, t: Tables, q: Statement, dep: nat, agent: nat, now: int, d: nat)
    requires q == RevokeStarted(dep, agent, now) || q == RevokeUnstarted(dep, agent, now)
    requires d in s.deployments
    ensures Written(s, q, d) == s.deployments[d]
    ensures d != dep ==> Written(s, Terminate(dep, agent), d) == s.deployments[d]
    ensures d in t.deployments && t.deployments[d] == s.deployments[d] && d == dep ==>
      && Written(s, Terminate(dep, agent), d) == Written(t, Terminate(dep, agent), d)
      && (Written(t, Terminate(dep, agent), d) != t.deployments[d] <==> t.AssignedIn(dep, agent, TERMINABLE))
  {
  }

  lemma SettledNone(t: Tables, agent: nat, now: int)
    ensures Settled(t, agent, now, {}) == t
  {
    var s := Settled(t, agent, now, {});
    assert s.rows == t.rows && s.deployments == t.deployments;
  }

  lemma ResetChanges(t: Tables, agent: nat)
    ensures Resettable(t, agent) <==> Agents(t, ResetForPairing(agent)) != t.agents
  {
    if Resettable(t, agent) {
      assert Agents(t, ResetForPairing(agent))[agent].status != t.agents[agent].status;
    }
  }

  class Database {
    var rows: map<Ref, Row>
    var agents: map<nat, Agent>
    var deployments: map<nat, Deployment>
    var issued: set<nat>

    constructor ()
      ensures Contents() == EMPTY
    {
      rows, agents, deployments, issued := map[], map[], map[], {};
    }

    function Contents(): Tables
      reads this
    {
      Tables(rows, agents, deployments, issued)
    }

    method Exec(q: Statement)
      modifies this
      ensures Contents() == Apply(old(Contents()), q)
    {
      var t := Contents();
      rows := Rows(t, q);
      agents := LeaseTables.Agents(t, q);
      deployments := LeaseTables.Deployments(t, q);
      issued := Issued(t, q);
    }

    method Rollback(t: Tables)
      modifies this
      ensures Contents() == t
    {
      rows, agents, deployments, issued := t.rows, t.agents, t.deployments, t.issued;
    }

    /** Revoke an agent in one transaction: its step runs, then claim by claim, then what they leave behind. */
    method RevokeAgent(agent: nat, now: int) returns (ok: bool)
      modifies this
      ensures ok == LeaseProtocol.RevokeAgent(old(Contents()), agent, now).Some?
      ensures Contents() == LeaseProtocol.RevokeAgent(old(Contents()), agent, now).GetOr(old(Contents()))
    {
      hide Rows, LeaseTables.Deployments, LeaseTables.Agents, Updated, Settled;
      var start := Contents();
      if agent !in agents {
        return false;
      }
      if agents[agent].status == Revoked {
        return true;
      }
      Exec(SetStatus(agent, Revoked));
      Exec(RevokeRuns(agent, now));
      var listed := Contents();
      var claims := RevocableClaims(listed, agent);
      var todo := claims;
      SettledNone(listed, agent, now);
      assert claims - todo == {};
      while todo != {}
        invariant todo <= claims
        invariant Contents() == Settled(listed, agent, now, claims - todo)
        invariant forall dep :: dep in claims - todo ==> Settles(listed, agent, now, dep)
      {
        var dep :| dep in todo;
        SettleOne(listed, agent, now, claims - todo, dep);
        var before := Contents();
        Exec(RevokeStatement(listed, agent, now, dep));
        if rows == before.rows {
          Rollback(start);
          return false;
        }
        before := Contents();
        Exec(Terminate(dep, agent));
        if deployments == before.deployments {
          Rollback(start);
          return false;
        }
        assert claims - (todo - {dep}) == claims - todo + {dep};
        todo := todo - {dep};
      }
      assert claims - todo == claims;
      Exec(FailTerminal);
      ok := true;
    }

    /** Delete an agent whose work is all accounted for, keeping the history of its deployments. */
    method DeleteAgent(agent: nat, now: int, live: bool, attempted: set<nat>) returns (ok: bool)
      modifies this
      ensures ok == RemoveAgent(old(Contents()), agent, now, live, attempted).Some?
      ensures Contents() == RemoveAgent(old(Contents()), agent, now, live, attempted).GetOr(old(Contents()))
    {
      hide Rows, LeaseTables.Deployments, LeaseTables.Agents, LeaseProtocol.RevokeAgent, StillReferenced, DeletionBlocked;
      var start := Contents();
      if agent !in agents || live || DeletionBlocked(Contents(), agent) {
        return false;
      }
      ok := RevokeAgent(agent, now);
      if !ok {
        return;
      }
      if StillReferenced(Contents(), agent, attempted) {
        Rollback(start);
        return false;
      }
      Exec(PreserveCleanup(agent, now));
      Exec(DeleteRuns(agent));
      Exec(DeleteClaims(agent));
      Exec(Detach(agent));
      Exec(DeleteAgentRow(agent));
    }

    /** Pair a revoked agent again. */
    method ResetRevokedPairing(agent: nat) returns (ok: bool)
      modifies this
      ensures ok == RepairAgent(old(Contents()), agent).Some?
      ensures Contents() == RepairAgent(old(Contents()), agent).GetOr(old(Contents()))
    {
      hide Rows, LeaseTables.Deployments, Resettable;
      var start := Contents();
      if agent !in agents || agents[agent].status != Revoked || agents[agent].pairing == Unpaired {
        return false;
      }
      Exec(SetPairing(agent, Committing));
      var before := Contents();
      ResetChanges(before, agent);
      Exec(ResetForPairing(agent));
      if agents == before.agents {
        Rollback(start);
        return false;
      }
      ok := true;
    }

    /** Startup recovery of deployments that no runner is looking after. */
    method RecoverPendingDeployments(now: int, local: set<nat>)
      modifies this
      ensures Contents() == Recovered(old(Contents()), now, local)
      ensures forall dep :: dep in deployments && Orphaned(deployments[dep], {Running, Publishing}) ==>
        && Contents().HasRun(dep, {CancelRequested})
        && (deployments[dep].status == Running ==> !Contents().HasRun(dep, {Waiting, Claimed, RunState.Started}))
    {
      ghost var start := Contents();
      Exec(CancelOrphaned(now));
      Exec(MarkUnreconciled(local));
      Exec(FailOrphaned);
      forall dep | dep in deployments && Orphaned(deployments[dep], {Running, Publishing})
        ensures Contents().HasRun(dep, {CancelRequested})
        ensures deployments[dep].status == Running ==> !Contents().HasRun(dep, {Waiting, Claimed, RunState.Started})
      {
        LeaseTransactions.RecoverySettles(start, now, local, dep);
      }
    }
  }
}
