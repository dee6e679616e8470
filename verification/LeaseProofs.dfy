/** What every run of the lease protocol keeps, and what follows for its rows. */
module LeaseProofs {
  import opened LeaseTables
  import opened LeaseProtocol

  // ----- the rows after a statement -----

  lemma RowsAt(t: Tables, q: Statement, r: Ref)
    requires r in Rows(t, q)
    ensures r in t.rows ==> !Deleted(q, r) && Rows(t, q)[r] == Updated(t, q, r)
    ensures r !in t.rows ==> r in Inserted(t, q) && Rows(t, q)[r] == FRESH.(updated := Rows(t, q)[r].updated)
  {
    hide Updated;
  }

  // ----- steps that only move rows on -----

  /** A step in which no row is claimed or comes to hold its agent. */
  ghost predicate QuietRow(r: Ref, w: Row, v: Row) {
    && Advances(w.state, v.state)
    && (v.token == w.token || v.token.None?)
    && (RowOK(r, w) ==> RowOK(r, v) && (Holding(v) ==> Holding(w)))
    && (v.state in {Claimed, RunState.Started} ==> v.state == w.state)
    && (v.state == Claimed ==> v.token == w.token && v.expires == w.expires)
    && v.confirmed == w.confirmed
  }

  ghost predicate Quiet(t: Tables, u: Tables) {
    u.issued == t.issued && forall r :: r in u.rows ==> r in t.rows && QuietRow(r, t.rows[r], u.rows[r])
  }

  lemma QuietTrans(t: Tables, u: Tables, v: Tables)
    requires Quiet(t, u) && Quiet(u, v)
    ensures Quiet(t, v)
  {
  }

  lemma QuietKeeps(t: Tables, u: Tables)
    requires Quiet(t, u) && Shaped(t)
    ensures Shaped(u)
    ensures forall agent :: Idle(t, agent) ==> Idle(u, agent)
  {
    hide RowOK, Advances, Holding;
  }

  /** Statements that insert nothing and neither claim, start, finish nor confirm. */
  predicate Background(q: Statement) {
    !q.Claim? && !q.Start? && !q.CreateRuns? && !q.CreateClaim? && !q.Finish? && !q.ConfirmCleanup?
  }

  lemma QuietApply(t: Tables, q: Statement)
    requires Background(q)
    ensures Quiet(t, Apply(t, q))
  {
    hide Updated, RowOK, Holding, Advances, Deployments, Agents, Rows;
    forall r | r in Rows(t, q) ensures r in t.rows && QuietRow(r, t.rows[r], Rows(t, q)[r]) {
      RowsAt(t, q, r);
      UpdatedSteps(t, q, r);
    }
  }

  lemma QuietSelf(t: Tables)
    ensures Quiet(t, t)
  {
  }

  lemma QuietSettled(t: Tables, agent: nat, now: int, deps: set<nat>)
    ensures Quiet(t, Settled(t, agent, now, deps))
  {
    hide Updated, RowOK, Holding;
    var u := Settled(t, agent, now, deps);
    forall r | r in u.rows ensures r in t.rows && QuietRow(r, t.rows[r], u.rows[r]) {
      if r.WholeClaim? && r.agent == agent && r.deployment in deps {
        UpdatedSteps(t, RevokeStatement(t, agent, now, r.deployment), r);
      }
    }
  }

  // ----- any statement keeps the shape of the tables -----

  /** Every row after a statement was there before, or is a new waiting row. */
  ghost predicate Stepped(t: Tables, q: Statement, rows: map<Ref, Row>) {
    forall r :: r in rows ==>
      if r in t.rows then RowStep(t, q, r, t.rows[r], rows[r])
      else r in Inserted(t, q) && RowOK(r, rows[r]) && rows[r].token.None? && !Holding(rows[r])
  }

  lemma RowsStepped(t: Tables, q: Statement)
    requires Sane(q)
    ensures Stepped(t, q, Rows(t, q))
  {
    hide Updated, RowOK, Holding, Rows, Inserted, RowStep;
    forall r | r in Rows(t, q)
      ensures if r in t.rows then RowStep(t, q, r, t.rows[r], Rows(t, q)[r])
              else r in Inserted(t, q) && RowOK(r, Rows(t, q)[r]) && Rows(t, q)[r].token.None? && !Holding(Rows(t, q)[r])
    {
      RowsAt(t, q, r);
      if r in t.rows {
        UpdatedSteps(t, q, r);
      } else {
        FreshRowOK(r, Rows(t, q)[r]);
      }
    }
  }

  lemma ApplyShaped(t: Tables, q: Statement)
    requires Shaped(t) && Sane(q) && Fresh(t, q)
    ensures Shaped(Apply(t, q))
  {
    hide RowsOK, TokensOK, OneClaim, OneHeld, Stepped, Rows, Agents, Deployments;
    RowsStepped(t, q);
    StepRows(t, q, Apply(t, q));
    StepTokens(t, q, Apply(t, q));
    StepClaims(t, q, Apply(t, q));
    StepHeld(t, q, Apply(t, q));
  }

  lemma StepRows(t: Tables, q: Statement, u: Tables)
    requires RowsOK(t) && Stepped(t, q, u.rows)
    ensures RowsOK(u)
  {
    hide RowOK, Advances, Holding, Claimable, Inserted;
  }

  lemma StepTokens(t: Tables, q: Statement, u: Tables)
    requires TokensOK(t) && Fresh(t, q) && Stepped(t, q, u.rows) && u.issued == Issued(t, q)
    ensures TokensOK(u)
  {
    hide RowOK, Advances, Holding, Claimable, Inserted;
  }

  lemma StepClaims(t: Tables, q: Statement, u: Tables)
    requires OneClaim(t) && Stepped(t, q, u.rows)
    ensures OneClaim(u)
  {
    hide RowOK, Inserted, RowStep, Holding;
    InsertedAlone(t, q);
  }

  lemma StepHeld(t: Tables, q: Statement, u: Tables)
    requires RowsOK(t) && OneHeld(t) && Stepped(t, q, u.rows)
    ensures OneHeld(u)
  {
    hide RowOK, Advances, Holding, Claimable, Inserted;
    if q.Claim? && q.ref in t.rows && Claimable(t, q.ref, q.expires, q.now, q.eligible) {
      ClaimedAlone(t, q);
    }
  }

  lemma FreshRowOK(r: Ref, w: Row)
    requires w == FRESH.(updated := w.updated)
    ensures RowOK(r, w) && !Holding(w)
  {
  }

  lemma InsertedAlone(t: Tables, q: Statement)
    ensures forall r: Ref, s: Ref ::
      (r in Inserted(t, q) && r.WholeClaim? && s.WholeClaim? && r.deployment == s.deployment
       && (s in t.rows || s in Inserted(t, q))) ==> r == s
  {
  }

  lemma ClaimedAlone(t: Tables, q: Statement)
    requires q.Claim? && q.ref in t.rows && Claimable(t, q.ref, q.expires, q.now, q.eligible)
    ensures q.ref.WholeClaim? ==>
      forall r :: r in t.rows && r.WholeClaim? && r.agent == q.ref.agent && Holding(t.rows[r]) ==> r == q.ref
  {
  }

  lemma ApplyIdle(t: Tables, q: Statement, agent: nat)
    requires RowsOK(t) && Sane(q) && Idle(t, agent) && !t.ActiveAgent(agent)
    ensures Idle(Apply(t, q), agent)
  {
    hide Updated, RowOK, Deployments, Agents, Rows, Inserted;
    forall r | r in Rows(t, q) && r.agent == agent ensures !Holding(Rows(t, q)[r]) {
      RowsAt(t, q, r);
      if r in t.rows {
        UpdatedSteps(t, q, r);
      }
    }
  }

  // ----- transactions -----

  /** Revoking moves every live row of the agent out of the way, and nothing else anywhere into it. */
  lemma RevokeKeeps(t: Tables, agent: nat, now: int)
    requires Shaped(t) && RevokeAgent(t, agent, now).Some?
    ensures var u := RevokeAgent(t, agent, now).value;
      && Quiet(t, u) && Shaped(u) && (RevokedIdle(t) ==> Idle(u, agent))
      && agent in u.agents && u.agents == t.agents[agent := t.agents[agent].(status := Revoked)]
  {
    hide Updated, Deployments, Rows, QuietRow, RowsOK, TokensOK, OneClaim, OneHeld, Quiet, RevocableClaims, Settles;
    QuietSelf(t);
    if t.agents[agent].status != Revoked {
      var t1 := Apply(t, SetStatus(agent, Revoked));
      var t2 := Apply(t1, RevokeRuns(agent, now));
      var deps := RevocableClaims(t2, agent);
      var t3 := Settled(t2, agent, now, deps);
      QuietApply(t, SetStatus(agent, Revoked));
      QuietApply(t1, RevokeRuns(agent, now));
      QuietSettled(t2, agent, now, deps);
      QuietApply(t3, FailTerminal);
      QuietTrans(t, t1, t2);
      QuietTrans(t, t2, t3);
      QuietTrans(t, t3, Apply(t3, FailTerminal));
      QuietKeeps(t, t3);
      QuietKeeps(t, t2);
      RevokedRunsIdle(t1, agent, now);
      SettledIdle(t2, agent, now);
      QuietKeeps(t3, Apply(t3, FailTerminal));
    }
    QuietKeeps(t, RevokeAgent(t, agent, now).value);
  }

  lemma RevokedRunsIdle(t: Tables, agent: nat, now: int)
    ensures forall r :: r in Rows(t, RevokeRuns(agent, now)) && r.StepRun? && r.agent == agent ==>
      !Holding(Rows(t, RevokeRuns(agent, now))[r])
  {
  }

  /** The statement chosen for a live claim always finds it, and leaves it settled. */
  lemma RevokeFinds(t: Tables, agent: nat, now: int, dep: nat)
    requires Revocable(t, agent, dep) && RowOK(WholeClaim(dep, agent), t.rows[WholeClaim(dep, agent)])
    ensures
      var r := WholeClaim(dep, agent);
      var v := Updated(t, RevokeStatement(t, agent, now, dep), r);
      v != t.rows[r] && !Holding(v)
  {
  }

  /** The two statements split the claims between them: whatever is live before is settled after. */
  lemma SettledIdle(t: Tables, agent: nat, now: int)
    requires RowsOK(t) && forall r :: r in t.rows && r.StepRun? && r.agent == agent ==> !Holding(t.rows[r])
    ensures Idle(Settled(t, agent, now, RevocableClaims(t, agent)), agent)
  {
    hide Updated, RowOK;
    var u := Settled(t, agent, now, RevocableClaims(t, agent));
    forall r | r in u.rows && r.agent == agent ensures !Holding(u.rows[r]) {
      if r.WholeClaim? && Holding(t.rows[r]) {
        assert Revocable(t, agent, r.deployment);
        assert r.deployment in RevocableClaims(t, agent);
        RevokeFinds(t, agent, now, r.deployment);
      } else if r.WholeClaim? {
        assert !Holding(u.rows[r]) by { hide Revocable; UpdatedSettled(t, agent, now, r); }
      }
    }
  }

  lemma UpdatedSettled(t: Tables, agent: nat, now: int, r: Ref)
    requires r in t.rows && r == WholeClaim(r.deployment, agent) && RowOK(r, t.rows[r]) && !Holding(t.rows[r])
    ensures !Holding(Updated(t, RevokeStatement(t, agent, now, r.deployment), r))
  {
  }

  /**
   The claim statement chosen by whether the claim was started always finds its
   row, so a revocation is rolled back only for a deployment that has moved on.
   */
  lemma RevokeSplits(t: Tables, agent: nat, now: int)
    requires RowsOK(t) && agent in t.agents && t.agents[agent].status != Revoked
    ensures
      var u := Barred(t, agent, now);
      RevokeAgent(t, agent, now).Some? <==> forall dep :: dep in RevocableClaims(u, agent) ==> u.AssignedIn(dep, agent, TERMINABLE)
  {
    hide Rows, Deployments, Agents, Tables.AssignedIn, Updated, RowOK;
    var t1 := Apply(t, SetStatus(agent, Revoked));
    var u := Barred(t, agent, now);
    QuietApply(t, SetStatus(agent, Revoked));
    QuietApply(t1, RevokeRuns(agent, now));
    forall dep | dep in RevocableClaims(u, agent)
      ensures Settles(u, agent, now, dep) == u.AssignedIn(dep, agent, TERMINABLE)
    {
      var r := WholeClaim(dep, agent);
      assert RowOK(r, t.rows[r]) && RowOK(r, t1.rows[r]) && RowOK(r, u.rows[r]);
      RevokeFinds(u, agent, now, dep);
    }
  }

  lemma PurgeKeeps(t: Tables, agent: nat, now: int)
    ensures var u := Purged(t, agent, now);
      Quiet(t, u) && u.agents == t.agents - {agent} && forall r :: r in u.rows ==> r.agent != agent
  {
    hide Quiet, Deployments, Rows;
    var t1 := Apply(t, PreserveCleanup(agent, now));
    var t2 := Apply(t1, DeleteRuns(agent));
    var t3 := Apply(t2, DeleteClaims(agent));
    var t4 := Apply(t3, Detach(agent));
    QuietApply(t, PreserveCleanup(agent, now));
    QuietApply(t1, DeleteRuns(agent));
    QuietApply(t2, DeleteClaims(agent));
    QuietApply(t3, Detach(agent));
    QuietApply(t4, DeleteAgentRow(agent));
    QuietTrans(t, t1, t2);
    QuietTrans(t, t2, t3);
    QuietTrans(t, t3, t4);
    QuietTrans(t, t4, Purged(t, agent, now));
    RowsGone(t1, agent);
    RowsGone(t2, agent);
    QuietKeys(t2, t3);
    QuietKeys(t3, t4);
    QuietKeys(t4, Purged(t, agent, now));
  }

  lemma QuietKeys(t: Tables, u: Tables)
    requires Quiet(t, u)
    ensures u.rows.Keys <= t.rows.Keys
  {
  }

  lemma RowsGone(t: Tables, agent: nat)
    ensures forall r: Ref :: r in Rows(t, DeleteRuns(agent)) && r.agent == agent ==> r.WholeClaim?
    ensures forall r: Ref :: r in Rows(t, DeleteClaims(agent)) && r.agent == agent ==> r.StepRun?
  {
    hide Updated;
  }

  lemma RecoveryKeeps(t: Tables, now: int, local: set<nat>)
    ensures Quiet(t, Recovered(t, now, local)) && Recovered(t, now, local).agents == t.agents
  {
    hide Quiet, Deployments, Rows;
    var t1 := Apply(t, CancelOrphaned(now));
    var t2 := Apply(t1, MarkUnreconciled(local));
    QuietApply(t, CancelOrphaned(now));
    QuietApply(t1, MarkUnreconciled(local));
    QuietApply(t2, FailOrphaned);
    QuietTrans(t, t1, t2);
    QuietTrans(t, t2, Recovered(t, now, local));
  }

  lemma RepairKeeps(t: Tables, agent: nat)
    requires RepairAgent(t, agent).Some?
    ensures var u := RepairAgent(t, agent).value;
      Quiet(t, u) && agent in t.agents && t.agents[agent].status == Revoked
      && u.agents == t.agents[agent := Agent(Registered, false, Committing)]
  {
    hide Quiet, Deployments, Rows;
    var t1 := Apply(t, SetPairing(agent, Committing));
    QuietApply(t, SetPairing(agent, Committing));
    QuietApply(t1, ResetForPairing(agent));
    QuietTrans(t, t1, Apply(t1, ResetForPairing(agent)));
    var a := Agent(Registered, false, Committing);
    assert t1.agents[agent := a] == t.agents[agent := a];
  }

  // ----- the invariant -----

  lemma RevokedBefore(t: Tables, q: Statement, agent: nat)
    requires Allowed(t, q) && agent in Agents(t, q) && Agents(t, q)[agent].status == Revoked
    ensures agent in t.agents && t.agents[agent].status == Revoked
  {
  }

  lemma InvPlain(t: Tables, q: Statement)
    requires Inv(t) && Allowed(t, q)
    ensures Inv(Apply(t, q))
  {
    hide Shaped, Idle, Rows, Deployments, Agents, RowsOK;
    ApplyShaped(t, q);
    var u := Apply(t, q);
    forall agent | agent in u.agents && u.agents[agent].status == Revoked
      ensures Idle(u, agent)
    {
      ShapedRows(t);
      RevokedBefore(t, q, agent);
      ApplyIdle(t, q, agent);
    }
  }

  lemma ShapedRows(t: Tables)
    requires Shaped(t)
    ensures RowsOK(t)
  {
  }

  lemma InvQuiet(t: Tables, u: Tables, agent: nat)
    requires Inv(t) && Quiet(t, u)
    requires forall a :: a in u.agents && u.agents[a].status == Revoked ==>
      (a in t.agents && t.agents[a].status == Revoked) || (a == agent && Idle(u, agent))
    ensures Inv(u)
  {
    hide Shaped, Quiet, Idle;
    QuietKeeps(t, u);
  }

  lemma InvNext(t: Tables, a: Action)
    requires Inv(t) && Enabled(t, a)
    ensures Inv(Next(t, a))
  {
    hide Shaped, Quiet, Idle, Purged, Recovered, RepairAgent, RevokeAgent, Apply, StillReferenced, DeletionBlocked, Allowed;
    match a {
      case Plain(q) =>
        InvPlain(t, q);
      case Revoke(agent, now) =>
        if RevokeAgent(t, agent, now).Some? {
          RevokeKeeps(t, agent, now);
          InvQuiet(t, RevokeAgent(t, agent, now).value, agent);
        }
      case Remove(agent, now, live, attempted) =>
        if RemoveAgent(t, agent, now, live, attempted).Some? {
          var u := RevokeAgent(t, agent, now).value;
          RevokeKeeps(t, agent, now);
          InvQuiet(t, u, agent);
          PurgeKeeps(u, agent, now);
          InvQuiet(u, Purged(u, agent, now), agent);
        }
      case Repair(agent) =>
        if RepairAgent(t, agent).Some? {
          RepairKeeps(t, agent);
          InvQuiet(t, RepairAgent(t, agent).value, agent);
        }
      case Recover(now, local) =>
        RecoveryKeeps(t, now, local);
        InvQuiet(t, Recovered(t, now, local), 0);
    }
  }

  /** Every state of every run satisfies the invariant. */
  lemma {:induction false} InvRun(run: seq<Tables>, acts: seq<Action>, k: nat)
    requires IsRun(run, acts) && k < |run|
    ensures Inv(run[k])
  {
    hide Next, Enabled;
    if k > 0 {
      InvRun(run, acts, k - 1);
      InvNext(run[k - 1], acts[k - 1]);
    }
  }
}
