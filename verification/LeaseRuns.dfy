/** Safety over whole runs of the lease protocol. */
module LeaseRuns {
  import opened Common
  import opened LeaseTables
  import opened LeaseProtocol
  import opened LeaseProofs

  // ----- one action, one row -----

  /** What any action may do to a row that it leaves in place. */
  ghost predicate Moves(t: Tables, a: Action, r: Ref, w: Row, v: Row) {
    && Advances(w.state, v.state)
    && (v.token == w.token || v.token.None? || v.token.value !in t.issued)
    && (v.state == Claimed && w.state != Claimed ==> a.Plain? && a.q.Claim? && a.q.ref == r && !t.DirtyAgent(r.agent))
    && (v.state == Claimed && w.state != Claimed ==> v.token == Some(a.q.token) && v.expires == Some(a.q.expires))
    && (v.state == Claimed && w.state == Claimed ==> v.token == w.token && v.expires == w.expires)
    && (v.state == RunState.Started && w.state != RunState.Started ==>
          && w.state == Claimed && t.PairedAgent(r.agent) && a.Plain? && a.q.Start? && a.q.ref == r
          && w.token == Some(a.q.token) && w.expires.Some? && a.q.now < w.expires.value)
    && (v.confirmed != w.confirmed ==> a.Plain? && a.q.ConfirmCleanup? && a.q.agent == r.agent && a.q.runs == r.StepRun?)
  }

  ghost predicate Stepwise(t: Tables, a: Action, u: Tables) {
    && t.issued <= u.issued
    && forall r :: r in u.rows ==>
         if r in t.rows then Moves(t, a, r, t.rows[r], u.rows[r])
         else u.rows[r].state == Waiting && u.rows[r].token.None?
  }

  lemma PlainStepwise(t: Tables, q: Statement)
    requires Inv(t) && Allowed(t, q)
    ensures Stepwise(t, Plain(q), Apply(t, q))
  {
    hide Updated, Advances, Rows, Deployments, Agents, Inserted, TokensOK, OneClaim, OneHeld, RevokedIdle, Tables.DirtyAgent, Tables.PairedAgent;
    forall r | r in Rows(t, q)
      ensures if r in t.rows then Moves(t, Plain(q), r, t.rows[r], Rows(t, q)[r])
              else Rows(t, q)[r].state == Waiting && Rows(t, q)[r].token.None?
    {
      RowsAt(t, q, r);
      if r in t.rows {
        UpdatedSteps(t, q, r);
      }
    }
  }

  lemma QuietStepwise(t: Tables, a: Action, u: Tables)
    requires Quiet(t, u)
    ensures Stepwise(t, a, u)
  {
    hide RowOK, Holding, Advances;
  }

  lemma NextStepwise(t: Tables, a: Action)
    requires Inv(t) && Enabled(t, a)
    ensures Stepwise(t, a, Next(t, a))
  {
    hide Stepwise, Quiet, Purged, Recovered, RepairAgent, RevokeAgent, Apply, StillReferenced, DeletionBlocked, Allowed, Shaped, RevokedIdle;
    match a {
      case Plain(q) =>
        PlainStepwise(t, q);
      case Revoke(agent, now) =>
        QuietSelf(t);
        if RevokeAgent(t, agent, now).Some? { RevokeKeeps(t, agent, now); }
        QuietStepwise(t, a, Next(t, a));
      case Remove(agent, now, live, attempted) =>
        QuietSelf(t);
        if RemoveAgent(t, agent, now, live, attempted).Some? {
          var u := RevokeAgent(t, agent, now).value;
          RevokeKeeps(t, agent, now);
          PurgeKeeps(u, agent, now);
          QuietTrans(t, u, Purged(u, agent, now));
        }
        QuietStepwise(t, a, Next(t, a));
      case Repair(agent) =>
        QuietSelf(t);
        if RepairAgent(t, agent).Some? { RepairKeeps(t, agent); }
        QuietStepwise(t, a, Next(t, a));
      case Recover(now, local) =>
        RecoveryKeeps(t, now, local);
        QuietStepwise(t, a, Next(t, a));
    }
  }

  lemma RunStepwise(run: seq<Tables>, acts: seq<Action>, k: nat)
    requires IsRun(run, acts) && k < |acts|
    ensures Inv(run[k]) && Stepwise(run[k], acts[k], run[k + 1])
  {
    hide Stepwise, Inv, Next, Enabled;
    InvRun(run, acts, k);
    NextStepwise(run[k], acts[k]);
  }

  // ----- ranks, starts and tokens -----

  /** The row exists from the i-th to the j-th state of the run. */
  ghost predicate Lives(run: seq<Tables>, r: Ref, i: nat, j: nat)
    requires j < |run|
  {
    forall k :: i <= k <= j ==> r in run[k].rows
  }

  function StateAt(run: seq<Tables>, r: Ref, k: nat): RunState
    requires k < |run| && r in run[k].rows
  {
    run[k].rows[r].state
  }

  /** While a row lives its rank never drops: only waiting and claimed alternate, and terminal states are final. */
  lemma {:induction false} RanksNeverDrop(run: seq<Tables>, acts: seq<Action>, r: Ref, i: nat, j: nat)
    requires IsRun(run, acts) && i <= j < |run| && Lives(run, r, i, j)
    ensures Advances(StateAt(run, r, i), StateAt(run, r, j))
    ensures Terminal(StateAt(run, r, i)) ==> StateAt(run, r, j) == StateAt(run, r, i)
    decreases j - i
  {
    hide IsRun, Inv;
    if i < j {
      RanksNeverDrop(run, acts, r, i, j - 1);
      assert |run| == |acts| + 1 by { RunLength(run, acts); }
      RunStepwise(run, acts, j - 1);
    }
  }

  lemma RunLength(run: seq<Tables>, acts: seq<Action>)
    requires IsRun(run, acts)
    ensures |run| == |acts| + 1
  {
  }

  ghost predicate StartsAt(run: seq<Tables>, r: Ref, k: nat)
    requires k + 1 < |run| && r in run[k].rows && r in run[k + 1].rows
  {
    StateAt(run, r, k) != RunState.Started && StateAt(run, r, k + 1) == RunState.Started
  }

  /** While it lives, a step run or claim is started at most once. */
  lemma StartedOnce(run: seq<Tables>, acts: seq<Action>, r: Ref, i: nat, j: nat)
    requires IsRun(run, acts) && i < j < |acts| && Lives(run, r, i, j + 1)
    ensures !(StartsAt(run, r, i) && StartsAt(run, r, j))
  {
    hide IsRun, Inv;
    RunLength(run, acts);
    RanksNeverDrop(run, acts, r, i + 1, j);
    RunStepwise(run, acts, j);
  }

  /** The row does not carry this token. */
  predicate Without(t: Tables, r: Ref, token: nat) {
    r in t.rows ==> t.rows[r].token != Some(token)
  }

  lemma {:induction false} NeverAgain(run: seq<Tables>, acts: seq<Action>, r: Ref, token: nat, j: nat, k: nat)
    requires IsRun(run, acts) && j <= k < |run| && token in run[j].issued && Without(run[j], r, token)
    ensures token in run[k].issued && Without(run[k], r, token)
    decreases k - j
  {
    hide IsRun, Inv, Advances;
    if j < k {
      NeverAgain(run, acts, r, token, j, k - 1);
      RunLength(run, acts);
      RunStepwise(run, acts, k - 1);
    }
  }

  /**
   Once a row has lost a claim token, by expiry, another claim or deletion, no
   statement presenting that token for it ever changes any row again.
   */
  lemma SupersededTokenIsDead(run: seq<Tables>, acts: seq<Action>, r: Ref, token: nat, i: nat, j: nat, k: nat, q: Statement)
    requires IsRun(run, acts) && i < j <= k < |run|
    requires r in run[i].rows && run[i].rows[r].token == Some(token) && Without(run[j], r, token)
    requires Presented(q) == Some((r, token))
    ensures Without(run[k], r, token)
    ensures Rows(run[k], q) == run[k].rows
  {
    hide IsRun, Updated, RowOK;
    InvRun(run, acts, i);
    IssuedGrows(run, acts, i, j);
    NeverAgain(run, acts, r, token, j, k);
    var t := run[k];
    forall s | s in t.rows ensures Updated(t, q, s) == t.rows[s] {
      WrongTokenChangesNothing(t, q, s);
    }
  }

  lemma {:induction false} IssuedGrows(run: seq<Tables>, acts: seq<Action>, i: nat, j: nat)
    requires IsRun(run, acts) && i <= j < |run|
    ensures run[i].issued <= run[j].issued
    decreases j - i
  {
    hide IsRun, Inv, Moves;
    if i < j {
      IssuedGrows(run, acts, i, j - 1);
      RunLength(run, acts);
      RunStepwise(run, acts, j - 1);
    }
  }

  /** No two rows ever carry the same token. */
  lemma TokensAreUnique(run: seq<Tables>, acts: seq<Action>, k: nat, r: Ref, s: Ref)
    requires IsRun(run, acts) && k < |run| && r in run[k].rows && s in run[k].rows && r != s
    ensures run[k].rows[r].token.Some? ==> run[k].rows[r].token != run[k].rows[s].token
  {
    hide IsRun;
    InvRun(run, acts, k);
  }

  // ----- one deployment per agent, and none while cleanup is open -----

  /** In every reachable state an agent holds at most one whole deployment. */
  lemma OneDeploymentPerAgent(run: seq<Tables>, acts: seq<Action>, k: nat, r: Ref, s: Ref)
    requires IsRun(run, acts) && k < |run| && r in run[k].rows && s in run[k].rows
    requires r.WholeClaim? && s.WholeClaim? && r.agent == s.agent
    requires Holding(run[k].rows[r]) && Holding(run[k].rows[s])
    ensures r == s
  {
    hide IsRun;
    InvRun(run, acts, k);
  }

  /** The action neither confirms the agent's cleanup nor deletes the deployment. */
  predicate LeavesOpen(a: Action, r: Ref) {
    a.Plain? ==>
      && !(a.q.ConfirmCleanup? && a.q.agent == r.agent && a.q.runs == r.StepRun?)
      && !(a.q.DropDeployment? && a.q.dep == r.deployment)
  }

  lemma ApplyKeys(t: Tables, q: Statement)
    ensures forall r :: r in t.rows && !Deleted(q, r) ==> r in Rows(t, q)
  {
  }

  lemma RevokeKeys(t: Tables, agent: nat, now: int)
    requires RevokeAgent(t, agent, now).Some?
    ensures RevokeAgent(t, agent, now).value.rows.Keys >= t.rows.Keys
  {
    hide Rows, Deployments, Agents, Settles, RevocableClaims, Updated;
    if t.agents[agent].status != Revoked {
      var t1 := Apply(t, SetStatus(agent, Revoked));
      var t2 := Barred(t, agent, now);
      var t3 := Settled(t2, agent, now, RevocableClaims(t2, agent));
      ApplyKeys(t, SetStatus(agent, Revoked));
      ApplyKeys(t1, RevokeRuns(agent, now));
      ApplyKeys(t3, FailTerminal);
    }
  }

  lemma PurgeKeys(t: Tables, agent: nat, now: int)
    ensures forall r :: r in t.rows && r.agent != agent ==> r in Purged(t, agent, now).rows
  {
    hide Rows, Deployments, Agents;
    var t1 := Apply(t, PreserveCleanup(agent, now));
    var t2 := Apply(t1, DeleteRuns(agent));
    var t3 := Apply(t2, DeleteClaims(agent));
    var t4 := Apply(t3, Detach(agent));
    ApplyKeys(t, PreserveCleanup(agent, now));
    ApplyKeys(t1, DeleteRuns(agent));
    ApplyKeys(t2, DeleteClaims(agent));
    ApplyKeys(t3, Detach(agent));
    ApplyKeys(t4, DeleteAgentRow(agent));
  }

  lemma RecoverKeys(t: Tables, now: int, local: set<nat>)
    ensures forall r :: r in t.rows ==> r in Recovered(t, now, local).rows
  {
    hide Rows, Deployments, Agents;
    var t1 := Apply(t, CancelOrphaned(now));
    ApplyKeys(t, CancelOrphaned(now));
    ApplyKeys(t1, MarkUnreconciled(local));
    ApplyKeys(Apply(t1, MarkUnreconciled(local)), FailOrphaned);
  }

  lemma RepairKeys(t: Tables, agent: nat)
    requires RepairAgent(t, agent).Some?
    ensures forall r :: r in t.rows ==> r in RepairAgent(t, agent).value.rows
  {
    hide Rows, Deployments, Agents;
    ApplyKeys(t, SetPairing(agent, Committing));
    ApplyKeys(Apply(t, SetPairing(agent, Committing)), ResetForPairing(agent));
  }

  /** Open cleanup survives: deleting its agent is blocked, and nothing else removes the row. */
  lemma OpenCleanupStays(t: Tables, a: Action, r: Ref)
    requires Enabled(t, a) && LeavesOpen(a, r) && r in t.rows && Unacknowledged(t.rows[r])
    ensures r in Next(t, a).rows
  {
    hide Apply, Purged, Recovered, RepairAgent, RevokeAgent, StillReferenced;
    match a {
      case Plain(q) =>
        ApplyRowKeys(t, q, r);
      case Revoke(agent, now) =>
        if RevokeAgent(t, agent, now).Some? { RevokeKeys(t, agent, now); }
      case Remove(agent, now, live, attempted) =>
        if RemoveAgent(t, agent, now, live, attempted).Some? {
          assert r.agent != agent by { assert Blocks(t.rows[r]); }
          RevokeKeys(t, agent, now);
          PurgeKeys(RevokeAgent(t, agent, now).value, agent, now);
        }
      case Repair(agent) =>
        if RepairAgent(t, agent).Some? { RepairKeys(t, agent); }
      case Recover(now, local) =>
        RecoverKeys(t, now, local);
    }
  }

  lemma ApplyRowKeys(t: Tables, q: Statement, r: Ref)
    requires r in t.rows && !Deleted(q, r)
    ensures r in Apply(t, q).rows
  {
    hide Rows, Deployments, Agents;
    ApplyKeys(t, q);
  }

  /**
   From the moment a row's cleanup is unconfirmed until it is confirmed, no row
   of either table moves to claimed for its agent.
   */
  lemma {:induction false} NoClaimWhileCleanupIsOpen(run: seq<Tables>, acts: seq<Action>, r: Ref, i: nat, j: nat)
    requires IsRun(run, acts) && i <= j < |run| && r in run[i].rows && Unacknowledged(run[i].rows[r])
    requires forall k :: i <= k < j ==> LeavesOpen(acts[k], r)
    ensures r in run[j].rows && Unacknowledged(run[j].rows[r])
    ensures forall k, s :: i <= k < j && s in run[k + 1].rows && s.agent == r.agent && StateAt(run, s, k + 1) == Claimed ==>
      s in run[k].rows && StateAt(run, s, k) == Claimed
    decreases j - i
  {
    hide Inv, Next, Enabled, Without, Allowed;
    if i < j {
      NoClaimWhileCleanupIsOpen(run, acts, r, i, j - 1);
      OpenCleanupStays(run[j - 1], acts[j - 1], r);
      RunStepwise(run, acts, j - 1);
      assert run[j - 1].DirtyAgent(r.agent);
    }
  }

  // ----- pairing a revoked agent again -----

  /** Nothing of the agent is live, lost or waiting for a confirmation. */
  ghost predicate Quiescent(t: Tables, agent: nat) {
    forall r :: r in t.rows && r.agent == agent ==>
      !Holding(t.rows[r]) && t.rows[r].state !in {Lost, CancelUnconfirmed} && !Unacknowledged(t.rows[r])
  }

  /** In every reachable state a revoked agent that was ever paired can be paired again exactly when its work is accounted for. */
  lemma RepairExactlyWhenQuiescent(run: seq<Tables>, acts: seq<Action>, k: nat, agent: nat)
    requires IsRun(run, acts) && k < |run| && agent in run[k].agents && run[k].agents[agent].status == Revoked
    ensures RepairAgent(run[k], agent).Some? <==> run[k].agents[agent].pairing != Unpaired && Quiescent(run[k], agent)
  {
    hide IsRun, Updated, Deployments, Inserted;
    InvRun(run, acts, k);
    var t := run[k];
    var u := Apply(t, SetPairing(agent, Committing));
    PairingLeavesRows(t, agent);
  }

  lemma PairingLeavesRows(t: Tables, agent: nat)
    ensures Rows(t, SetPairing(agent, Committing)) == t.rows
  {
  }
}
