/** How the lifecycle statements fit together: expiry, heartbeats, late reports, cancellation and cleanup. */
module LeaseTimes {
  import opened Common
  import opened LeaseTables
  import opened LeaseProtocol
  import opened LeaseProofs
  import opened LeaseRuns
  import opened LeaseTransactions
  import LeaseStore
  import opened LeaseEffects

  /** A claim holds exactly until it expires: claimed, then started by its token before that, never after. */
  lemma ClaimThenStart(t: Tables, r: Ref, token: nat, expires: int, now: int, later: int)
    requires r in t.rows && Claimable(t, r, expires, now, true) && RowOK(r, t.rows[r])
    requires t.PairedAgent(r.agent)
    ensures
      var u := Apply(t, Claim(r, token, expires, now, true));
      && r in u.rows && u.rows[r].state == Claimed && u.rows[r].token == Some(token) && u.rows[r].heartbeat == Some(now)
      && (Updated(u, Start(r, token, later), r).state == RunState.Started <==> later < expires)
      && forall other :: other != token ==> Updated(u, Start(r, other, later), r) == u.rows[r]
  {
    hide Deployments, Updated, Tables.PairedAgent, Tables.AssignedIn, Tables.DirtyAgent, Tables.BusyAgent, Claimable, RowOK;
    var q := Claim(r, token, expires, now, true);
    var u := Apply(t, q);
    ClaimedRow(t, r, token, expires, now);
    assert r in Rows(t, q) && Rows(t, q)[r] == Updated(t, q, r);
    AssignmentSame(t, q, r.deployment, r.agent);
    forall other ensures Updated(u, Start(r, other, later), r).state == RunState.Started <==> other == token && later < expires
      ensures other != token ==> Updated(u, Start(r, other, later), r) == u.rows[r]
    {
      StartsWhen(t, u, r, token, other, expires, later);
    }
  }

  lemma ClaimedRow(t: Tables, r: Ref, token: nat, expires: int, now: int)
    requires r in t.rows && Claimable(t, r, expires, now, true) && RowOK(r, t.rows[r])
    ensures
      var v := Updated(t, Claim(r, token, expires, now, true), r);
      && v.state == Claimed && v.token == Some(token) && v.heartbeat == Some(now) && v.expires == Some(expires) && v.started.None?
      && (r.WholeClaim? ==> t.AssignedIn(r.deployment, r.agent, {Ready}))
  {
  }

  lemma AssignmentSame(t: Tables, q: Statement, dep: nat, agent: nat)
    requires q.Claim?
    ensures Apply(t, q).AssignedIn(dep, agent, {Ready}) == t.AssignedIn(dep, agent, {Ready})
  {
    hide Rows, Agents;
  }

  lemma StartsWhen(t: Tables, u: Tables, r: Ref, token: nat, other: nat, expires: int, later: int)
    requires r in u.rows && u.rows[r].state == Claimed && u.rows[r].token == Some(token)
    requires u.rows[r].expires == Some(expires) && u.rows[r].started.None?
    requires u.agents == t.agents && t.PairedAgent(r.agent)
    requires r.WholeClaim? ==> u.AssignedIn(r.deployment, r.agent, {Ready})
    ensures Updated(u, Start(r, other, later), r).state == RunState.Started <==> other == token && later < expires
    ensures other != token ==> Updated(u, Start(r, other, later), r) == u.rows[r]
  {
  }

  /** Confirming both tables frees exactly this agent for new work. */
  lemma ConfirmationFreesTheAgent(t: Tables, agent: nat, now: int, other: nat)
    ensures
      var u := Apply(Apply(t, ConfirmCleanup(true, agent, now)), ConfirmCleanup(false, agent, now));
      u.DirtyAgent(other) <==> other != agent && t.DirtyAgent(other)
  {
    hide Updated, Deployments, Agents, Apply, Unacknowledged;
    var t1 := Apply(t, ConfirmCleanup(true, agent, now));
    var u := Apply(t1, ConfirmCleanup(false, agent, now));
    forall r
      ensures r in u.rows <==> r in t.rows
      ensures r in u.rows ==> (Unacknowledged(u.rows[r]) <==> r.agent != agent && Unacknowledged(t.rows[r]))
    {
      Confirmed(t, true, agent, now, r);
      Confirmed(t1, false, agent, now, r);
    }
  }

  lemma Confirmed(t: Tables, runs: bool, agent: nat, now: int, r: Ref)
    ensures var u := Apply(t, ConfirmCleanup(runs, agent, now));
      && (r in u.rows <==> r in t.rows)
      && (r in t.rows ==> (Unacknowledged(u.rows[r]) <==>
                             Unacknowledged(t.rows[r]) && (r.agent != agent || r.StepRun? != runs)))
  {
    hide Deployments, Agents, Updated;
    var q := ConfirmCleanup(runs, agent, now);
    if r in t.rows {
      assert r in Rows(t, q) && Rows(t, q)[r] == Updated(t, q, r);
      ConfirmedRow(t, runs, agent, now, r);
    }
  }

  lemma ConfirmedRow(t: Tables, runs: bool, agent: nat, now: int, r: Ref)
    requires r in t.rows
    ensures Unacknowledged(Updated(t, ConfirmCleanup(runs, agent, now), r)) <==>
      Unacknowledged(t.rows[r]) && (r.agent != agent || r.StepRun? != runs)
  {
  }

  // ----- over whole runs -----

  /** A claimed row was claimed by its present token, and has been claimed since. */
  lemma {:induction false} ClaimOf(run: seq<Tables>, acts: seq<Action>, r: Ref, k: nat) returns (i: nat)
    requires IsRun(run, acts) && k < |run| && r in run[k].rows && StateAt(run, r, k) == Claimed
    ensures i < k && acts[i].Plain? && acts[i].q.Claim? && acts[i].q.ref == r
    ensures run[k].rows[r].token == Some(acts[i].q.token) && run[k].rows[r].expires == Some(acts[i].q.expires)
    ensures forall m :: i < m <= k ==>
      r in run[m].rows && StateAt(run, r, m) == Claimed && run[m].rows[r].token == run[k].rows[r].token
  {
    hide IsRun, Inv;
    RunLength(run, acts);
    RunStarts(run, acts);
    i := 0;
    if k > 0 {
      RunStepwise(run, acts, k - 1);
      if r in run[k - 1].rows && StateAt(run, r, k - 1) == Claimed {
        i := ClaimOf(run, acts, r, k - 1);
      } else {
        i := k - 1;
      }
    }
  }

  lemma RunStarts(run: seq<Tables>, acts: seq<Action>)
    requires IsRun(run, acts)
    ensures run[0] == EMPTY
  {
  }

  /** Work starts only under a lease: by the token of the claim it was given, before that claim expires, claimed in between. */
  lemma StartsWithinItsLease(run: seq<Tables>, acts: seq<Action>, r: Ref, k: nat) returns (i: nat)
    requires IsRun(run, acts) && k < |acts| && r in run[k].rows && r in run[k + 1].rows && StartsAt(run, r, k)
    ensures i < k && acts[i].Plain? && acts[i].q.Claim? && acts[i].q.ref == r
    ensures acts[k].Plain? && acts[k].q.Start? && acts[k].q.ref == r
    ensures acts[k].q.token == acts[i].q.token && acts[k].q.now < acts[i].q.expires
    ensures run[k].PairedAgent(r.agent)
    ensures forall m :: i < m <= k ==>
      r in run[m].rows && StateAt(run, r, m) == Claimed && run[m].rows[r].token == Some(acts[i].q.token)
  {
    hide IsRun, Inv;
    RunLength(run, acts);
    RunStepwise(run, acts, k);
    i := ClaimOf(run, acts, r, k);
  }

  // ----- heartbeats -----

  /** Started work with a heartbeat no older than this, or work that has since moved on, but not to lost. */
  predicate Kept(w: Row, since: int) {
    && Rank(w.state) >= 1 && w.state != Lost
    && (w.state == RunState.Started ==> w.heartbeat.Some? && w.heartbeat.value >= since)
  }

  /** No cutoff reaches `since`, no heartbeat goes back before it, and the agent is not revoked. */
  predicate Spares(a: Action, r: Ref, since: int) {
    match a
    case Plain(q) =>
      && (q.LoseStale? ==> q.cutoff < since)
      && (q.Heartbeat? && q.ref == r ==> q.now >= since)
    case Revoke(agent, _) => agent != r.agent
    case Remove(agent, _, _, _) => agent != r.agent
    case _ => true
  }

  lemma UpdatedKept(t: Tables, q: Statement, r: Ref, since: int)
    requires r in t.rows && Allowed(t, q) && Spares(Plain(q), r, since) && Kept(t.rows[r], since)
    ensures Kept(Updated(t, q, r), since)
  {
    hide Tables.PairedAgent, Tables.AssignedIn, Tables.DirtyAgent, Tables.BusyAgent;
  }

  lemma RowAfter(t: Tables, q: Statement, r: Ref)
    requires r in t.rows && r in Apply(t, q).rows
    ensures Apply(t, q).rows[r] == Updated(t, q, r)
  {
    hide Updated, Deployments, Agents;
  }

  /** Statements of a revocation or deletion leave the rows of other agents alone. */
  lemma UpdatedElsewhere(t: Tables, q: Statement, r: Ref)
    requires r in t.rows
    requires
      match q
      case RevokeRuns(agent, _) => agent != r.agent
      case SetStatus(_, _) => true
      case SetPairing(_, _) => true
      case ResetForPairing(_) => true
      case FailTerminal => true
      case MarkUnreconciled(_) => true
      case FailOrphaned => true
      case _ => false
    ensures Updated(t, q, r) == t.rows[r]
  {
  }

  lemma BarredElsewhere(t: Tables, agent: nat, now: int, r: Ref)
    requires r in t.rows && r.agent != agent
    ensures var u := Barred(t, agent, now); r in u.rows && u.rows[r] == t.rows[r]
  {
    hide Apply, Updated;
    var t1 := Apply(t, SetStatus(agent, Revoked));
    ApplyRowKeys(t, SetStatus(agent, Revoked), r);
    ApplyRowKeys(t1, RevokeRuns(agent, now), r);
    RowAfter(t, SetStatus(agent, Revoked), r);
    UpdatedElsewhere(t, SetStatus(agent, Revoked), r);
    RowAfter(t1, RevokeRuns(agent, now), r);
    UpdatedElsewhere(t1, RevokeRuns(agent, now), r);
  }

  lemma RevokeElsewhere(t: Tables, agent: nat, now: int, r: Ref)
    requires r in t.rows && r.agent != agent && RevokeAgent(t, agent, now).Some?
    ensures var u := RevokeAgent(t, agent, now).value; r in u.rows && u.rows[r] == t.rows[r]
  {
    hide Apply, Barred, Updated, Settles, RevocableClaims, Settled;
    if t.agents[agent].status != Revoked {
      var t2 := Barred(t, agent, now);
      var t3 := Settled(t2, agent, now, RevocableClaims(t2, agent));
      BarredElsewhere(t, agent, now, r);
      LeaseStore.SettledRows(t2, agent, now, RevocableClaims(t2, agent));
      ApplyRowKeys(t3, FailTerminal, r);
      RowAfter(t3, FailTerminal, r);
      UpdatedElsewhere(t3, FailTerminal, r);
    }
  }

  lemma RemoveElsewhere(t: Tables, agent: nat, now: int, live: bool, attempted: set<nat>, r: Ref)
    requires r in t.rows && r.agent != agent && RemoveAgent(t, agent, now, live, attempted).Some?
    ensures var u := RemoveAgent(t, agent, now, live, attempted).value; r in u.rows && u.rows[r] == t.rows[r]
  {
    hide Purged, RevokeAgent, StillReferenced, DeletionBlocked;
    RevokeElsewhere(t, agent, now, r);
    PurgedRow(RevokeAgent(t, agent, now).value, agent, now, r);
  }

  lemma RepairElsewhere(t: Tables, agent: nat, r: Ref)
    requires r in t.rows && RepairAgent(t, agent).Some?
    ensures var u := RepairAgent(t, agent).value; r in u.rows && u.rows[r] == t.rows[r]
  {
    hide Apply, Resettable, Updated;
    var u := Apply(t, SetPairing(agent, Committing));
    ApplyRowKeys(t, SetPairing(agent, Committing), r);
    RowAfter(t, SetPairing(agent, Committing), r);
    UpdatedElsewhere(t, SetPairing(agent, Committing), r);
    ApplyRowKeys(u, ResetForPairing(agent), r);
    RowAfter(u, ResetForPairing(agent), r);
    UpdatedElsewhere(u, ResetForPairing(agent), r);
  }

  lemma NextKept(t: Tables, a: Action, r: Ref, since: int)
    requires Enabled(t, a) && Spares(a, r, since)
    requires r in t.rows && r in Next(t, a).rows && Kept(t.rows[r], since)
    ensures Kept(Next(t, a).rows[r], since)
  {
    hide Apply, RevokeAgent, RemoveAgent, RepairAgent, Recovered, Kept, Updated;
    match a {
      case Plain(q) =>
        RowAfter(t, q, r);
        UpdatedKept(t, q, r, since);
      case Revoke(agent, now) =>
        if RevokeAgent(t, agent, now).Some? { RevokeElsewhere(t, agent, now, r); }
      case Remove(agent, now, live, attempted) =>
        if RemoveAgent(t, agent, now, live, attempted).Some? { RemoveElsewhere(t, agent, now, live, attempted, r); }
      case Repair(agent) =>
        if RepairAgent(t, agent).Some? { RepairElsewhere(t, agent, r); }
      case Recover(now, local) =>
        RecoveredParts(t, now, local);
        UpdatedKept(t, CancelOrphaned(now), r, since);
    }
  }

  /**
   While it lives, work whose last heartbeat came at `since` is not lost as long
   as no cutoff reaches that time, whatever else happens, short of revoking its agent.
   */
  lemma {:induction false} HeartbeatsKeepTheLease(run: seq<Tables>, acts: seq<Action>, r: Ref, since: int, i: nat, j: nat)
    requires IsRun(run, acts) && i <= j < |run| && Lives(run, r, i, j)
    requires StateAt(run, r, i) == RunState.Started
    requires run[i].rows[r].heartbeat.Some? && run[i].rows[r].heartbeat.value >= since
    requires forall k :: i <= k < j ==> Spares(acts[k], r, since)
    ensures StateAt(run, r, j) != Lost && Kept(run[j].rows[r], since)
    decreases j - i
  {
    hide Next, Spares, IsRun, Allowed;
    RunLength(run, acts);
    if i < j {
      HeartbeatsKeepTheLease(run, acts, r, since, i, j - 1);
      assert Spares(acts[j - 1], r, since);
      RunNext(run, acts, j - 1);
      NextKept(run[j - 1], acts[j - 1], r, since);
    }
  }

  // ----- cancellations and late reports -----

  /** One cancellation statement leaves no row of its table waiting, claimed or started. */
  lemma CancelledNow(t: Tables, runs: bool, dep: nat, now: int, r: Ref)
    requires r in t.rows && r.StepRun? == runs && r.deployment == dep
    ensures Rank(Updated(t, RequestCancellation(runs, dep, now), r).state) >= 2
  {
  }

  /**
   Once both cancellation statements have run for a deployment, none of its
   rows that were there is waiting, claimed or started in any later state.
   */
  lemma CancelledForGood(run: seq<Tables>, acts: seq<Action>, dep: nat, runsAt: nat, claimsAt: nat, k: nat, r: Ref)
    requires IsRun(run, acts) && runsAt < k < |run| && claimsAt < k
    requires acts[runsAt].Plain? && acts[runsAt].q.RequestCancellation? && acts[runsAt].q.runs && acts[runsAt].q.dep == dep
    requires acts[claimsAt].Plain? && acts[claimsAt].q.RequestCancellation? && !acts[claimsAt].q.runs && acts[claimsAt].q.dep == dep
    requires r.deployment == dep && Lives(run, r, if r.StepRun? then runsAt else claimsAt, k)
    ensures StateAt(run, r, k) !in {Waiting, Claimed, RunState.Started}
  {
    hide IsRun, Apply, Updated;
    var i := if r.StepRun? then runsAt else claimsAt;
    RunLength(run, acts);
    RunNext(run, acts, i);
    RowAfter(run[i], acts[i].q, r);
    CancelledNow(run[i], r.StepRun?, dep, acts[i].q.now, r);
    RanksNeverDrop(run, acts, r, i + 1, k);
  }

  lemma RunNext(run: seq<Tables>, acts: seq<Action>, i: nat)
    requires IsRun(run, acts) && i < |acts|
    ensures |run| == |acts| + 1 && run[i + 1] == Next(run[i], acts[i]) && Enabled(run[i], acts[i])
  {
    hide Next, Enabled;
  }

  /**
   Work under way or given up reports with its own token, exactly while it is
   awaited, and what it reports first is final: no later statement of any kind
   changes that state while the row lives.
   */
  lemma FirstReportIsFinal(run: seq<Tables>, acts: seq<Action>, r: Ref, token: nat, result: RunState, now: int, i: nat, j: nat)
    requires IsRun(run, acts) && i < j < |run| && Lives(run, r, i, j)
    requires acts[i] == Plain(Finish(r, token, result, now)) && run[i].rows[r].token == Some(token)
    ensures Reportable(run[i].rows[r], result) && Awaited(run[i], r) ==>
      StateAt(run, r, j) == result && run[i + 1].rows[r].finished == Some(now)
    ensures !(Reportable(run[i].rows[r], result) && Awaited(run[i], r)) ==> run[i + 1].rows[r] == run[i].rows[r]
  {
    hide IsRun, Apply, Updated, Awaited, Reportable, RowOK, TokensOK, OneClaim, OneHeld, RevokedIdle;
    RunLength(run, acts);
    RunNext(run, acts, i);
    InvRun(run, acts, i);
    RowAfter(run[i], acts[i].q, r);
    FinishesExactly(run[i], r, token, result, now);
    RanksNeverDrop(run, acts, r, i + 1, j);
  }

  /** A token whose lease ended before it was used is dead: the row waits again, and nothing that token says is heard. */
  lemma ExpiredTokenIsDead(run: seq<Tables>, acts: seq<Action>, r: Ref, token: nat, scope: Scope, now: int, i: nat, k: nat, q: Statement)
    requires IsRun(run, acts) && i < k < |run| && acts[i] == Plain(ExpireClaims(scope, now)) && Swept(scope, r)
    requires r in run[i].rows && StateAt(run, r, i) == Claimed && run[i].rows[r].token == Some(token)
    requires run[i].rows[r].expires.Some? && run[i].rows[r].expires.value <= now
    requires Presented(q) == Some((r, token))
    ensures r in run[i + 1].rows && StateAt(run, r, i + 1) == Waiting && run[i + 1].rows[r].token == None
    ensures Rows(run[k], q) == run[k].rows
  {
    hide IsRun, Apply, Updated, RowOK, TokensOK, OneClaim, OneHeld, RevokedIdle, Rows;
    RunLength(run, acts);
    RunNext(run, acts, i);
    InvRun(run, acts, i);
    ApplyRowKeys(run[i], acts[i].q, r);
    RowAfter(run[i], acts[i].q, r);
    ExpiresExactly(run[i], scope, now, r);
    SupersededTokenIsDead(run, acts, r, token, i, i + 1, k, q);
  }

  /** Work is lost only to a cutoff at or after its last heartbeat, or with its agent. */
  lemma LostOnlyWhenSilent(run: seq<Tables>, acts: seq<Action>, r: Ref, i: nat)
    requires IsRun(run, acts) && i < |acts| && r in run[i].rows && r in run[i + 1].rows
    requires StateAt(run, r, i) == RunState.Started && StateAt(run, r, i + 1) == Lost
    ensures
      || (acts[i].Revoke? && acts[i].agent == r.agent)
      || (acts[i].Remove? && acts[i].agent == r.agent)
      || (&& acts[i].Plain? && acts[i].q.LoseStale? && Swept(acts[i].q.scope, r)
          && run[i].rows[r].heartbeat.Some? && run[i].rows[r].heartbeat.value <= acts[i].q.cutoff)
  {
    hide IsRun, Apply, Updated, Next, Allowed;
    RunLength(run, acts);
    RunNext(run, acts, i);
    NextLoses(run[i], acts[i], r);
  }

  lemma NextLoses(t: Tables, a: Action, r: Ref)
    requires Enabled(t, a) && r in t.rows && r in Next(t, a).rows
    requires t.rows[r].state == RunState.Started && Next(t, a).rows[r].state == Lost
    ensures
      || (a.Revoke? && a.agent == r.agent) || (a.Remove? && a.agent == r.agent)
      || (&& a.Plain? && a.q.LoseStale? && Swept(a.q.scope, r)
          && t.rows[r].heartbeat.Some? && t.rows[r].heartbeat.value <= a.q.cutoff)
  {
    hide Apply, RevokeAgent, RemoveAgent, RepairAgent, Recovered, Updated, Swept;
    match a {
      case Plain(q) =>
        RowAfter(t, q, r);
        UpdatedLoses(t, q, r);
      case Revoke(agent, now) =>
        if agent != r.agent && RevokeAgent(t, agent, now).Some? { RevokeElsewhere(t, agent, now, r); }
      case Remove(agent, now, live, attempted) =>
        if agent != r.agent && RemoveAgent(t, agent, now, live, attempted).Some? {
          RemoveElsewhere(t, agent, now, live, attempted, r);
        }
      case Repair(agent) =>
        if RepairAgent(t, agent).Some? { RepairElsewhere(t, agent, r); }
      case Recover(now, local) =>
        RecoveredParts(t, now, local);
        UpdatedLoses(t, CancelOrphaned(now), r);
    }
  }

  lemma UpdatedLoses(t: Tables, q: Statement, r: Ref)
    requires r in t.rows && Allowed(t, q) && t.rows[r].state == RunState.Started
    ensures Updated(t, q, r).state == Lost ==>
      q.LoseStale? && Swept(q.scope, r) && t.rows[r].heartbeat.Some? && t.rows[r].heartbeat.value <= q.cutoff
  {
    hide Tables.PairedAgent, Tables.AssignedIn, Tables.DirtyAgent, Tables.BusyAgent;
  }
}
