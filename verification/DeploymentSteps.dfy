/**
 The ordered steps of one deployment and their attempts. One guard on the insert
 of an attempt carries the order, the retry bound and the single success.
 */
module DeploymentSteps {
  import LeaseTables

  type Status = LeaseTables.Status

  const BEFORE_START: set<Status> := {LeaseTables.Queued, LeaseTables.Ready, LeaseTables.PendingApproval}

  datatype AttemptState = Pending | Running | Succeeded | Failed

  datatype Attempt = Attempt(state: AttemptState, deadline: int)

  datatype Step = Step(retries: nat, local: bool)

  /** The key of an attempt. */
  datatype Try = Try(step: nat, number: int)

  datatype Plan = Plan(status: Status, frozen: bool, steps: map<nat, Step>, attempts: map<Try, Attempt>) {
    predicate Done(s: nat) {
      exists a :: a in attempts && a.step == s && attempts[a].state == Succeeded
    }

    function Tries(s: nat): set<Try> {
      set a | a in attempts && a.step == s
    }

    predicate Open() {
      status in {LeaseTables.Ready, LeaseTables.Running}
    }

    predicate Editable() {
      status in BEFORE_START && !frozen && attempts == map[]
    }
  }

  // ----- statements -----

  predicate CanCreate(p: Plan, s: nat, number: int, deadline: int, now: int) {
    && s in p.steps && p.Open() && deadline > now
    && 0 < number <= p.steps[s].retries + 1
    && (forall e :: e in p.steps && e < s ==> p.Done(e))
    && number == 1 + |p.Tries(s)|
    && (forall a :: a in p.attempts && a.step == s ==> p.attempts[a].state == Failed)
  }

  function CreateAttempt(p: Plan, s: nat, number: int, deadline: int, now: int): Plan {
    if CanCreate(p, s, number, deadline, now)
    then p.(attempts := p.attempts[Try(s, number) := Attempt(Pending, deadline)]) else p
  }

  function StartLocal(p: Plan, a: Try, now: int): Plan {
    if a in p.attempts && p.attempts[a].state == Pending && p.attempts[a].deadline > now
       && a.step in p.steps && p.steps[a.step].local && p.Open()
    then p.(attempts := p.attempts[a := p.attempts[a].(state := Running)]) else p
  }

  function FinishLocal(p: Plan, a: Try, result: AttemptState): Plan {
    if a in p.attempts && p.attempts[a].state == Running && result in {Succeeded, Failed} && p.Open()
    then p.(attempts := p.attempts[a := p.attempts[a].(state := result)]) else p
  }

  predicate AllDone(p: Plan) {
    forall s :: s in p.steps ==> p.Done(s)
  }

  function FinishCompleted(p: Plan): Plan {
    if p.Open() && AllDone(p) then p.(status := LeaseTables.Done) else p
  }

  function AddStep(p: Plan, s: nat, step: Step): Plan {
    if p.Editable() && s !in p.steps then p.(steps := p.steps[s := step]) else p
  }

  function Freeze(p: Plan): Plan {
    if p.status in BEFORE_START then p.(frozen := true) else p
  }

  function Unfinished(p: Plan): set<nat> {
    set s | s in p.steps && !p.Done(s)
  }

  /** The step query ORDER BY step_index LIMIT 1 over the steps without a success. */
  ghost predicate IsCursor(p: Plan, s: nat) {
    s in Unfinished(p) && forall e :: e in Unfinished(p) ==> s <= e
  }

  // ----- the store -----

  class PlanStore {
    var status: Status
    var frozen: bool
    var steps: map<nat, Step>
    var attempts: map<Try, Attempt>

    function Contents(): Plan
      reads this
    {
      Plan(status, frozen, steps, attempts)
    }

    constructor ()
      ensures Contents() == Plan(LeaseTables.Queued, false, map[], map[]) && Valid(Contents())
    {
      status, frozen, steps, attempts := LeaseTables.Queued, false, map[], map[];
    }

    method CreateDeploymentStep(s: nat, step: Step)
      requires Valid(Contents())
      modifies this
      ensures Contents() == AddStep(old(Contents()), s, step) && Valid(Contents())
    {
      AddStepValid(Contents(), s, step);
      if Contents().Editable() && s !in steps {
        steps := steps[s := step];
      }
    }

    method FreezeDeploymentStepSource()
      requires Valid(Contents())
      modifies this`frozen
      ensures Contents() == Freeze(old(Contents())) && Valid(Contents())
    {
      ValidIgnores(Contents(), Freeze(Contents()));
      if status in BEFORE_START {
        frozen := true;
      }
    }

    method CreateDeploymentStepAttempt(s: nat, number: int, deadline: int, now: int) returns (inserted: bool)
      requires Valid(Contents())
      modifies this`attempts
      ensures Contents() == CreateAttempt(old(Contents()), s, number, deadline, now) && Valid(Contents())
      ensures inserted ==> old(IsCursor(Contents(), s)) && Budget(Contents()) == old(Budget(Contents())) - 1
    {
      inserted := CanCreate(Contents(), s, number, deadline, now);
      if inserted {
        CreateValid(Contents(), s, number, deadline, now);
        OnlyCursorAttempts(Contents(), s, number, deadline, now);
        CreateSpends(Contents(), s, number, deadline, now);
        attempts := attempts[Try(s, number) := Attempt(Pending, deadline)];
      }
    }

    method StartLocalDeploymentStep(a: Try, now: int)
      requires Valid(Contents())
      modifies this`attempts
      ensures Contents() == StartLocal(old(Contents()), a, now) && Valid(Contents())
      ensures Budget(Contents()) == old(Budget(Contents()))
    {
      if a in attempts && attempts[a].state == Pending && attempts[a].deadline > now
         && a.step in steps && steps[a.step].local && Contents().Open()
      {
        MoveValid(Contents(), a, Running);
        MoveKeepsBudget(Contents(), a, Running);
        attempts := attempts[a := attempts[a].(state := Running)];
      }
    }

    method FinishLocalDeploymentStep(a: Try, result: AttemptState)
      requires Valid(Contents())
      modifies this`attempts
      ensures Contents() == FinishLocal(old(Contents()), a, result) && Valid(Contents())
      ensures Budget(Contents()) == old(Budget(Contents()))
    {
      if a in attempts && attempts[a].state == Running && result in {Succeeded, Failed} && Contents().Open() {
        MoveValid(Contents(), a, result);
        MoveKeepsBudget(Contents(), a, result);
        attempts := attempts[a := attempts[a].(state := result)];
      }
    }

    method FinishCompletedDeployment() returns (finished: bool)
      requires Valid(Contents())
      modifies this`status
      ensures Contents() == FinishCompleted(old(Contents())) && Valid(Contents())
      ensures finished <==> old(status) in {LeaseTables.Ready, LeaseTables.Running} && forall s :: !old(IsCursor(Contents(), s))
      ensures status == if finished then LeaseTables.Done else old(status)
    {
      CursorOrDone(Contents());
      finished := Contents().Open() && AllDone(Contents());
      ValidIgnores(Contents(), FinishCompleted(Contents()));
      if finished {
        status := LeaseTables.Done;
      }
    }

    /** Every other writer of the deployment's status. */
    method SetStatus(value: Status)
      requires Valid(Contents())
      modifies this`status
      ensures Contents() == old(Contents()).(status := value) && Valid(Contents())
    {
      ValidIgnores(Contents(), Contents().(status := value));
      status := value;
    }
  }

  // ----- what every plan keeps -----

  /** The attempts of a step are numbered from 1 without gaps, within the retry bound. */
  ghost predicate Numbered(p: Plan) {
    forall a :: a in p.attempts ==>
      && a.step in p.steps
      && 1 <= a.number <= |p.Tries(a.step)| <= p.steps[a.step].retries + 1
  }

  ghost predicate OnlyLastUnfailed(p: Plan) {
    forall a, b :: a in p.attempts && b in p.attempts && a.step == b.step && a.number < b.number ==>
      p.attempts[a].state == Failed
  }

  /** A step is attempted only after every earlier one succeeded. */
  ghost predicate InOrder(p: Plan) {
    forall a, e :: a in p.attempts && e in p.steps && e < a.step ==> p.Done(e)
  }

  ghost predicate Valid(p: Plan) {
    Numbered(p) && OnlyLastUnfailed(p) && InOrder(p)
  }

  lemma {:induction false} CountTo(tries: set<Try>, s: nat, n: nat)
    requires forall a :: a in tries ==> a.step == s && 1 <= a.number <= n
    ensures |tries| <= n
    ensures |tries| == n ==> forall k :: 1 <= k <= n ==> Try(s, k) in tries
    decreases n
  {
    if n == 0 {
      assert forall a :: a !in tries;
      assert tries == {};
    } else {
      CountTo(tries - {Try(s, n)}, s, n - 1);
    }
  }

  /** So the attempt numbers of a step are exactly 1 to n, with n at most the retries plus one. */
  lemma AttemptNumbers(p: Plan, s: nat)
    requires Valid(p) && s in p.steps
    ensures
      var n := |p.Tries(s)|;
      n <= p.steps[s].retries + 1 && forall k :: Try(s, k) in p.attempts <==> 1 <= k <= n
  {
    var n := |p.Tries(s)|;
    CountTo(p.Tries(s), s, n);
    if p.Tries(s) != {} {
      var a :| a in p.Tries(s);
    }
    forall k ensures Try(s, k) in p.attempts <==> 1 <= k <= n {
      assert Try(s, k) in p.Tries(s) <==> Try(s, k) in p.attempts;
    }
  }

  /** All attempts but the last failed, and a step that succeeded did so in its last attempt. */
  lemma LastDecides(p: Plan, a: Try, b: Try)
    requires Valid(p) && a in p.attempts && b in p.attempts && a.step == b.step && a != b
    ensures p.attempts[a].state == Failed || (p.attempts[b].state == Failed && b.number < a.number)
  {
  }

  lemma SucceededStepsFormAPrefix(p: Plan, s: nat, e: nat)
    requires Valid(p) && s in p.steps && e in p.steps && e < s && p.Done(s)
    ensures p.Done(e)
  {
  }

  lemma AddStepValid(p: Plan, s: nat, step: Step)
    requires Valid(p)
    ensures Valid(AddStep(p, s, step))
  {
  }

  /** What creating an attempt adds. */
  lemma Created(p: Plan, s: nat, number: int, deadline: int, now: int)
    requires Valid(p) && CanCreate(p, s, number, deadline, now)
    ensures
      var q := CreateAttempt(p, s, number, deadline, now);
      && Try(s, number) !in p.attempts
      && |q.Tries(s)| == |p.Tries(s)| + 1
      && (forall t :: t != s ==> q.Tries(t) == p.Tries(t))
      && (forall e :: p.Done(e) ==> q.Done(e))
  {
    hide Plan.Done;
    var q := CreateAttempt(p, s, number, deadline, now);
    AttemptNumbers(p, s);
    assert q.Tries(s) == p.Tries(s) + {Try(s, number)};
    forall t | t != s ensures q.Tries(t) == p.Tries(t) {
    }
    forall e | p.Done(e) ensures q.Done(e) {
      DoneGrows(p, q, e);
    }
  }

  lemma DoneGrows(p: Plan, q: Plan, s: nat)
    requires p.Done(s)
    requires forall a :: a in p.attempts && p.attempts[a].state == AttemptState.Succeeded ==>
      a in q.attempts && q.attempts[a].state == AttemptState.Succeeded
    ensures q.Done(s)
  {
  }

  lemma CreateValid(p: Plan, s: nat, number: int, deadline: int, now: int)
    requires Valid(p) && CanCreate(p, s, number, deadline, now)
    ensures Valid(CreateAttempt(p, s, number, deadline, now))
  {
    hide Plan.Done, Plan.Tries;
    Created(p, s, number, deadline, now);
  }

  /** What moving an attempt on keeps. */
  lemma Moved(p: Plan, a: Try, state: AttemptState)
    requires a in p.attempts
    ensures
      var q := p.(attempts := p.attempts[a := p.attempts[a].(state := state)]);
      && (forall s :: q.Tries(s) == p.Tries(s))
      && (p.attempts[a].state != AttemptState.Succeeded ==> forall e :: p.Done(e) ==> q.Done(e))
  {
    hide Plan.Done;
    var q := p.(attempts := p.attempts[a := p.attempts[a].(state := state)]);
    forall s ensures q.Tries(s) == p.Tries(s) {
    }
    if p.attempts[a].state != AttemptState.Succeeded {
      forall e | p.Done(e) ensures q.Done(e) {
        DoneGrows(p, q, e);
      }
    }
  }

  lemma MoveValid(p: Plan, a: Try, state: AttemptState)
    requires Valid(p) && a in p.attempts && p.attempts[a].state in {Pending, Running}
    ensures Valid(p.(attempts := p.attempts[a := p.attempts[a].(state := state)]))
  {
    hide Plan.Done, Plan.Tries;
    Moved(p, a, state);
  }

  /** The status and the frozen source play no part in validity. */
  lemma ValidIgnores(p: Plan, q: Plan)
    requires Valid(p) && q.steps == p.steps && q.attempts == p.attempts
    ensures Valid(q)
  {
    hide Plan.Done;
    forall s ensures q.Tries(s) == p.Tries(s) {
    }
    forall e | p.Done(e) ensures q.Done(e) {
      DoneGrows(p, q, e);
    }
  }

  // ----- cursor, completion and budget -----

  /** Either there is a cursor or every step is done, and never both. */
  lemma CursorOrDone(p: Plan)
    ensures AllDone(p) <==> forall s :: !IsCursor(p, s)
  {
    var open := Unfinished(p);
    if open != {} {
      var s := SmallestOf(open);
      assert IsCursor(p, s) && s in open;
    } else {
      forall s | s in p.steps ensures p.Done(s) {
        assert s !in open;
      }
    }
    if s :| IsCursor(p, s) {
      assert s in open && s in p.steps && !p.Done(s);
    }
  }

  lemma {:induction false} SmallestOf(among: set<nat>) returns (s: nat)
    requires among != {}
    ensures s in among && forall e :: e in among ==> s <= e
    decreases |among|
  {
    s :| s in among;
    if among != {s} {
      assert among - {s} != {};
      assert forall e :: e in among ==> e == s || e in among - {s};
      var m := SmallestOf(among - {s});
      if m < s { s := m; }
    }
  }

  lemma OnlyCursorAttempts(p: Plan, s: nat, number: int, deadline: int, now: int)
    requires CanCreate(p, s, number, deadline, now)
    ensures IsCursor(p, s)
  {
  }

  /**
   An attempt can be created for exactly one step: the cursor, while it has
   retries left and none of its attempts is still pending or running.
   */
  lemma CreatableExactlyAtCursor(p: Plan, s: nat, number: int, deadline: int, now: int)
    requires Valid(p)
    ensures CanCreate(p, s, number, deadline, now) <==>
      && p.Open() && deadline > now && IsCursor(p, s)
      && number == 1 + |p.Tries(s)| && |p.Tries(s)| <= p.steps[s].retries
      && (Try(s, number - 1) in p.attempts ==> p.attempts[Try(s, number - 1)].state == Failed)
  {
    if IsCursor(p, s) && number == 1 + |p.Tries(s)|
       && (Try(s, number - 1) in p.attempts ==> p.attempts[Try(s, number - 1)].state == Failed)
    {
      AttemptNumbers(p, s);
      forall a | a in p.attempts && a.step == s ensures p.attempts[a].state == Failed {
        assert Try(s, number - 1) in p.attempts;
        assert a == Try(s, a.number);
      }
      forall e | e in p.steps && e < s ensures p.Done(e) {
        assert e !in Unfinished(p);
      }
    }
  }

  ghost function Pick(among: set<nat>): (s: nat)
    requires among != {}
    ensures s in among
  {
    var s :| s in among;
    s
  }

  /** Attempts that the steps of `among` may still use. */
  ghost function BudgetOf(p: Plan, among: set<nat>): int
    requires among <= p.steps.Keys
    decreases |among|
  {
    if among == {} then 0
    else
      var s := Pick(among);
      p.steps[s].retries + 1 - |p.Tries(s)| + BudgetOf(p, among - {s})
  }

  ghost function Budget(p: Plan): int {
    BudgetOf(p, p.steps.Keys)
  }

  lemma {:induction false} BudgetCounts(p: Plan, among: set<nat>)
    requires Valid(p) && among <= p.steps.Keys
    ensures BudgetOf(p, among) >= 0
    decreases |among|
  {
    if among != {} {
      AttemptNumbers(p, Pick(among));
      BudgetCounts(p, among - {Pick(among)});
    }
  }

  lemma {:induction false} BudgetDiffers(p: Plan, q: Plan, s: nat, among: set<nat>, spent: int)
    requires among <= p.steps.Keys && q.steps == p.steps
    requires |q.Tries(s)| == |p.Tries(s)| + spent && forall t :: t in among && t != s ==> |q.Tries(t)| == |p.Tries(t)|
    ensures BudgetOf(q, among) == BudgetOf(p, among) - if s in among then spent else 0
    decreases |among|
  {
    if among != {} {
      BudgetDiffers(p, q, s, among - {Pick(among)}, spent);
    }
  }

  lemma CreateSpends(p: Plan, s: nat, number: int, deadline: int, now: int)
    requires Valid(p) && CanCreate(p, s, number, deadline, now)
    ensures
      var q := CreateAttempt(p, s, number, deadline, now);
      Budget(q) == Budget(p) - 1 && Budget(q) >= 0
  {
    hide Plan.Done, Plan.Tries;
    var q := CreateAttempt(p, s, number, deadline, now);
    CreateValid(p, s, number, deadline, now);
    Created(p, s, number, deadline, now);
    BudgetDiffers(p, q, s, p.steps.Keys, 1);
    BudgetCounts(q, q.steps.Keys);
  }

  lemma MoveKeepsBudget(p: Plan, a: Try, state: AttemptState)
    requires a in p.attempts
    ensures
      var q := p.(attempts := p.attempts[a := p.attempts[a].(state := state)]);
      Budget(q) == Budget(p)
  {
    hide Plan.Done, Plan.Tries;
    var q := p.(attempts := p.attempts[a := p.attempts[a].(state := state)]);
    Moved(p, a, state);
    BudgetDiffers(p, q, a.step, p.steps.Keys, 0);
  }

  // ----- what each statement changes -----

  /** An attempt starts exactly when it waits, is local, and is in time, in a deployment that is pending or running. */
  lemma StartsExactly(p: Plan, a: Try, now: int)
    ensures
      var q := StartLocal(p, a, now);
      if a in p.attempts && p.attempts[a].state.Pending? && now < p.attempts[a].deadline
         && a.step in p.steps && p.steps[a.step].local && p.status in {LeaseTables.Ready, LeaseTables.Running}
      then q == p.(attempts := p.attempts[a := Attempt(Running, p.attempts[a].deadline)])
      else q == p
  {
  }

  /** It finishes exactly when it was started and the result is one of two. */
  lemma FinishesExactly(p: Plan, a: Try, result: AttemptState)
    ensures
      var q := FinishLocal(p, a, result);
      if a in p.attempts && p.attempts[a].state.Running? && (result.Succeeded? || result.Failed?)
         && p.status in {LeaseTables.Ready, LeaseTables.Running}
      then q == p.(attempts := p.attempts[a := Attempt(result, p.attempts[a].deadline)])
      else q == p
  {
  }

  /** Once frozen or attempted, the steps of a deployment stay as they are, and a frozen source stays frozen. */
  lemma StepsStay(p: Plan, s: nat, step: Step)
    requires p.frozen || p.attempts != map[] || p.status !in {LeaseTables.Queued, LeaseTables.Ready, LeaseTables.PendingApproval}
    ensures AddStep(p, s, step) == p
    ensures p.frozen ==> Freeze(p) == p
  {
  }

  /** Until then a step can be added at every index that is free, and the source can be frozen. */
  lemma StepsGrow(p: Plan, s: nat, step: Step)
    requires !p.frozen && p.attempts == map[] && p.status in {LeaseTables.Queued, LeaseTables.Ready, LeaseTables.PendingApproval}
    ensures AddStep(p, s, step) == p.(steps := if s in p.steps then p.steps else p.steps[s := step])
    ensures Freeze(p) == p.(frozen := true)
  {
  }

  // ----- one attempt, from start to finish -----

  /** An attempt of the cursor run to its end: success moves the cursor on, failure leaves the next attempt if any are left. */
  lemma AttemptCycle(p: Plan, s: nat, number: int, deadline: int, now: int, result: AttemptState)
    requires Valid(p) && CanCreate(p, s, number, deadline, now) && p.steps[s].local
    requires result in {AttemptState.Succeeded, AttemptState.Failed}
    ensures
      var q := FinishLocal(StartLocal(CreateAttempt(p, s, number, deadline, now), Try(s, number), now), Try(s, number), result);
      && Valid(q) && Try(s, number) in q.attempts && q.attempts[Try(s, number)].state == result
      && (result.Succeeded? ==> q.Done(s) && !IsCursor(q, s))
      && (result.Failed? ==> !q.Done(s)
                             && (CanCreate(q, s, number + 1, deadline, now) <==> number <= p.steps[s].retries))
  {
    hide Plan.Done, Plan.Tries, Valid;
    var a := Try(s, number);
    var p1 := CreateAttempt(p, s, number, deadline, now);
    CreateValid(p, s, number, deadline, now);
    Created(p, s, number, deadline, now);
    MoveValid(p1, a, Running);
    Moved(p1, a, Running);
    var p2 := StartLocal(p1, a, now);
    MoveValid(p2, a, result);
    Moved(p2, a, result);
    CycleEnds(p, p2, s, number, deadline, result);
  }

  lemma CycleEnds(p: Plan, p2: Plan, s: nat, number: int, deadline: int, result: AttemptState)
    requires forall b :: b in p.attempts && b.step == s ==> p.attempts[b].state == AttemptState.Failed
    requires p2 == p.(attempts := p.attempts[Try(s, number) := Attempt(Running, deadline)])
    ensures
      var q := p2.(attempts := p2.attempts[Try(s, number) := p2.attempts[Try(s, number)].(state := result)]);
      && (q.Done(s) <==> result.Succeeded?)
      && (result.Failed? ==> forall b :: b in q.attempts && b.step == s ==> q.attempts[b].state == AttemptState.Failed)
  {
    if result.Succeeded? {
      assert Try(s, number) in p2.attempts[Try(s, number) := p2.attempts[Try(s, number)].(state := result)];
    }
  }
}
