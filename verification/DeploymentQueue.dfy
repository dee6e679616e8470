/** The deployment queue of one environment and project: positions, who is next, and admission. */
module DeploymentQueue {
  import opened Common
  import opened LeaseTables

  type Table = map<nat, Deployment>

  predicate Waits(ds: Table, environment: nat, project: nat, d: nat) {
    d in ds && ds[d].status == Queued && ds[d].environment == environment && ds[d].project == project
  }

  function Line(ds: Table, environment: nat, project: nat): set<nat> {
    set d | d in ds && Waits(ds, environment, project, d)
  }

  /** Queue order: first created, then lowest id. */
  predicate Ahead(ds: Table, d: nat, e: nat)
    requires d in ds && e in ds
  {
    ds[d].created < ds[e].created || (ds[d].created == ds[e].created && d <= e)
  }

  /** The position shown for a deployment: how many queued ones are not behind it, or 0 once it left the queue. */
  function Position(ds: Table, d: nat): nat
    requires d in ds
  {
    |UpTo(ds, d)|
  }

  function UpTo(ds: Table, d: nat): set<nat>
    requires d in ds
  {
    set a | a in ds && ds[d].status == Queued && Waits(ds, ds[d].environment, ds[d].project, a) && Ahead(ds, a, d)
  }

  ghost function Least(ds: Table, among: set<nat>): (m: nat)
    requires among != {} && among <= ds.Keys
    ensures m in among && forall d :: d in among ==> Ahead(ds, m, d)
  {
    var d :| d in among;
    if among == {d} then d
    else
      assert among - {d} != {};
      assert forall e :: e in among ==> e == d || e in among - {d};
      var m := Least(ds, among - {d});
      if Ahead(ds, d, m) then d else m
  }

  /** ORDER BY created_at, id LIMIT 1 over the queued deployments of a scope. */
  ghost function NextQueued(ds: Table, environment: nat, project: nat): Option<nat> {
    var line := Line(ds, environment, project);
    if line == {} then None else Some(Least(ds, line))
  }

  function Admit(ds: Table, d: nat): Table {
    if d in ds && ds[d].status == Queued then ds[d := ds[d].(status := Ready)] else ds
  }

  // ----- the line, in order -----

  ghost function Ordered(ds: Table, among: set<nat>): (line: seq<nat>)
    requires among <= ds.Keys
    ensures |line| == |among| && forall d :: d in line <==> d in among
    decreases |among|
  {
    if among == {} then []
    else
      var m := Least(ds, among);
      var rest := Ordered(ds, among - {m});
      assert forall d :: d in [m] + rest <==> d == m || d in rest;
      [m] + rest
  }

  lemma {:induction false} OrderedSorted(ds: Table, among: set<nat>, i: nat, j: nat)
    requires among <= ds.Keys && i < j < |among|
    ensures var line := Ordered(ds, among); line[i] in among && line[j] in among && line[i] != line[j] && Ahead(ds, line[i], line[j])
    decreases |among|
  {
    hide Ordered, Least;
    OrderedStep(ds, among);
    var m := Least(ds, among);
    var rest := Ordered(ds, among - {m});
    assert rest[j - 1] in rest;
    if i > 0 {
      OrderedSorted(ds, among - {m}, i - 1, j - 1);
    }
  }

  lemma OrderedStep(ds: Table, among: set<nat>)
    requires among <= ds.Keys && among != {}
    ensures var m := Least(ds, among); Ordered(ds, among) == [m] + Ordered(ds, among - {m})
  {
    hide Least;
  }

  lemma {:induction false} PrefixSize(line: seq<nat>, k: nat)
    requires k <= |line| && forall i, j :: 0 <= i < j < |line| ==> line[i] != line[j]
    ensures |set i | 0 <= i < k :: line[i]| == k
  {
    if k > 0 {
      PrefixSize(line, k - 1);
      assert (set i | 0 <= i < k :: line[i]) == (set i | 0 <= i < k - 1 :: line[i]) + {line[k - 1]};
    }
  }

  /** The k-th deployment in line has position k + 1. */
  lemma PositionInLine(ds: Table, environment: nat, project: nat, k: nat)
    requires k < |Line(ds, environment, project)|
    ensures
      var line := Ordered(ds, Line(ds, environment, project));
      line[k] in ds && Position(ds, line[k]) == k + 1
  {
    hide Ordered;
    var among := Line(ds, environment, project);
    var line := Ordered(ds, among);
    var d := line[k];
    assert d in among;
    forall i, j | 0 <= i < j < |line| ensures line[i] != line[j] && Ahead(ds, line[i], line[j]) {
      OrderedSorted(ds, among, i, j);
    }
    var upTo := UpTo(ds, d);
    var prefix := set i | 0 <= i < k + 1 :: line[i];
    forall i | k < i < |line| ensures !Ahead(ds, line[i], d) {
      assert Ahead(ds, line[k], line[i]);
    }
    forall a ensures a in upTo <==> a in prefix {
      if a in upTo {
        assert a in line;
        var i :| 0 <= i < |line| && line[i] == a;
      }
      if a in prefix {
        var i :| 0 <= i < k + 1 && line[i] == a;
        assert a in among;
      }
    }
    assert upTo == prefix;
    PrefixSize(line, k + 1);
  }

  lemma AtSomePlace(ds: Table, d: nat) returns (k: nat)
    requires d in ds && ds[d].status == Queued
    ensures
      var among := Line(ds, ds[d].environment, ds[d].project);
      k < |among| && Ordered(ds, among)[k] == d && Position(ds, d) == k + 1
  {
    hide Ordered, Position;
    var among := Line(ds, ds[d].environment, ds[d].project);
    assert d in among;
    k :| k < |among| && Ordered(ds, among)[k] == d;
    PositionInLine(ds, ds[d].environment, ds[d].project, k);
  }

  // ----- the queue's promises -----

  ghost predicate Held(ds: Table, line: set<nat>, p: nat)
    requires line <= ds.Keys
  {
    exists d :: d in line && Position(ds, d) == p
  }

  /** Positions number the queued deployments of a scope 1 to n, each exactly once, in queue order. */
  lemma PositionsAreABijection(ds: Table, environment: nat, project: nat)
    ensures
      var line := Line(ds, environment, project);
      && (forall d :: d in line ==> 1 <= Position(ds, d) <= |line|)
      && (forall p :: 1 <= p <= |line| ==> Held(ds, line, p))
      && (forall d, e :: d in line && e in line ==> (Position(ds, d) <= Position(ds, e) <==> Ahead(ds, d, e)))
      && (forall d, e :: d in line && e in line && Position(ds, d) == Position(ds, e) ==> d == e)
  {
    hide Position, Ordered;
    var among := Line(ds, environment, project);
    var line := Ordered(ds, among);
    forall d | d in among ensures 1 <= Position(ds, d) <= |among| {
      var _ := AtSomePlace(ds, d);
    }
    forall p | 1 <= p <= |among| ensures Held(ds, among, p) {
      PositionInLine(ds, environment, project, p - 1);
      assert line[p - 1] in among;
    }
    forall d, e | d in among && e in among
      ensures Position(ds, d) <= Position(ds, e) <==> Ahead(ds, d, e)
      ensures Position(ds, d) == Position(ds, e) ==> d == e
    {
      var i := AtSomePlace(ds, d);
      var j := AtSomePlace(ds, e);
      if i < j { OrderedSorted(ds, among, i, j); }
      if j < i { OrderedSorted(ds, among, j, i); }
    }
  }

  /** The next deployment is exactly the one at position 1; there is one whenever anything waits. */
  lemma NextIsFirst(ds: Table, environment: nat, project: nat, d: nat)
    requires d in ds
    ensures NextQueued(ds, environment, project) == Some(d)
      <==> Waits(ds, environment, project, d) && Position(ds, d) == 1
  {
    hide Position, Ordered, Least;
    var among := Line(ds, environment, project);
    PositionsAreABijection(ds, environment, project);
    if among != {} {
      var m := Least(ds, among);
      assert m in among;
      assert |among| >= 1 && Held(ds, among, 1);
      var p :| p in among && Position(ds, p) == 1;
      assert Ahead(ds, m, p);
    }
  }

  /** What leaves the queue has no position. */
  lemma OnlyQueuedHavePositions(ds: Table, d: nat)
    requires d in ds
    ensures Position(ds, d) > 0 <==> ds[d].status == Queued
  {
    hide Position;
    if ds[d].status == Queued {
      var _ := AtSomePlace(ds, d);
    } else {
      NoPosition(ds, d);
    }
  }

  lemma NoPosition(ds: Table, d: nat)
    requires d in ds && ds[d].status != Queued
    ensures Position(ds, d) == 0
  {
    assert UpTo(ds, d) == {};
  }

  /** Admitting a queued deployment moves up by one exactly those that waited behind it, and nobody else. */
  lemma AdmissionMovesUp(ds: Table, d: nat, e: nat)
    requires d in ds && ds[d].status == Queued && e in ds && e != d
    ensures
      var behind := Waits(ds, ds[d].environment, ds[d].project, e) && Ahead(ds, d, e);
      e in Admit(ds, d) && Position(Admit(ds, d), e) == Position(ds, e) - if behind then 1 else 0
  {
    var ds' := Admit(ds, d);
    var before, after := UpTo(ds, e), UpTo(ds', e);
    assert after == before - {d};
  }

  /** So admitting the next one lowers every other position in its scope by exactly one. */
  lemma AdmittingTheNext(ds: Table, environment: nat, project: nat, d: nat)
    requires NextQueued(ds, environment, project) == Some(d)
    ensures d in ds && Line(Admit(ds, d), environment, project) == Line(ds, environment, project) - {d}
    ensures forall e :: e in ds && e != d ==>
      e in Admit(ds, d)
      && Position(Admit(ds, d), e) == Position(ds, e) - if Waits(ds, environment, project, e) then 1 else 0
    ensures Position(Admit(ds, d), d) == 0
  {
    hide Position;
    assert d in Line(ds, environment, project);
    forall e | e in ds && e != d
      ensures e in Admit(ds, d)
              && Position(Admit(ds, d), e) == Position(ds, e) - if Waits(ds, environment, project, e) then 1 else 0
    {
      AdmissionMovesUp(ds, d, e);
      if Waits(ds, environment, project, e) { assert e in Line(ds, environment, project); }
    }
    NoPosition(Admit(ds, d), d);
  }

  /** Admission makes a queued deployment pending, once, and touches nothing else. */
  lemma AdmissionMakesPending(ds: Table, d: nat)
    requires d in ds
    ensures
      var after := Admit(ds, d);
      && after.Keys == ds.Keys
      && after[d] == (if ds[d].status == Queued then ds[d].(status := Ready) else ds[d])
      && (forall e :: e in ds && e != d ==> after[e] == ds[e])
      && Admit(after, d) == after
  {
  }
}
