/**
 Deployment logs and their index: a flag computed once, on insert, that later
 stands in for a scan over every line.
 */
module DeploymentLogs {
  import opened Common

  datatype Line = Line(
    id: int, deployment: nat, index: Option<int>, name: Option<Text>, text: Text, state: Option<Text>, flagged: bool)

  /** Same deployment, step index and step name, where null matches null. */
  predicate SameGroup(a: Line, b: Line) {
    a.deployment == b.deployment && a.index == b.index && a.name == b.name
  }

  predicate First(rows: seq<Line>, k: nat)
    requires k < |rows|
  {
    forall j :: 0 <= j < k ==> !SameGroup(rows[j], rows[k])
  }

  ghost predicate Increasing(rows: seq<Line>) {
    forall j, k :: 0 <= j < k < |rows| ==> rows[j].id < rows[k].id
  }

  /** The index: flagged rows carry a state or are the first of their group. */
  ghost predicate Indexed(rows: seq<Line>) {
    forall k :: 0 <= k < |rows| ==> (rows[k].flagged <==> rows[k].state.Some? || First(rows, k))
  }

  ghost predicate Valid(rows: seq<Line>) {
    Increasing(rows) && Indexed(rows)
  }

  /** An earlier flagged row of this group, which is what the inserts look for. */
  predicate FlaggedBefore(rows: seq<Line>, deployment: nat, index: Option<int>, name: Option<Text>) {
    exists k :: 0 <= k < |rows| && rows[k].deployment == deployment && rows[k].flagged
      && rows[k].index == index && rows[k].name == name
  }

  /** Looking at flagged rows only is enough to know whether a group has any row at all. */
  lemma FlaggedMeansAny(rows: seq<Line>, row: Line)
    requires Valid(rows)
    ensures FlaggedBefore(rows, row.deployment, row.index, row.name)
      <==> exists k :: 0 <= k < |rows| && SameGroup(rows[k], row)
  {
    if k :| 0 <= k < |rows| && SameGroup(rows[k], row) {
      var _ := FirstOfGroup(rows, k);
    }
  }

  lemma {:induction false} FirstOfGroup(rows: seq<Line>, k: nat) returns (f: nat)
    requires k < |rows| && Valid(rows)
    ensures f <= k && SameGroup(rows[f], rows[k]) && First(rows, f) && rows[f].flagged
    decreases k
  {
    if j: nat :| j < k && SameGroup(rows[j], rows[k]) {
      f := FirstOfGroup(rows, j);
    } else {
      f := k;
    }
  }

  lemma AppendValid(rows: seq<Line>, row: Line)
    requires Valid(rows) && forall k :: 0 <= k < |rows| ==> rows[k].id < row.id
    requires row.flagged <==> row.state.Some? || !FlaggedBefore(rows, row.deployment, row.index, row.name)
    ensures Valid(rows + [row])
    ensures row.flagged <==> row.state.Some? || First(rows + [row], |rows|)
  {
    FlaggedMeansAny(rows, row);
    var all := rows + [row];
    forall k | 0 <= k < |rows| ensures First(all, k) == First(rows, k) {
      assert forall j :: 0 <= j < k ==> all[j] == rows[j];
    }
    assert First(all, |rows|) <==> !exists k :: 0 <= k < |rows| && SameGroup(rows[k], row);
  }

  class LogTable {
    var rows: seq<Line>

    constructor ()
      ensures rows == [] && Valid(rows)
    {
      rows := [];
    }

    /** A line of a named step, or of the deployment itself. */
    method CreateDeploymentLog(id: int, deployment: nat, name: Option<Text>, text: Text)
      requires Valid(rows) && forall k :: 0 <= k < |rows| ==> rows[k].id < id
      modifies this
      ensures Valid(rows) && |rows| == |old(rows)| + 1
      ensures rows == old(rows) + [Line(id, deployment, None, name, text, None, First(rows, |old(rows)|))]
    {
      var flagged := !FlaggedBefore(rows, deployment, None, name);
      AppendValid(rows, Line(id, deployment, None, name, text, None, flagged));
      rows := rows + [Line(id, deployment, None, name, text, None, flagged)];
    }

    /** A line from a remote agent that belongs to no step. */
    method CreateRemoteDeploymentLog(id: int, deployment: nat, text: Text)
      requires Valid(rows) && forall k :: 0 <= k < |rows| ==> rows[k].id < id
      modifies this
      ensures Valid(rows) && |rows| == |old(rows)| + 1
      ensures rows == old(rows) + [Line(id, deployment, None, None, text, None, First(rows, |old(rows)|))]
    {
      var flagged := !FlaggedBefore(rows, deployment, None, None);
      AppendValid(rows, Line(id, deployment, None, None, text, None, flagged));
      rows := rows + [Line(id, deployment, None, None, text, None, flagged)];
    }

    /** A line of a step, with its state when that changed. */
    method CreateStepDeploymentLog(id: int, deployment: nat, name: Option<Text>, text: Text, index: Option<int>, state: Option<Text>)
      requires Valid(rows) && forall k :: 0 <= k < |rows| ==> rows[k].id < id
      modifies this
      ensures Valid(rows) && |rows| == |old(rows)| + 1
      ensures rows == old(rows)
        + [Line(id, deployment, index, name, text, state, state.Some? || First(rows, |old(rows)|))]
    {
      var flagged := state.Some? || !FlaggedBefore(rows, deployment, index, name);
      AppendValid(rows, Line(id, deployment, index, name, text, state, flagged));
      rows := rows + [Line(id, deployment, index, name, text, state, flagged)];
    }
  }

  // ----- the metadata query and the scan it replaces -----

  predicate InPage(rows: seq<Line>, deployment: nat, last: int, k: nat)
    requires k < |rows|
  {
    rows[k].deployment == deployment && rows[k].id <= last
  }

  /** Flagged, and no flagged row of its group in the page has a higher id. */
  predicate Selected(rows: seq<Line>, deployment: nat, last: int, k: nat)
    requires k < |rows|
  {
    && InPage(rows, deployment, last, k) && rows[k].flagged
    && forall j :: 0 <= j < |rows| && InPage(rows, deployment, last, j) && rows[j].flagged && SameGroup(rows[j], rows[k]) ==>
         rows[j].id <= rows[k].id
  }

  /** What a reader of every line would pick: the latest row with a state, else the first row of the group. */
  predicate Representative(rows: seq<Line>, deployment: nat, last: int, k: nat)
    requires k < |rows|
  {
    && InPage(rows, deployment, last, k)
    && if rows[k].state.Some? then
         forall j :: k < j < |rows| && InPage(rows, deployment, last, j) && SameGroup(rows[j], rows[k]) ==> rows[j].state.None?
       else
         First(rows, k)
         && forall j :: k < j < |rows| && InPage(rows, deployment, last, j) && SameGroup(rows[j], rows[k]) ==> rows[j].state.None?
  }

  /** The rows among the first `n` that satisfy the condition, by ascending id. */
  function Filter(rows: seq<Line>, keep: int -> bool, n: nat): seq<Line>
    requires n <= |rows|
  {
    if n == 0 then [] else Filter(rows, keep, n - 1) + if keep(n - 1) then [rows[n - 1]] else []
  }

  function StateRows(rows: seq<Line>, deployment: nat, last: int): seq<Line> {
    Filter(rows, k => 0 <= k < |rows| && Selected(rows, deployment, last, k), |rows|)
  }

  /** What the query returns of a row: its text only when that is the cancellation line asked for. */
  datatype Metadata = Metadata(id: int, index: Option<int>, name: Option<Text>, state: Option<Text>, text: Text)

  function Brief(row: Line, cancellation: Text): Metadata {
    Metadata(row.id, row.index, row.name, row.state, if row.text == cancellation then cancellation else [])
  }

  function ListStateMetadata(rows: seq<Line>, deployment: nat, last: int, cancellation: Text): seq<Metadata> {
    var listed := StateRows(rows, deployment, last);
    seq(|listed|, k requires 0 <= k < |listed| => Brief(listed[k], cancellation))
  }

  function FullScan(rows: seq<Line>, deployment: nat, last: int): seq<Line> {
    Filter(rows, k => 0 <= k < |rows| && Representative(rows, deployment, last, k), |rows|)
  }

  lemma SelectedIsRepresentative(rows: seq<Line>, deployment: nat, last: int, k: nat)
    requires Valid(rows) && k < |rows|
    ensures Selected(rows, deployment, last, k) <==> Representative(rows, deployment, last, k)
  {
    if Selected(rows, deployment, last, k) {
      forall j | k < j < |rows| && InPage(rows, deployment, last, j) && SameGroup(rows[j], rows[k])
        ensures rows[j].state.None?
      {
        assert rows[k].id < rows[j].id;
      }
    }
    if Representative(rows, deployment, last, k) {
      forall j | 0 <= j < |rows| && InPage(rows, deployment, last, j) && rows[j].flagged && SameGroup(rows[j], rows[k])
        ensures rows[j].id <= rows[k].id
      {
        assert j > k ==> !First(rows, j);
        assert j < k ==> rows[j].id < rows[k].id;
      }
    }
  }

  lemma {:induction false} FilterSame(rows: seq<Line>, f: int -> bool, g: int -> bool, n: nat)
    requires n <= |rows| && forall k :: 0 <= k < n ==> f(k) == g(k)
    ensures Filter(rows, f, n) == Filter(rows, g, n)
  {
    if n > 0 {
      FilterSame(rows, f, g, n - 1);
    }
  }

  /** Up to any id, the indexed query returns exactly what a scan over every line returns, in the same order. */
  lemma IndexReplacesTheScan(rows: seq<Line>, deployment: nat, last: int)
    requires Valid(rows)
    ensures StateRows(rows, deployment, last) == FullScan(rows, deployment, last)
  {
    var f := k => 0 <= k < |rows| && Selected(rows, deployment, last, k);
    var g := k => 0 <= k < |rows| && Representative(rows, deployment, last, k);
    forall k | 0 <= k < |rows| ensures f(k) == g(k) {
      SelectedIsRepresentative(rows, deployment, last, k);
    }
    FilterSame(rows, f, g, |rows|);
  }

  /** Every group of the page has a representative. */
  lemma GroupRepresented(rows: seq<Line>, deployment: nat, last: int, k: nat) returns (r: nat)
    requires Valid(rows) && k < |rows| && InPage(rows, deployment, last, k)
    ensures r < |rows| && SameGroup(rows[r], rows[k]) && Representative(rows, deployment, last, r)
  {
    hide First;
    var f := FirstOfGroup(rows, k);
    r := f;
    for j := f + 1 to |rows|
      invariant f <= r < |rows| && SameGroup(rows[r], rows[k]) && InPage(rows, deployment, last, r)
      invariant rows[r].state.None? ==> r == f
      invariant r < j
      invariant forall i :: r < i < j && InPage(rows, deployment, last, i) && SameGroup(rows[i], rows[k]) ==> rows[i].state.None?
    {
      if InPage(rows, deployment, last, j) && SameGroup(rows[j], rows[k]) && rows[j].state.Some? {
        r := j;
      }
    }
  }

  /** And only one. */
  lemma OneRepresentative(rows: seq<Line>, deployment: nat, last: int, i: nat, k: nat)
    requires Valid(rows) && i < |rows| && k < |rows| && SameGroup(rows[i], rows[k])
    requires Representative(rows, deployment, last, i) && Representative(rows, deployment, last, k)
    ensures i == k
  {
  }

  lemma {:induction false} FilterExactly(rows: seq<Line>, keep: int -> bool, n: nat)
    requires n <= |rows|
    ensures forall row :: row in Filter(rows, keep, n) <==> exists k :: 0 <= k < n && keep(k) && rows[k] == row
    ensures Increasing(rows) ==> Increasing(Filter(rows, keep, n))
  {
    if n > 0 {
      FilterExactly(rows, keep, n - 1);
      var before := Filter(rows, keep, n - 1);
      forall row ensures row in Filter(rows, keep, n) <==> exists k :: 0 <= k < n && keep(k) && rows[k] == row {
        if k :| 0 <= k < n && keep(k) && rows[k] == row {
          if k < n - 1 { assert row in before; }
        }
      }
      if Increasing(rows) {
        forall j | 0 <= j < |before| ensures before[j].id < rows[n - 1].id {
          assert before[j] in before;
        }
      }
    }
  }

  /** The rows listed are exactly those selected, by strictly increasing id. */
  lemma ListedExactly(rows: seq<Line>, deployment: nat, last: int)
    requires Valid(rows)
    ensures
      var listed := StateRows(rows, deployment, last);
      && Increasing(listed)
      && forall row :: row in listed <==> exists k :: 0 <= k < |rows| && Selected(rows, deployment, last, k) && rows[k] == row
  {
    var keep := k => 0 <= k < |rows| && Selected(rows, deployment, last, k);
    FilterExactly(rows, keep, |rows|);
    forall row
      ensures row in StateRows(rows, deployment, last)
        <==> exists k :: 0 <= k < |rows| && Selected(rows, deployment, last, k) && rows[k] == row
    {
      if k :| 0 <= k < |rows| && keep(k) && rows[k] == row { assert Selected(rows, deployment, last, k); }
      if k :| 0 <= k < |rows| && Selected(rows, deployment, last, k) && rows[k] == row { assert keep(k); }
    }
  }

  /** The group of a listed entry, as a reader sees it. */
  predicate InGroup(m: Metadata, row: Line) {
    m.index == row.index && m.name == row.name
  }

  /**
   Every group of the page is listed exactly once: by its latest row with a
   state, else by its first row.
   */
  lemma EachGroupOnce(rows: seq<Line>, deployment: nat, last: int, cancellation: Text, k: nat) returns (at: nat, r: nat)
    requires Valid(rows) && k < |rows| && rows[k].deployment == deployment && rows[k].id <= last
    ensures
      var listed := ListStateMetadata(rows, deployment, last, cancellation);
      && at < |listed| && InGroup(listed[at], rows[k])
      && (forall j :: 0 <= j < |listed| && InGroup(listed[j], rows[k]) ==> j == at)
      && r < |rows| && SameGroup(rows[r], rows[k]) && rows[r].id <= last
      && (forall j :: 0 <= j < |rows| && SameGroup(rows[j], rows[k]) && r < j && rows[j].id <= last ==> rows[j].state.None?)
      && (rows[r].state.None? ==> forall j :: 0 <= j < r ==> !SameGroup(rows[j], rows[k]))
      && listed[at].id == rows[r].id && listed[at].state == rows[r].state
      && listed[at].text == (if rows[r].text == cancellation then cancellation else [])
  {
    hide StateRows;
    var listed := StateRows(rows, deployment, last);
    ListedExactly(rows, deployment, last);
    r := GroupRepresented(rows, deployment, last, k);
    SelectedIsRepresentative(rows, deployment, last, r);
    assert rows[r] in listed;
    at :| at < |listed| && listed[at] == rows[r];
    forall j | 0 <= j < |listed| && listed[j].index == rows[k].index && listed[j].name == rows[k].name ensures j == at {
      assert listed[j] in listed;
      var i :| 0 <= i < |rows| && Selected(rows, deployment, last, i) && rows[i] == listed[j];
      SelectedIsRepresentative(rows, deployment, last, i);
      OneRepresentative(rows, deployment, last, i, r);
    }
  }
}
