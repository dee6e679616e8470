/**
 Properties of the plan-review passes: every visitor consumes what plain
 validation consumes, the preview and the gate agree, and the preview accounts
 for every resource.
 */
module PlanReviewProofs {
  import opened Common
  import opened JsonBytes
  import opened JsonScan
  import opened JsonGrammar
  import opened JsonGrammarProofs
  import opened PlanReview

  // ----- visitors only look: they consume exactly what skipping consumes -----

  ghost predicate Skipped(x: Option<Extent>, r: Option<Step>) {
    r.Some? ==> x == Some(Extent(r.value.end, r.value.height))
  }

  /** One turn of the item loop. */
  lemma RunStep(env: Env, s: seq<byte>, i: nat, item: Item, acc: nat, f: Frames)
    requires i <= |s|
    ensures ItemsRun(env, s, i, item, acc, f) ==
      match RunItem(env, s, i, item, f)
      case None => None
      case Some(st) =>
        var a := SpaceEnd(s, st.end);
        if a == |s| then None
        else if s[a] == Closer(item.Keyed()) then Some(Step(a + 1, 1 + Max(acc, st.height), st.f))
        else if s[a] != COMMA || SpaceEnd(s, a + 1) == |s| then None
        else ItemsRun(env, s, SpaceEnd(s, a + 1), item, Max(acc, st.height), st.f)
  {
    hide RunItem, SpaceEnd, Max;
  }

  lemma VersionSkips(env: Env, s: seq<byte>, i: nat)
    requires i <= |s| && VersionAt(env, s, i).Some?
    ensures ValueAt(s, i) == Some(Extent(VersionAt(env, s, i).value.0, 0))
  {
  }

  lemma CaptureSkips(s: seq<byte>, i: nat, limit: nat)
    requires i <= |s| && CaptureAt(s, i, limit).Some?
    ensures ValueAt(s, i) == Some(CaptureAt(s, i, limit).value.x)
  {
    ValueSkipsSpace(s, i);
  }

  lemma ContainerIsValue(s: seq<byte>, i: nat, keyed: bool)
    requires i <= |s| && ContainerAt(s, i, keyed).Some?
    ensures ValueAt(s, i) == ContainerAt(s, i, keyed)
  {
    hide ItemsAt;
    SpaceEndIs(s, SpaceEnd(s, i), []);
  }

  /** Whatever a visitor does with an item, it ends where skipping the item ends. */
  lemma {:induction false} ItemSkips(env: Env, s: seq<byte>, i: nat, item: Item, f: Frames)
    requires i <= |s|
    ensures Skipped(ItemAt(s, i, item.Keyed()), RunItem(env, s, i, item, f))
    decreases |s| - i, 3
  {
    hide ValueAt, ContainerAt, ContainerRun, SpaceEnd, NameAt, VersionAt, ValueField, AddAction, Visit, StringEnd, EntryAt;
    match item {
      case AnyValue =>
      case AnyMember =>
      case EntryItem =>
        EntrySkips(env, s, i, f);
      case ActionItem(details) =>
        if VersionAt(env, s, i).Some? { VersionSkips(env, s, i); }
      case _ =>
        if StringEnd(s, i).Some? {
          var a := SpaceEnd(s, StringEnd(s, i).value);
          if a < |s| && s[a] == COLON {
            VisitSkips(env, s, a + 1, item, NameAt(env, s, i), f);
          }
        }
    }
  }

  lemma {:induction false} VisitSkips(env: Env, s: seq<byte>, i: nat, item: Item, key: Text, f: Frames)
    requires i <= |s|
    ensures Skipped(ValueAt(s, i), Visit(env, s, i, item, key, f))
    decreases |s| - i, 2
  {
    hide ValueAt, ContainerAt, ContainerRun, SpaceEnd, FoldsTo, ValueField, VersionAt, CaptureAt;
    var visit := Visit(env, s, i, item, key, f);
    match item {
      case RootMember =>
        if IsFormatVersion(key) {
          if visit.Some? { VersionSkips(env, s, i); }
        } else if IsResourceChanges(key) {
          ContainerSkips(env, s, i, EntryItem, f.(review := NO_REVIEW, preview := NO_PREVIEW));
        }
      case EntryMember(details) =>
        if IsAddress(key) && details {
          AddressSkips(env, s, i, f);
        } else if IsChange(key) {
          ContainerSkips(env, s, i, ChangeMember(details), f);
        }
      case ChangeMember(details) =>
        if IsActions(key) {
          ActionsSkip(env, s, i, details, f);
        } else if details && ValueField(key).Some? && visit.Some? {
          CaptureSkips(s, i, VALUE_BYTES);
        }
      case SummaryMember =>
        if visit.Some? { SummarySkips(s, i); }
      case _ =>
    }
  }

  lemma IntegerStarts(raw: seq<byte>)
    requires IntegerOf(raw).Some?
    ensures raw != [] && (raw[0] == MINUS || IsDigit(raw[0]))
  {
  }

  /** An integer is no container. */
  lemma SummarySkips(s: seq<byte>, i: nat)
    requires i <= |s| && SummaryValue(s, i).Some?
    ensures ValueAt(s, i) == Some(Extent(SummaryValue(s, i).value.0, 0))
  {
    hide IntegerOf, ContainerAt, NumberEnd;
    ValueSkipsSpace(s, i);
    var a := SpaceEnd(s, i);
    if s[a] != SMALL_N {
      var x := ValueAt(s, a).value;
      var raw := s[a..x.end];
      assert raw[0] == s[a] && IntegerOf(raw).Some?;
      IntegerStarts(raw);
      SpaceEndIs(s, a, []);
    }
  }

  lemma AddressSkips(env: Env, s: seq<byte>, i: nat, f: Frames)
    requires i <= |s|
    ensures Skipped(ValueAt(s, i), AddressAt(env, s, i, f))
  {
    hide ContainerAt;
    ValueSkipsSpace(s, i);
    if AddressAt(env, s, i, f).Some? && s[SpaceEnd(s, i)] != SMALL_N {
      CaptureSkips(s, SpaceEnd(s, i), ADDRESS_BYTES);
    }
  }

  lemma {:induction false} ActionsSkip(env: Env, s: seq<byte>, i: nat, details: bool, f: Frames)
    requires i <= |s|
    ensures Skipped(ValueAt(s, i), ActionsAt(env, s, i, details, f))
    decreases |s| - i, 1
  {
    hide ValueAt, ContainerRun, SpaceEnd;
    ValueSkipsSpace(s, i);
    var a := SpaceEnd(s, i);
    if a < |s| {
      var list := if details && s[a] == OPEN_ARRAY then Some([]) else None;
      ContainerSkips(env, s, a, ActionItem(details), f.(acts := ActionList(list, NO_COUNTS, true, false)));
    }
  }

  lemma {:induction false} EntrySkips(env: Env, s: seq<byte>, i: nat, f: Frames)
    requires i <= |s|
    ensures Skipped(ValueAt(s, i), EntryAt(env, s, i, f))
    decreases |s| - i, 1
  {
    hide ValueAt, ContainerRun, Settle;
    var details := env.render.Some? && f.preview.CanRetain(|f.review.changes|);
    ContainerSkips(env, s, i, EntryMember(details), f.(entry := NO_ENTRY));
  }

  lemma {:induction false} ContainerSkips(env: Env, s: seq<byte>, i: nat, item: Item, f: Frames)
    requires i <= |s|
    ensures Skipped(ValueAt(s, i), ContainerRun(env, s, i, item, f))
    decreases |s| - i, 0
  {
    hide ValueAt, ItemsAt, ItemsRun;
    var run := ContainerRun(env, s, i, item, f);
    var b := SpaceEnd(s, i);
    if run.Some? {
      if s[b] == Opening(item.Keyed()) {
        var c := SpaceEnd(s, b + 1);
        if s[c] != Closer(item.Keyed()) {
          ItemsSkip(env, s, c, item, 0, f);
        }
      }
      assert ContainerAt(s, i, item.Keyed()) == Some(Extent(run.value.end, run.value.height));
      ContainerIsValue(s, i, item.Keyed());
    }
  }

  lemma {:induction false} ItemsSkip(env: Env, s: seq<byte>, i: nat, item: Item, acc: nat, f: Frames)
    requires i <= |s|
    ensures Skipped(ItemsAt(s, i, item.Keyed(), acc), ItemsRun(env, s, i, item, acc, f))
    decreases |s| - i, 4
  {
    hide ItemsAt, ItemsRun, RunItem, ItemAt, SpaceEnd;
    RunStep(env, s, i, item, acc, f);
    ItemSkips(env, s, i, item, f);
    if ItemsRun(env, s, i, item, acc, f).Some? {
      ItemsStep(s, i, item.Keyed(), acc);
      var st := RunItem(env, s, i, item, f).value;
      var a := SpaceEnd(s, st.end);
      if s[a] != Closer(item.Keyed()) {
        ItemsSkip(env, s, SpaceEnd(s, a + 1), item, Max(acc, st.height), st.f);
      }
    }
  }

  /** Both passes validate: a plan either of them accepts is a JSON text of RFC 8259. */
  lemma AcceptedIsJson(env: Env, s: seq<byte>)
    requires Complete(s, Terraform(env, s)).Some?
    ensures exists d: Document :: d.WF() && d.Bytes() == s && Height(d.v) <= MAX_DEPTH
  {
    ContainerSkips(env, s, 0, RootMember, START);
    DocumentIsGrammar(s);
  }

  // ----- the gate and the preview -----

  /** What counting and previewing must agree on. */
  ghost predicate Agree(f: Frames, g: Frames) {
    && f.version == g.version
    && f.review.counts == g.review.counts && f.review.invalid == g.review.invalid
    && f.entry.counts == g.entry.counts && f.entry.invalid == g.entry.invalid
    && f.acts.counts == g.acts.counts && f.acts.valid == g.acts.valid
  }

  /** If the run `r` succeeded, so did the counting run `c`, in step. */
  ghost predicate InStep(r: Option<Step>, c: Option<Step>) {
    r.Some? ==> c.Some? && r.value.end == c.value.end && r.value.height == c.value.height && Agree(r.value.f, c.value.f)
  }

  lemma {:induction false} ItemAgrees(env: Env, s: seq<byte>, i: nat, item: Item, f: Frames, g: Frames)
    requires i <= |s| && Agree(f, g)
    ensures InStep(RunItem(env, s, i, item, f), RunItem(env.Counting(), s, i, item.Undetailed(), g))
    decreases |s| - i, 3
  {
    hide ValueAt, MemberAt, SpaceEnd, ContainerRun, Visit, Tally;
    match item {
      case EntryItem => EntryAgrees(env, s, i, f, g);
      case AnyValue =>
      case AnyMember =>
      case ActionItem(details) =>
        assert VersionAt(env.Counting(), s, i) == VersionAt(env, s, i);
      case _ =>
        if StringEnd(s, i).Some? {
          var a := SpaceEnd(s, StringEnd(s, i).value);
          if a < |s| && s[a] == COLON {
            assert NameAt(env.Counting(), s, i) == NameAt(env, s, i);
            VisitAgrees(env, s, a + 1, item, NameAt(env, s, i), f, g);
          }
        }
    }
  }

  lemma {:induction false} VisitAgrees(env: Env, s: seq<byte>, i: nat, item: Item, key: Text, f: Frames, g: Frames)
    requires i <= |s| && Agree(f, g) && item.Keyed()
    ensures InStep(Visit(env, s, i, item, key, f), Visit(env.Counting(), s, i, item.Undetailed(), key, g))
    decreases |s| - i, 2
  {
    hide ValueAt, SpaceEnd, ContainerRun, FoldsTo, ValueField, CaptureAt;
    match item {
      case RootMember =>
        if IsFormatVersion(key) {
          assert VersionAt(env.Counting(), s, i) == VersionAt(env, s, i);
        } else if IsResourceChanges(key) {
          ContainerAgrees(env, s, i, EntryItem, f.(review := NO_REVIEW, preview := NO_PREVIEW),
                          g.(review := NO_REVIEW, preview := NO_PREVIEW));
        }
      case EntryMember(details) =>
        if IsAddress(key) && details {
          AddressSkips(env, s, i, f);
        } else if IsChange(key) {
          ContainerAgrees(env, s, i, ChangeMember(details), f, g);
        }
      case ChangeMember(details) =>
        if IsActions(key) {
          ActionsAgree(env, s, i, details, f, g);
        } else if details && ValueField(key).Some? && CaptureAt(s, i, VALUE_BYTES).Some? {
          CaptureSkips(s, i, VALUE_BYTES);
        }
      case _ =>
    }
  }

  lemma {:induction false} ActionsAgree(env: Env, s: seq<byte>, i: nat, details: bool, f: Frames, g: Frames)
    requires i <= |s| && Agree(f, g)
    ensures InStep(ActionsAt(env, s, i, details, f), ActionsAt(env.Counting(), s, i, false, g))
    decreases |s| - i, 1
  {
    hide ContainerRun;
    var a := SpaceEnd(s, i);
    if a < |s| {
      var list := if details && s[a] == OPEN_ARRAY then Some([]) else None;
      ContainerAgrees(env, s, a, ActionItem(details), f.(acts := ActionList(list, NO_COUNTS, true, false)),
                      g.(acts := ActionList(None, NO_COUNTS, true, false)));
    }
  }

  lemma {:induction false} EntryAgrees(env: Env, s: seq<byte>, i: nat, f: Frames, g: Frames)
    requires i <= |s| && Agree(f, g)
    ensures InStep(EntryAt(env, s, i, f), EntryAt(env.Counting(), s, i, g))
    decreases |s| - i, 1
  {
    hide ContainerRun;
    var details := env.render.Some? && f.preview.CanRetain(|f.review.changes|);
    ContainerAgrees(env, s, i, EntryMember(details), f.(entry := NO_ENTRY), g.(entry := NO_ENTRY));
  }

  lemma {:induction false} ContainerAgrees(env: Env, s: seq<byte>, i: nat, item: Item, f: Frames, g: Frames)
    requires i <= |s| && Agree(f, g)
    ensures InStep(ContainerRun(env, s, i, item, f), ContainerRun(env.Counting(), s, i, item.Undetailed(), g))
    decreases |s| - i, 0
  {
    hide ItemsRun;
    var a := SpaceEnd(s, i);
    if a < |s| && s[a] == Opening(item.Keyed()) {
      var b := SpaceEnd(s, a + 1);
      if b < |s| && s[b] != Closer(item.Keyed()) {
        ItemsAgree(env, s, b, item, 0, f, g);
      }
    }
  }

  lemma {:induction false} ItemsAgree(env: Env, s: seq<byte>, i: nat, item: Item, acc: nat, f: Frames, g: Frames)
    requires i <= |s| && Agree(f, g)
    ensures InStep(ItemsRun(env, s, i, item, acc, f), ItemsRun(env.Counting(), s, i, item.Undetailed(), acc, g))
    decreases |s| - i, 4
  {
    hide ItemsRun, RunItem, SpaceEnd;
    RunStep(env, s, i, item, acc, f);
    RunStep(env.Counting(), s, i, item.Undetailed(), acc, g);
    ItemAgrees(env, s, i, item, f, g);
    var r := RunItem(env, s, i, item, f);
    if r.Some? {
      var c := RunItem(env.Counting(), s, i, item.Undetailed(), g);
      var a := SpaceEnd(s, r.value.end);
      if a < |s| && s[a] == COMMA && SpaceEnd(s, a + 1) < |s| {
        ItemsAgree(env, s, SpaceEnd(s, a + 1), item, Max(acc, r.value.height), r.value.f, c.value.f);
      }
    }
  }

  /**
   Whenever the preview of a plan can be shown, the gate accepts the same plan,
   ends at the same byte and counts the actions the preview pass counted,
   whatever the preview limits left out.
   */
  lemma PreviewImpliesGate(env: Env, s: seq<byte>)
    requires PreviewResponse(env, s).Some?
    ensures GateCounts(env, s).Some?
    ensures Terraform(env.Counting(), s).value.end == Terraform(env, s).value.end
    ensures GateCounts(env, s) == Some(Terraform(env, s).value.f.review.counts)
  {
    hide ContainerRun, SpaceEnd;
    ContainerAgrees(env, s, 0, RootMember, START, START);
  }

  // ----- conservation -----

  function TextSize(changes: seq<Change>): nat {
    if changes == [] then 0
    else
      var c := changes[|changes| - 1];
      TextSize(changes[..|changes| - 1]) + |c.address| + |c.before| + |c.after|
  }

  predicate Trimmed(c: Change) {
    |c.omittedFields| > 0
  }

  /** The preview after `n` resources: every one is retained or counted as omitted, within the limits. */
  ghost predicate Accounted(f: Frames, n: nat) {
    && |f.review.changes| + f.preview.omitted == n
    && |f.review.changes| <= 100
    && f.preview.used == TextSize(f.review.changes) <= 1048576
    && (f.preview.truncated <==> f.preview.omitted > 0 || exists c :: c in f.review.changes && Trimmed(c))
  }

  lemma AnyTrimmed(changes: seq<Change>, c: Change)
    ensures (exists x :: x in changes + [c] && Trimmed(x)) <==> Trimmed(c) || exists x :: x in changes && Trimmed(x)
  {
    assert c in changes + [c];
    assert forall x :: x in changes ==> x in changes + [c];
  }

  lemma SettleAccounts(env: Env, f: Frames, n: nat)
    requires env.render.Some? && Accounted(f, n)
    ensures
      var details := f.preview.CanRetain(|f.review.changes|);
      Settle(env, details, f).Some? ==> Accounted(Settle(env, details, f).value, n + 1)
  {
    var changes := f.review.changes;
    if f.preview.CanRetain(|changes|) {
      var c := env.render.value(f.rendered, f.entry.resource);
      if c.Some? && f.preview.Fits(c.value) {
        AnyTrimmed(changes, c.value);
        assert (changes + [c.value])[..|changes|] == changes;
      }
    }
  }
}
