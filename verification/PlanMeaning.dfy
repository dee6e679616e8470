/**
 What a plan or a summary means, on the tree of its JSON text: which documents
 the gate accepts, what it counts, and what a preview shows.
 */
module PlanMeaning {
  import opened Common
  import opened JsonBytes
  import opened JsonScan
  import opened JsonGrammarProofs
  import opened PlanReview
  import opened PlanReviewProofs
  import opened PlanTree
  import G = JsonGrammar

  // ----- trees as members and elements -----

  type Named = (Text, G.Value)

  function MembersOf(env: Env, es: G.Entries): (ms: seq<Named>)
    ensures ms != []
  {
    [(NameOf(env, es.e.name), es.e.v)] + if es.More? then MembersOf(env, es.rest) else []
  }

  function Members(env: Env, v: G.Value): seq<Named> {
    if v.Full? && v.keyed then MembersOf(env, v.entries) else []
  }

  function ElementsOf(es: G.Entries): seq<G.Value> {
    [es.e.v] + if es.More? then ElementsOf(es.rest) else []
  }

  function Elements(v: G.Value): seq<G.Value> {
    if v.Full? && !v.keyed then ElementsOf(v.entries) else []
  }

  /** An object, or null in its place. */
  predicate IsObject(v: G.Value) {
    v.NullLiteral? || ((v.Hollow? || v.Full?) && v.keyed)
  }

  predicate IsList(v: G.Value) {
    v.NullLiteral? || IsArray(v)
  }

  // ----- names of members -----

  /** A key with letter case removed: ASCII capitals, the long s (U+017F) and the Kelvin sign (U+212A). */
  function Folded(key: Text): Text {
    if key == [] then []
    else if |key| >= 2 && key[0] == 0xC5 && key[1] == 0xBF then Ascii("s") + Folded(key[2..])
    else if |key| >= 3 && key[0] == 0xE2 && key[1] == 0x84 && key[2] == 0xAA then Ascii("k") + Folded(key[3..])
    else [if 65 <= key[0] <= 90 then key[0] + 32 else key[0]] + Folded(key[1..])
  }

  lemma {:induction false} FoldsExactly(key: Text, name: Text)
    requires forall k :: 0 <= k < |name| ==> name[k] == 95 || 97 <= name[k] <= 122
    ensures FoldsTo(key, name) <==> Folded(key) == name
    decreases |name|
  {
    assert Ascii("s") == [115] && Ascii("k") == [107];
    if name != [] && key != [] {
      var rest := name[1..];
      FoldsExactly(key[1..], rest);
      if |key| >= 2 && key[0] == 0xC5 && key[1] == 0xBF {
        assert key[..2] == [0xC5, 0xBF];
        FoldsExactly(key[2..], rest);
        assert Folded(key) == [115] + Folded(key[2..]);
      } else if |key| >= 3 && key[0] == 0xE2 && key[1] == 0x84 && key[2] == 0xAA {
        assert key[..3] == [0xE2, 0x84, 0xAA];
        FoldsExactly(key[3..], rest);
        assert Folded(key) == [107] + Folded(key[3..]);
      } else {
        assert |key| >= 2 ==> key[..2] != [0xC5, 0xBF] by { if |key| >= 2 { assert key[..2][0] == key[0] && key[..2][1] == key[1]; } }
        assert |key| >= 3 ==> key[..3] != [0xE2, 0x84, 0xAA] by {
          if |key| >= 3 { assert key[..3][0] == key[0] && key[..3][1] == key[1] && key[..3][2] == key[2]; }
        }
      }
      assert name == [name[0]] + rest;
    }
  }

  /** Which key a visitor takes for which name: exactly the one that reads so without letter case. */
  lemma NamesExactly(key: Text)
    ensures IsFormatVersion(key) <==> Folded(key) == Ascii("format_version")
    ensures IsResourceChanges(key) <==> Folded(key) == Ascii("resource_changes")
    ensures IsAddress(key) <==> Folded(key) == Ascii("address")
    ensures IsChange(key) <==> Folded(key) == Ascii("change")
    ensures IsActions(key) <==> Folded(key) == Ascii("actions")
    ensures ValueField(key) ==
      var name := Folded(key);
      if name == Ascii("before") then Some(Before)
      else if name == Ascii("after") then Some(After)
      else if name == Ascii("before_sensitive") then Some(BeforeSensitive)
      else if name == Ascii("after_sensitive") then Some(AfterSensitive)
      else if name == Ascii("after_unknown") then Some(AfterUnknown)
      else None
  {
    hide Folded, FoldsTo;
    FoldsExactly(key, Ascii("format_version"));
    FoldsExactly(key, Ascii("resource_changes"));
    FoldsExactly(key, Ascii("address"));
    FoldsExactly(key, Ascii("change"));
    FoldsExactly(key, Ascii("actions"));
    FoldsExactly(key, Ascii("before"));
    FoldsExactly(key, Ascii("after"));
    FoldsExactly(key, Ascii("before_sensitive"));
    FoldsExactly(key, Ascii("after_sensitive"));
    FoldsExactly(key, Ascii("after_unknown"));
    assert |Ascii("format_version")| == 14 && |Ascii("resource_changes")| == 16 && |Ascii("address")| == 7 && |Ascii("change")| == 6;
  }

  // ----- actions -----

  predicate IsShort(v: G.Value) {
    v.NullLiteral? || v.String?
  }

  predicate ActionsOK(v: G.Value) {
    IsList(v) && forall x :: x in Elements(v) ==> IsShort(x)
  }

  function TextOf(env: Env, v: G.Value): Text {
    if v.String? then ShortText(env, v.atoms) else []
  }

  function TextsOf(env: Env, vs: seq<G.Value>): seq<Text> {
    seq(|vs|, k requires 0 <= k < |vs| => TextOf(env, vs[k]))
  }

  function ActionTexts(env: Env, v: G.Value): seq<Text> {
    TextsOf(env, Elements(v))
  }

  function Occurrences(texts: seq<Text>, action: Text): nat {
    if texts == [] then 0 else Occurrences(texts[..|texts| - 1], action) + if texts[|texts| - 1] == action then 1 else 0
  }

  predicate Known(action: Text) {
    action in {Ascii("create"), Ascii("update"), Ascii("delete"), Ascii("read"), Ascii("no-op")}
  }

  predicate AllKnown(texts: seq<Text>) {
    forall k :: 0 <= k < |texts| ==> Known(texts[k])
  }

  function CountsIn(texts: seq<Text>): Counts {
    Counts(Occurrences(texts, Ascii("create")), Occurrences(texts, Ascii("update")),
           Occurrences(texts, Ascii("delete")), Occurrences(texts, Ascii("read")))
  }

  // ----- changes, resources and plans: the last member of a name decides -----

  predicate ChangeOK(env: Env, v: G.Value) {
    IsObject(v) && forall m :: m in Members(env, v) ==> (IsActions(m.0) ==> ActionsOK(m.1))
  }

  function LastActions(env: Env, ms: seq<Named>, before: seq<Text>): seq<Text>
    decreases |ms|
  {
    if ms == [] then before
    else LastActions(env, ms[1..], if IsActions(ms[0].0) then ActionTexts(env, ms[0].1) else before)
  }

  predicate EntryOK(env: Env, v: G.Value) {
    IsObject(v) && forall m :: m in Members(env, v) ==> (IsChange(m.0) ==> ChangeOK(env, m.1))
  }

  /** The actions of a resource: the last ones named in any of its changes. */
  function EntryActions(env: Env, ms: seq<Named>, before: seq<Text>): seq<Text>
    decreases |ms|
  {
    if ms == [] then before
    else EntryActions(env, ms[1..], if IsChange(ms[0].0) then LastActions(env, Members(env, ms[0].1), before) else before)
  }

  function ActionsOf(env: Env, v: G.Value): seq<Text> {
    EntryActions(env, Members(env, v), [])
  }

  predicate PlanOK(env: Env, v: G.Value) {
    IsObject(v) && forall m :: m in Members(env, v) ==> RootOK(env, m)
  }

  predicate RootOK(env: Env, m: Named) {
    if IsFormatVersion(m.0) then IsShort(m.1)
    else IsResourceChanges(m.0) ==> IsList(m.1) && forall x :: x in Elements(m.1) ==> EntryOK(env, x)
  }

  function LastVersion(env: Env, ms: seq<Named>, before: Text): Text
    decreases |ms|
  {
    if ms == [] then before
    else LastVersion(env, ms[1..], if IsFormatVersion(ms[0].0) && ms[0].1.String? then TextOf(env, ms[0].1) else before)
  }

  function LastResources(env: Env, ms: seq<Named>, before: seq<G.Value>): seq<G.Value>
    decreases |ms|
  {
    if ms == [] then before
    else LastResources(env, ms[1..], if IsResourceChanges(ms[0].0) then Elements(ms[0].1) else before)
  }

  function Version(env: Env, v: G.Value): Text {
    LastVersion(env, Members(env, v), [])
  }

  /** The resources of a plan: the elements of its last resource_changes array. */
  function Resources(env: Env, v: G.Value): seq<G.Value> {
    LastResources(env, Members(env, v), [])
  }

  function Total(env: Env, vs: seq<G.Value>): Counts {
    if vs == [] then NO_COUNTS else Total(env, vs[..|vs| - 1]).Plus(CountsIn(ActionsOf(env, vs[|vs| - 1])))
  }

  predicate AllActionsKnown(env: Env, vs: seq<G.Value>) {
    forall x :: x in vs ==> AllKnown(ActionsOf(env, x))
  }

  /** The gate's answer for a plan: each action of each resource counted, or a refusal. */
  function PlanCounts(env: Env, v: G.Value): Option<Counts> {
    if G.Height(v) <= MAX_DEPTH && PlanOK(env, v) && Version(env, v) != [] && AllActionsKnown(env, Resources(env, v))
    then Some(Total(env, Resources(env, v))) else None
  }

  // ----- reading a resource for the preview -----

  function Listed(texts: seq<Text>): seq<Text> {
    if |texts| <= PREVIEW_ACTIONS then texts else texts[..PREVIEW_ACTIONS]
  }

  function WithActions(r: Resource, v: G.Value, texts: seq<Text>): Resource {
    r.(actions := if IsArray(v) then Some(Listed(texts)) else None).Mark(Actions, |texts| > PREVIEW_ACTIONS)
  }

  function ReadChangeMember(env: Env, m: Named, r: Resource): Option<Resource> {
    if IsActions(m.0) then if ActionsOK(m.1) then Some(WithActions(r, m.1, ActionTexts(env, m.1))) else None
    else if ValueField(m.0).Some? then TreeField(env, m.1, ValueField(m.0).value, r)
    else Some(r)
  }

  function ReadChange(env: Env, ms: seq<Named>, r: Resource): Option<Resource>
    decreases |ms|
  {
    if ms == [] then Some(r)
    else
      match ReadChangeMember(env, ms[0], r)
      case None => None
      case Some(q) => ReadChange(env, ms[1..], q)
  }

  function ReadEntryMember(env: Env, m: Named, r: Resource): Option<Resource> {
    if IsAddress(m.0) then TreeAddress(env, m.1, r)
    else if IsChange(m.0) then if IsObject(m.1) then ReadChange(env, Members(env, m.1), r) else None
    else Some(r)
  }

  function ReadEntry(env: Env, ms: seq<Named>, r: Resource): Option<Resource>
    decreases |ms|
  {
    if ms == [] then Some(r)
    else
      match ReadEntryMember(env, ms[0], r)
      case None => None
      case Some(q) => ReadEntry(env, ms[1..], q)
  }

  /** The parts of a resource kept for rendering; None when something in it cannot be read. */
  function ResourceOf(env: Env, v: G.Value): Option<Resource> {
    if IsObject(v) then ReadEntry(env, Members(env, v), NO_RESOURCE) else None
  }

  /** The change could be the rendering of this resource. */
  ghost predicate Renders(env: Env, v: G.Value, c: Change)
    requires env.render.Some?
  {
    ResourceOf(env, v).Some? && exists n :: env.render.value(n, ResourceOf(env, v).value) == Some(c)
  }

  /** After these changes there may be no room for this resource: 100 changes, or 1 MiB of text with or without it. */
  ghost predicate NoRoom(env: Env, v: G.Value, cs: seq<Change>)
    requires env.render.Some?
  {
    || |cs| >= 100
    || TextSize(cs) >= 1048576
    || exists c :: Renders(env, v, c) && TextSize(cs) + |c.address| + |c.before| + |c.after| > 1048576
  }

  /** The changes render these resources in their order, leaving out only those there is no room for. */
  ghost predicate InOrder(env: Env, vs: seq<G.Value>, cs: seq<Change>)
    requires env.render.Some?
    decreases |vs|
  {
    if vs == [] then cs == []
    else
      var rest, last := vs[..|vs| - 1], vs[|vs| - 1];
      || (InOrder(env, rest, cs) && NoRoom(env, last, cs))
      || (cs != [] && Renders(env, last, cs[|cs| - 1]) && InOrder(env, rest, cs[..|cs| - 1]))
  }

  // ----- actions are counted and listed exactly -----

  lemma OccursMore(before: seq<Text>, action: Text, name: Text)
    ensures Occurrences(before + [action], name) == Occurrences(before, name) + if action == name then 1 else 0
  {
    assert (before + [action])[..|before|] == before;
  }

  lemma NamesDiffer()
    ensures |Ascii("create")| == |Ascii("update")| == |Ascii("delete")| == 6 && |Ascii("read")| == 4 && |Ascii("no-op")| == 5
    ensures Ascii("create")[0] == 99 && Ascii("update")[0] == 117 && Ascii("delete")[0] == 100
  {
  }

  /** The bookkeeping for a list of actions: every kind counted, every unknown one noticed, the first 16 listed. */
  ghost predicate Tallied(acts: ActionList, texts: seq<Text>, details: bool) {
    && acts.counts == CountsIn(texts)
    && (acts.valid <==> AllKnown(texts))
    && (details && acts.list.Some? ==> acts.list.value == Listed(texts))
    && (acts.omitted <==> details && |texts| > PREVIEW_ACTIONS)
  }

  lemma TallyCounts(acts: ActionList, action: Text, details: bool)
    ensures
      var c := AddAction(acts, action, details).counts;
      && c.create == acts.counts.create + (if action == Ascii("create") then 1 else 0)
      && c.update == acts.counts.update + (if action == Ascii("update") then 1 else 0)
      && c.delete == acts.counts.delete + (if action == Ascii("delete") then 1 else 0)
      && c.read == acts.counts.read + (if action == Ascii("read") then 1 else 0)
    ensures AddAction(acts, action, details).valid <==> acts.valid && Known(action)
  {
    hide Ascii;
    NamesDiffer();
  }

  lemma TallyLists(acts: ActionList, before: seq<Text>, action: Text, details: bool)
    requires details ==> acts.list == Some(Listed(before))
    requires acts.omitted <==> details && |before| > PREVIEW_ACTIONS
    ensures
      var v, after := AddAction(acts, action, details), before + [action];
      && (details ==> v.list == Some(Listed(after)))
      && (!details ==> v.list == acts.list)
      && (v.omitted <==> details && |after| > PREVIEW_ACTIONS)
  {
    hide Tally;
    var after := before + [action];
    if |before| >= PREVIEW_ACTIONS {
      assert after[..PREVIEW_ACTIONS] == before[..PREVIEW_ACTIONS];
    }
  }

  lemma TallyOne(acts: ActionList, before: seq<Text>, action: Text, details: bool)
    requires Tallied(acts, before, details) && (details ==> acts.list.Some?)
    ensures Tallied(AddAction(acts, action, details), before + [action], details)
    ensures details ==> AddAction(acts, action, details).list.Some?
  {
    hide Ascii, AddAction, Occurrences, Known;
    TallyCounts(acts, action, details);
    TallyLists(acts, before, action, details);
    OccursMore(before, action, Ascii("create"));
    OccursMore(before, action, Ascii("update"));
    OccursMore(before, action, Ascii("delete"));
    OccursMore(before, action, Ascii("read"));
    var after := before + [action];
    assert after[|before|] == action && forall k :: 0 <= k < |before| ==> after[k] == before[k];
  }

  /** Everything but the actions of the current list is left alone. */
  ghost predicate OnlyActs(f: Frames, g: Frames) {
    g == f.(acts := g.acts)
  }

  lemma {:induction false} ActionsFold(env: Env, es: G.Entries, details: bool, f: Frames, before: seq<Text>)
    requires Tallied(f.acts, before, details) && (details ==> f.acts.list.Some?)
    ensures
      var g := TreeItems(env, es, ActionItem(details), f);
      && (g.Some? <==> forall x :: x in ElementsOf(es) ==> IsShort(x))
      && (g.Some? ==> Tallied(g.value.acts, before + TextsOf(env, ElementsOf(es)), details) && OnlyActs(f, g.value)
                      && (details ==> g.value.acts.list.Some?))
    decreases es
  {
    hide Tallied, AddAction, ShortText;
    var action := TextOf(env, es.e.v);
    if IsShort(es.e.v) {
      var acts := AddAction(f.acts, action, details);
      TallyOne(f.acts, before, action, details);
      var texts := TextsOf(env, ElementsOf(es));
      if es.More? {
        ActionsFold(env, es.rest, details, f.(acts := acts), before + [action]);
        assert texts == [action] + TextsOf(env, ElementsOf(es.rest));
        assert before + texts == before + [action] + TextsOf(env, ElementsOf(es.rest));
      } else {
        assert texts == [action];
      }
    }
  }

  /** What the counts of a resource say about these actions. */
  ghost predicate Says(e: PlanReview.Entry, texts: seq<Text>) {
    e.counts == CountsIn(texts) && (e.invalid <==> !AllKnown(texts))
  }

  /** Only the resource being read and its list of actions change. */
  ghost predicate OnlyEntry(f: Frames, g: Frames) {
    g == f.(acts := g.acts, entry := g.entry)
  }

  lemma ActionsMeaning(env: Env, v: G.Value, details: bool, f: Frames)
    ensures
      var g := TreeActions(env, v, details, f);
      && (g.Some? <==> ActionsOK(v))
      && (g.Some? ==> Says(g.value.entry, ActionTexts(env, v)) && OnlyEntry(f, g.value)
                      && (details ==> g.value.entry.resource == WithActions(f.entry.resource, v, ActionTexts(env, v))))
  {
    hide TreeItems, ShortText, ElementsOf, Known, TextOf;
    var list := if details && IsArray(v) then Some([]) else None;
    var acts := ActionList(list, NO_COUNTS, true, false);
    assert Tallied(acts, [], details);
    if v.Full? && !v.keyed {
      ActionsFold(env, v.entries, details, f.(acts := acts), []);
      assert [] + ActionTexts(env, v) == ActionTexts(env, v);
    } else {
      assert ActionTexts(env, v) == [];
    }
  }

  // ----- changes -----

  predicate ChangeMemberOK(env: Env, details: bool, m: Named, r: Resource) {
    if details then ReadChangeMember(env, m, r).Some? else IsActions(m.0) ==> ActionsOK(m.1)
  }

  lemma ChangeMemberMeaning(env: Env, e: G.Entry, details: bool, f: Frames, said: seq<Text>)
    requires Says(f.entry, said)
    ensures
      var m := (NameOf(env, e.name), e.v);
      var g := TreeItem(env, e, ChangeMember(details), f);
      && (g.Some? <==> ChangeMemberOK(env, details, m, f.entry.resource))
      && (g.Some? ==> Says(g.value.entry, if IsActions(m.0) then ActionTexts(env, m.1) else said) && OnlyEntry(f, g.value)
                      && (details ==> Some(g.value.entry.resource) == ReadChangeMember(env, m, f.entry.resource)))
  {
    hide TreeActions, FoldsTo, ValueField, TreeField, ActionTexts, ActionsOK, CountsIn, AllKnown, WithActions, NameOf;
    if IsActions(NameOf(env, e.name)) {
      ActionsMeaning(env, e.v, details, f);
    }
  }

  predicate ChangeReads(env: Env, details: bool, ms: seq<Named>, r: Resource) {
    if details then ReadChange(env, ms, r).Some? else forall m :: m in ms ==> (IsActions(m.0) ==> ActionsOK(m.1))
  }

  lemma ChangeReadsStep(env: Env, details: bool, m: Named, rest: seq<Named>, r: Resource, q: Resource)
    requires details && ReadChangeMember(env, m, r).Some? ==> q == ReadChangeMember(env, m, r).value
    ensures ChangeReads(env, details, [m] + rest, r) <==> ChangeMemberOK(env, details, m, r) && ChangeReads(env, details, rest, q)
  {
    hide ReadChangeMember, ActionsOK, IsActions;
    var ms := [m] + rest;
    assert ms[0] == m && ms[1..] == rest;
    assert forall x :: x in ms <==> x == m || x in rest;
  }

  lemma {:induction false} ChangeFold(env: Env, es: G.Entries, details: bool, f: Frames, said: seq<Text>)
    requires Says(f.entry, said)
    ensures
      var ms := MembersOf(env, es);
      var g := TreeItems(env, es, ChangeMember(details), f);
      && (g.Some? <==> ChangeReads(env, details, ms, f.entry.resource))
      && (g.Some? ==> Says(g.value.entry, LastActions(env, ms, said)) && OnlyEntry(f, g.value)
                      && (details ==> Some(g.value.entry.resource) == ReadChange(env, ms, f.entry.resource)))
    decreases es
  {
    hide TreeItem, Says, ActionTexts, ActionsOK, NameOf, IsActions, ReadChangeMember;
    ChangeMemberMeaning(env, es.e, details, f, said);
    var m := (NameOf(env, es.e.name), es.e.v);
    var ms := MembersOf(env, es);
    var rest := if es.More? then MembersOf(env, es.rest) else [];
    assert ms == [m] + rest && ms[1..] == rest;
    var g := TreeItem(env, es.e, ChangeMember(details), f);
    ChangeReadsStep(env, details, m, rest, f.entry.resource, if g.Some? then g.value.entry.resource else NO_RESOURCE);
    if g.Some? && es.More? {
      ChangeFold(env, es.rest, details, g.value, if IsActions(m.0) then ActionTexts(env, m.1) else said);
    }
  }

  lemma ChangeMeaning(env: Env, v: G.Value, details: bool, f: Frames, said: seq<Text>)
    requires Says(f.entry, said)
    ensures
      var ms := Members(env, v);
      var g := TreeContainer(env, v, ChangeMember(details), f);
      && (g.Some? <==> IsObject(v) && ChangeReads(env, details, ms, f.entry.resource))
      && (g.Some? ==> Says(g.value.entry, LastActions(env, ms, said)) && OnlyEntry(f, g.value)
                      && (details ==> Some(g.value.entry.resource) == ReadChange(env, ms, f.entry.resource)))
  {
    hide TreeItems, Says, ActionsOK, IsActions, MembersOf;
    if v.Full? && v.keyed {
      ChangeFold(env, v.entries, details, f, said);
    }
  }

  // ----- resources -----

  predicate EntryReads(env: Env, details: bool, ms: seq<Named>, r: Resource) {
    if details then ReadEntry(env, ms, r).Some? else forall m :: m in ms ==> (IsChange(m.0) ==> ChangeOK(env, m.1))
  }

  predicate EntryMemberOK(env: Env, details: bool, m: Named, r: Resource) {
    if details then ReadEntryMember(env, m, r).Some? else IsChange(m.0) ==> ChangeOK(env, m.1)
  }

  lemma EntryMemberMeaning(env: Env, e: G.Entry, details: bool, f: Frames, said: seq<Text>)
    requires Says(f.entry, said)
    ensures
      var m := (NameOf(env, e.name), e.v);
      var g := TreeItem(env, e, EntryMember(details), f);
      && (g.Some? <==> EntryMemberOK(env, details, m, f.entry.resource))
      && (g.Some? ==> Says(g.value.entry, if IsChange(m.0) then LastActions(env, Members(env, m.1), said) else said)
                      && OnlyEntry(f, g.value)
                      && (details ==> Some(g.value.entry.resource) == ReadEntryMember(env, m, f.entry.resource)))
  {
    hide TreeContainer, FoldsTo, TreeAddress, LastActions, Members, IsActions, ActionsOK, CountsIn, AllKnown, NameOf, IsObject;
    if IsChange(NameOf(env, e.name)) {
      ChangeMeaning(env, e.v, details, f, said);
    }
  }

  lemma EntryReadsStep(env: Env, details: bool, m: Named, rest: seq<Named>, r: Resource, q: Resource)
    requires details && ReadEntryMember(env, m, r).Some? ==> q == ReadEntryMember(env, m, r).value
    ensures EntryReads(env, details, [m] + rest, r) <==> EntryMemberOK(env, details, m, r) && EntryReads(env, details, rest, q)
  {
    hide ReadEntryMember, ChangeOK, IsChange;
    var ms := [m] + rest;
    assert ms[0] == m && ms[1..] == rest;
    assert forall x :: x in ms <==> x == m || x in rest;
  }

  lemma {:induction false} EntryFold(env: Env, es: G.Entries, details: bool, f: Frames, said: seq<Text>)
    requires Says(f.entry, said)
    ensures
      var ms := MembersOf(env, es);
      var g := TreeItems(env, es, EntryMember(details), f);
      && (g.Some? <==> EntryReads(env, details, ms, f.entry.resource))
      && (g.Some? ==> Says(g.value.entry, EntryActions(env, ms, said)) && OnlyEntry(f, g.value)
                      && (details ==> Some(g.value.entry.resource) == ReadEntry(env, ms, f.entry.resource)))
    decreases es
  {
    hide TreeItem, Says, LastActions, Members, ChangeOK, NameOf, IsChange, ReadEntryMember;
    EntryMemberMeaning(env, es.e, details, f, said);
    var m := (NameOf(env, es.e.name), es.e.v);
    var ms := MembersOf(env, es);
    var rest := if es.More? then MembersOf(env, es.rest) else [];
    assert ms == [m] + rest && ms[1..] == rest;
    var g := TreeItem(env, es.e, EntryMember(details), f);
    EntryReadsStep(env, details, m, rest, f.entry.resource, if g.Some? then g.value.entry.resource else NO_RESOURCE);
    if g.Some? && es.More? {
      EntryFold(env, es.rest, details, g.value, if IsChange(m.0) then LastActions(env, Members(env, m.1), said) else said);
    }
  }

  lemma EntryMeaning(env: Env, v: G.Value, details: bool, f: Frames)
    ensures
      var g := TreeContainer(env, v, EntryMember(details), f.(entry := NO_ENTRY));
      && (g.Some? <==> if details then ResourceOf(env, v).Some? else EntryOK(env, v))
      && (g.Some? ==> Says(g.value.entry, ActionsOf(env, v)) && OnlyEntry(f, g.value)
                      && (details ==> Some(g.value.entry.resource) == ResourceOf(env, v)))
  {
    hide TreeItems, ChangeOK, IsChange, MembersOf, Ascii;
    assert Says(NO_ENTRY, []);
    if v.Full? && v.keyed {
      EntryFold(env, v.entries, details, f.(entry := NO_ENTRY), []);
    }
  }

  // ----- the array of resources -----

  /** The review has counted the actions of exactly these resources. */
  ghost predicate Reviewed(env: Env, vs: seq<G.Value>, f: Frames) {
    && f.review.counts == Total(env, vs)
    && (f.review.invalid <==> !AllActionsKnown(env, vs))
  }

  /** With a renderer, the preview accounts for these resources and shows some of them in order. */
  ghost predicate Previewed(env: Env, vs: seq<G.Value>, f: Frames) {
    env.render.Some? ==> Accounted(f, |vs|) && InOrder(env, vs, f.review.changes)
  }

  /** Version and summary are left alone. */
  ghost predicate OnlyReview(f: Frames, g: Frames) {
    g.version == f.version && g.summary == f.summary
  }

  lemma TotalMore(env: Env, vs: seq<G.Value>, v: G.Value)
    ensures Total(env, vs + [v]) == Total(env, vs).Plus(CountsIn(ActionsOf(env, v)))
    ensures AllActionsKnown(env, vs + [v]) <==> AllActionsKnown(env, vs) && AllKnown(ActionsOf(env, v))
  {
    hide CountsIn, ActionsOf, AllKnown;
    assert (vs + [v])[..|vs|] == vs;
    assert forall x :: x in vs + [v] <==> x in vs || x == v;
  }

  lemma SettleReviews(env: Env, details: bool, vs: seq<G.Value>, v: G.Value, f: Frames)
    requires Reviewed(env, vs, f) && Says(f.entry, ActionsOf(env, v)) && Settle(env, details, f).Some?
    ensures var g := Settle(env, details, f).value; Reviewed(env, vs + [v], g) && OnlyReview(f, g)
  {
    hide CountsIn, ActionsOf, AllKnown, Total, AllActionsKnown;
    TotalMore(env, vs, v);
  }

  lemma SettleShows(env: Env, vs: seq<G.Value>, v: G.Value, f: Frames)
    requires env.render.Some? && Previewed(env, vs, f)
    requires var details := f.preview.CanRetain(|f.review.changes|);
      Settle(env, details, f).Some? && (details ==> Some(f.entry.resource) == ResourceOf(env, v))
    ensures Previewed(env, vs + [v], Settle(env, f.preview.CanRetain(|f.review.changes|), f).value)
  {
    hide ResourceOf;
    SettleAccounts(env, f, |vs|);
    var details := f.preview.CanRetain(|f.review.changes|);
    var g := Settle(env, details, f).value;
    var all := vs + [v];
    assert all[..|all| - 1] == vs && all[|all| - 1] == v;
    if details {
      var c := env.render.value(f.rendered, f.entry.resource).value;
      assert Renders(env, v, c);
      if f.preview.Fits(c) {
        assert g.review.changes[..|g.review.changes| - 1] == f.review.changes;
      } else {
        assert NoRoom(env, v, f.review.changes);
      }
    } else {
      assert NoRoom(env, v, f.review.changes);
    }
  }

  lemma EntryAdds(env: Env, vs: seq<G.Value>, v: G.Value, f: Frames)
    requires Reviewed(env, vs, f) && Previewed(env, vs, f)
    ensures
      var g := TreeEntry(env, v, f);
      && (env.render.None? ==> (g.Some? <==> EntryOK(env, v)))
      && (g.Some? ==> Reviewed(env, vs + [v], g.value) && Previewed(env, vs + [v], g.value) && OnlyReview(f, g.value))
  {
    hide TreeContainer, Settle, Total, AllActionsKnown, EntryOK, ResourceOf, InOrder, Accounted, ActionsOf, CountsIn, AllKnown;
    var details := env.render.Some? && f.preview.CanRetain(|f.review.changes|);
    EntryMeaning(env, v, details, f);
    var h := TreeContainer(env, v, EntryMember(details), f.(entry := NO_ENTRY));
    if h.Some? {
      assert env.render.Some? ==> (Accounted(h.value, |vs|) <==> Accounted(f, |vs|)) by { AccountsSame(f, h.value, |vs|); }
      CountingSettles(env, details, h.value);
      if TreeEntry(env, v, f).Some? {
        SettleReviews(env, details, vs, v, h.value);
        if env.render.Some? { SettleShows(env, vs, v, h.value); }
      }
    }
  }

  lemma CountingSettles(env: Env, details: bool, f: Frames)
    ensures env.render.None? ==> Settle(env, details, f).Some?
  {
  }

  lemma AccountsSame(f: Frames, g: Frames, n: nat)
    requires f.review == g.review && f.preview == g.preview
    ensures Accounted(f, n) <==> Accounted(g, n)
  {
  }

  lemma {:induction false} ResourcesFold(env: Env, vs: seq<G.Value>, es: G.Entries, f: Frames)
    requires Reviewed(env, vs, f) && Previewed(env, vs, f)
    ensures
      var xs := ElementsOf(es);
      var g := TreeItems(env, es, EntryItem, f);
      && (env.render.None? ==> (g.Some? <==> forall x :: x in xs ==> EntryOK(env, x)))
      && (g.Some? ==> Reviewed(env, vs + xs, g.value) && Previewed(env, vs + xs, g.value) && OnlyReview(f, g.value))
    decreases es
  {
    hide TreeEntry, Reviewed, Previewed, EntryOK;
    EntryAdds(env, vs, es.e.v, f);
    var v := es.e.v;
    var rest := if es.More? then ElementsOf(es.rest) else [];
    assert ElementsOf(es) == [v] + rest && vs + ([v] + rest) == (vs + [v]) + rest;
    assert forall x :: x in [v] + rest <==> x == v || x in rest;
    var g := TreeEntry(env, v, f);
    if g.Some? && es.More? {
      ResourcesFold(env, vs + [v], es.rest, g.value);
    } else {
      assert vs + [v] + [] == vs + [v];
    }
  }

  predicate ResourcesOK(env: Env, v: G.Value) {
    IsList(v) && forall x :: x in Elements(v) ==> EntryOK(env, x)
  }

  lemma ResourcesMeaning(env: Env, v: G.Value, f: Frames)
    ensures
      var g := TreeContainer(env, v, EntryItem, f.(review := NO_REVIEW, preview := NO_PREVIEW));
      && (env.render.None? ==> (g.Some? <==> ResourcesOK(env, v)))
      && (g.Some? ==> Reviewed(env, Elements(v), g.value) && Previewed(env, Elements(v), g.value) && OnlyReview(f, g.value))
  {
    hide TreeItems, EntryOK, ElementsOf;
    var h := f.(review := NO_REVIEW, preview := NO_PREVIEW);
    NothingReviewed(env, h);
    if v.Full? && !v.keyed {
      ResourcesFold(env, [], v.entries, h);
      assert [] + Elements(v) == Elements(v);
    }
  }

  lemma NothingReviewed(env: Env, f: Frames)
    requires f.review == NO_REVIEW && f.preview == NO_PREVIEW
    ensures Reviewed(env, [], f) && Previewed(env, [], f)
  {
  }

  // ----- the plan object -----

  lemma RootMemberMeaning(env: Env, e: G.Entry, f: Frames, vs: seq<G.Value>)
    requires Reviewed(env, vs, f) && Previewed(env, vs, f)
    ensures
      var m := (NameOf(env, e.name), e.v);
      var g := TreeItem(env, e, RootMember, f);
      && (env.render.None? ==> (g.Some? <==> RootOK(env, m)))
      && (g.Some? ==>
            var ws := if IsResourceChanges(m.0) then Elements(m.1) else vs;
            && Reviewed(env, ws, g.value) && Previewed(env, ws, g.value)
            && g.value.version == (if IsFormatVersion(m.0) && m.1.String? then TextOf(env, m.1) else f.version))
  {
    hide TreeContainer, FoldsTo, EntryOK, Elements, IsList, ShortText, NameOf, Accounted, InOrder, Total, AllActionsKnown;
    if IsResourceChanges(NameOf(env, e.name)) {
      ResourcesMeaning(env, e.v, f);
    } else {
      AccountsSame(f, f.(version := TextOf(env, e.v)), |vs|);
    }
  }

  lemma {:induction false} RootFold(env: Env, es: G.Entries, f: Frames, vs: seq<G.Value>)
    requires Reviewed(env, vs, f) && Previewed(env, vs, f)
    ensures
      var ms := MembersOf(env, es);
      var g := TreeItems(env, es, RootMember, f);
      && (env.render.None? ==> (g.Some? <==> forall m :: m in ms ==> RootOK(env, m)))
      && (g.Some? ==>
            && Reviewed(env, LastResources(env, ms, vs), g.value) && Previewed(env, LastResources(env, ms, vs), g.value)
            && g.value.version == LastVersion(env, ms, f.version))
    decreases es
  {
    hide TreeItem, Reviewed, Previewed, RootOK, NameOf, IsFormatVersion, IsResourceChanges, Elements, TextOf;
    RootMemberMeaning(env, es.e, f, vs);
    var m := (NameOf(env, es.e.name), es.e.v);
    var ms := MembersOf(env, es);
    var rest := if es.More? then MembersOf(env, es.rest) else [];
    assert ms == [m] + rest && ms[1..] == rest;
    assert forall x :: x in ms <==> x == m || x in rest;
    var g := TreeItem(env, es.e, RootMember, f);
    if g.Some? && es.More? {
      RootFold(env, es.rest, g.value, if IsResourceChanges(m.0) then Elements(m.1) else vs);
    }
  }

  lemma PlanMeaning(env: Env, v: G.Value)
    ensures
      var g := TreeContainer(env, v, RootMember, START);
      && (env.render.None? ==> (g.Some? <==> PlanOK(env, v)))
      && (g.Some? ==>
            && Reviewed(env, Resources(env, v), g.value) && Previewed(env, Resources(env, v), g.value)
            && g.value.version == Version(env, v))
  {
    hide TreeItems, RootOK, MembersOf;
    NothingReviewed(env, START);
    if v.Full? && v.keyed {
      RootFold(env, v.entries, START, []);
    }
  }

  // ----- from bytes to meaning -----

  lemma DocumentStands(d: G.Document)
    requires d.WF()
    ensures Stands(d.Bytes(), 0, d.v)
    ensures EndOf(d.Bytes(), 0, d.v) == |d.Bytes()| - |d.after| && SpaceEnd(d.Bytes(), |d.Bytes()| - |d.after|) == |d.Bytes()|
  {
    hide At, SpaceEnd, G.Render;
    var s := d.Bytes();
    var r := G.Render(d.v);
    AtSliceOf(s, 0, |s|);
    assert s[0..|s|] == s;
    AtSplit(s, 0, d.before, r + d.after);
    AtSplit(s, |d.before|, r, d.after);
    DocumentComplete(s, d);
    ValueLead(s, |d.before|, d.v);
    SpaceEndIs(s, 0, d.before);
    if |d.after| > 0 { FirstAt(s, |d.before| + |r|, d.after); }
  }

  lemma RunIsTree(env: Env, d: G.Document, item: Item)
    requires d.WF()
    ensures ContainerRun(env, d.Bytes(), 0, item, START)
      == Lift(TreeContainer(env, d.v, item, START), |d.Bytes()| - |d.after|, G.Height(d.v))
  {
    hide ContainerRun, TreeContainer, Stands, EndOf;
    DocumentStands(d);
    ContainerIsTree(env, d.Bytes(), 0, d.v, item, START);
  }

  /** For every JSON text, the gate counts exactly the actions of its plan, or refuses it exactly when it is no plan. */
  lemma GateIsMeaning(env: Env, d: G.Document)
    requires d.WF()
    ensures GateCounts(env, d.Bytes()) == PlanCounts(env.Counting(), d.v)
  {
    hide ContainerRun, TreeContainer, SpaceEnd, Total, Resources, Version, PlanOK, Stands, EndOf;
    DocumentStands(d);
    RunIsTree(env.Counting(), d, RootMember);
    PlanMeaning(env.Counting(), d.v);
  }

  /** Which bytes the gate accepts, and with which counts: JSON texts of plans, and nothing else. */
  lemma GateAcceptsExactly(env: Env, s: seq<byte>, c: Counts)
    ensures GateCounts(env, s) == Some(c) <==>
      exists d: G.Document :: d.WF() && d.Bytes() == s && PlanCounts(env.Counting(), d.v) == Some(c)
  {
    hide Terraform, Complete, PlanCounts;
    if GateCounts(env, s) == Some(c) {
      AcceptedIsJson(env.Counting(), s);
      var d: G.Document :| d.WF() && d.Bytes() == s && G.Height(d.v) <= MAX_DEPTH;
      GateIsMeaning(env, d);
    }
    forall d: G.Document | d.WF() && d.Bytes() == s && PlanCounts(env.Counting(), d.v) == Some(c)
      ensures GateCounts(env, s) == Some(c)
    {
      GateIsMeaning(env, d);
    }
  }

  /** Reading a plan's structure needs no renderer, so the counting parameters may be the preview's. */
  lemma ResourcesSame(env: Env, v: G.Value)
    ensures Resources(env.Counting(), v) == Resources(env, v)
  {
    MembersSame(env, v);
    ResourcesOfSame(env, Members(env, v), []);
  }

  lemma MembersSame(env: Env, v: G.Value)
    ensures Members(env.Counting(), v) == Members(env, v)
  {
    if v.Full? { MembersOfSame(env, v.entries); }
  }

  lemma {:induction false} MembersOfSame(env: Env, es: G.Entries)
    ensures MembersOf(env.Counting(), es) == MembersOf(env, es)
  {
    if es.More? { MembersOfSame(env, es.rest); }
  }

  lemma {:induction false} ResourcesOfSame(env: Env, ms: seq<Named>, before: seq<G.Value>)
    ensures LastResources(env.Counting(), ms, before) == LastResources(env, ms, before)
    decreases |ms|
  {
    if ms != [] {
      ResourcesOfSame(env, ms[1..], if IsResourceChanges(ms[0].0) then Elements(ms[0].1) else before);
    }
  }

  /**
   A preview accounts for exactly the resources of the plan, which is of format
   1: the changes shown render them in order, only those without room are left
   out and each of them is counted as omitted, and the limits and the truncation
   mark are kept.
   */
  lemma PreviewConserved(env: Env, d: G.Document)
    requires env.render.Some? && d.WF() && PreviewResponse(env, d.Bytes()).Some?
    ensures
      var r, vs := PreviewResponse(env, d.Bytes()).value, Resources(env, d.v);
      && [49, POINT] <= Version(env, d.v)
      && InOrder(env, vs, r.resources)
      && |r.resources| + r.omitted == |vs|
      && |r.resources| <= 100 && TextSize(r.resources) <= 1048576
      && (r.truncated <==> r.omitted > 0 || exists c :: c in r.resources && Trimmed(c))
  {
    hide ContainerRun, TreeContainer, SpaceEnd, Resources, Version, InOrder, Stands, EndOf;
    DocumentStands(d);
    RunIsTree(env, d, RootMember);
    PlanMeaning(env, d.v);
    assert Ascii("1.") == [49, POINT];
  }

  /** Whatever the preview leaves out, the counts shown with it are those of every resource of the plan. */
  lemma PreviewCountsAll(env: Env, d: G.Document)
    requires env.render.Some? && d.WF() && PreviewResponse(env, d.Bytes()).Some?
    ensures GateCounts(env, d.Bytes()) == Some(Total(env.Counting(), Resources(env, d.v)))
  {
    hide Terraform, Complete, Total, Resources, PlanOK, Version;
    PreviewImpliesGate(env, d.Bytes());
    GateIsMeaning(env, d);
    ResourcesSame(env, d.v);
  }

  // ----- summaries -----

  predicate SummaryMemberOK(m: Named) {
    m.0 in {Ascii("create"), Ascii("update"), Ascii("delete"), Ascii("read")} && TreeNumber(m.1).Some?
  }

  /** What the last member of this name says: nothing, null, or an integer. */
  function Said(ms: seq<Named>, name: Text): Option<Option<int>> {
    if ms == [] then None
    else if ms[|ms| - 1].0 == name then TreeNumber(ms[|ms| - 1].1)
    else Said(ms[..|ms| - 1], name)
  }

  /** Absent counts 0; null and negative do not count. */
  predicate SaysCount(ms: seq<Named>, name: Text) {
    match Said(ms, name)
    case None => true
    case Some(None) => false
    case Some(Some(n)) => n >= 0
  }

  function CountSaid(ms: seq<Named>, name: Text): nat {
    match Said(ms, name)
    case Some(Some(n)) => if n >= 0 then n else 0
    case _ => 0
  }

  /** The gate's answer for a summary: the last number of each of the four names, or a refusal. */
  function SummaryOf(env: Env, v: G.Value): Option<Counts> {
    var ms := Members(env, v);
    if G.Height(v) <= MAX_DEPTH && IsObject(v) && ms != [] && (forall m :: m in ms ==> SummaryMemberOK(m))
       && forall name :: name in {Ascii("create"), Ascii("update"), Ascii("delete"), Ascii("read")} ==> SaysCount(ms, name)
    then Some(Counts(CountSaid(ms, Ascii("create")), CountSaid(ms, Ascii("update")),
                     CountSaid(ms, Ascii("delete")), CountSaid(ms, Ascii("read"))))
    else None
  }

  /** The summary so far records what these members say last under each name. */
  ghost predicate Records(f: Summary, ms: seq<Named>) {
    && (forall name :: name in f.nulls <==> Said(ms, name) == Some(None))
    && (forall name :: Said(ms, name).Some? && Said(ms, name).value.Some? ==>
          name in f.numbers && f.numbers[name] == Said(ms, name).value.value)
    && (forall name :: name in f.numbers ==> Said(ms, name).Some?)
    && (forall name :: Said(ms, name).Some? ==> name in SUMMARY_NAMES)
    && (f.seen <==> ms != [])
  }

  lemma SaidMore(ms: seq<Named>, m: Named, name: Text)
    ensures Said(ms + [m], name) == if m.0 == name then TreeNumber(m.1) else Said(ms, name)
  {
    assert (ms + [m])[..|ms|] == ms;
  }

  lemma SummaryAdds(ms: seq<Named>, m: Named, f: Frames)
    requires Records(f.summary, ms) && SummaryMemberOK(m)
    ensures TreeSummary(m.1, m.0, f).Some? && Records(TreeSummary(m.1, m.0, f).value.summary, ms + [m])
  {
    hide TreeNumber, Said, Ascii;
    forall name ensures Said(ms + [m], name) == if m.0 == name then TreeNumber(m.1) else Said(ms, name) {
      SaidMore(ms, m, name);
    }
  }

  lemma {:induction false} SummaryFold(env: Env, es: G.Entries, f: Frames, before: seq<Named>)
    requires Records(f.summary, before)
    ensures
      var ms := MembersOf(env, es);
      var g := TreeItems(env, es, SummaryMember, f);
      && (g.Some? <==> forall m :: m in ms ==> SummaryMemberOK(m))
      && (g.Some? ==> Records(g.value.summary, before + ms))
    decreases es
  {
    hide Records, TreeNumber, NameOf, Ascii;
    var m := (NameOf(env, es.e.name), es.e.v);
    var rest := if es.More? then MembersOf(env, es.rest) else [];
    assert MembersOf(env, es) == [m] + rest && before + ([m] + rest) == (before + [m]) + rest;
    assert forall x :: x in [m] + rest <==> x == m || x in rest;
    assert TreeItem(env, es.e, SummaryMember, f) == TreeSummary(m.1, m.0, f);
    if SummaryMemberOK(m) {
      SummaryAdds(before, m, f);
      if es.More? {
        SummaryFold(env, es.rest, TreeSummary(m.1, m.0, f).value, before + [m]);
      } else {
        assert before + [m] + [] == before + [m];
      }
    }
  }

  lemma AcceptedWhen(f: Summary, ms: seq<Named>)
    requires Records(f, ms)
    ensures f.Accepted() <==> ms != [] && forall name :: name in SUMMARY_NAMES ==> SaysCount(ms, name)
    ensures f.Accepted() ==> forall name :: f.NumberOf(name) == CountSaid(ms, name)
  {
    hide Said, Ascii;
    if f.Accepted() {
      forall name ensures f.NumberOf(name) == CountSaid(ms, name) && SaysCount(ms, name) {
        assert name !in f.nulls;
      }
    }
    if forall name :: name in SUMMARY_NAMES ==> SaysCount(ms, name) {
      assert forall name :: name !in f.nulls by {
        forall name ensures name !in f.nulls {
          assert name in SUMMARY_NAMES ==> SaysCount(ms, name);
        }
      }
      assert f.nulls == {};
      forall name | name in f.numbers ensures f.numbers[name] >= 0 {
        assert SaysCount(ms, name);
      }
    }
  }

  lemma SummaryMeaning(env: Env, v: G.Value)
    ensures
      var ms, g := Members(env, v), TreeContainer(env, v, SummaryMember, START);
      && (g.Some? <==> IsObject(v) && forall m :: m in ms ==> SummaryMemberOK(m))
      && (g.Some? ==> Records(g.value.summary, ms))
  {
    hide TreeItems, SummaryMemberOK, MembersOf;
    assert Records(NO_SUMMARY, []);
    if v.Full? && v.keyed {
      SummaryFold(env, v.entries, START, []);
      assert [] + Members(env, v) == Members(env, v);
    }
  }

  /** For every JSON text, the gate takes the last number of each name, or refuses it exactly when it is no summary. */
  lemma SummaryIsMeaning(env: Env, d: G.Document)
    requires d.WF()
    ensures SummaryCounts(env, d.Bytes()) == SummaryOf(env, d.v)
  {
    hide ContainerRun, TreeContainer, SpaceEnd, Members, SummaryMemberOK, Records, Summary.Accepted, SaysCount, CountSaid,
         Ascii, Stands, EndOf, Summary.NumberOf;
    DocumentStands(d);
    RunIsTree(env, d, SummaryMember);
    SummaryMeaning(env, d.v);
    var g := TreeContainer(env, d.v, SummaryMember, START);
    if g.Some? {
      AcceptedWhen(g.value.summary, Members(env, d.v));
    }
  }

  /** Which bytes the gate accepts as a summary, and with which counts. */
  lemma SummaryAcceptsExactly(env: Env, s: seq<byte>, c: Counts)
    ensures SummaryCounts(env, s) == Some(c) <==>
      exists d: G.Document :: d.WF() && d.Bytes() == s && SummaryOf(env, d.v) == Some(c)
  {
    hide SummaryOf;
    if SummaryCounts(env, s) == Some(c) {
      var d := SummaryHasTree(env, s);
      SummaryIsMeaning(env, d);
    }
    forall d: G.Document | d.WF() && d.Bytes() == s && SummaryOf(env, d.v) == Some(c)
      ensures SummaryCounts(env, s) == Some(c)
    {
      SummaryIsMeaning(env, d);
    }
  }

  lemma SummaryHasTree(env: Env, s: seq<byte>) returns (d: G.Document)
    requires SummaryCounts(env, s).Some?
    ensures d.WF() && d.Bytes() == s
  {
    hide ContainerRun, CountsOf, Summary.Accepted;
    ContainerSkips(env, s, 0, SummaryMember, START);
    DocumentIsGrammar(s);
    d :| d.WF() && d.Bytes() == s && G.Height(d.v) <= MAX_DEPTH;
  }

  // ----- both formats, and previews, over any bytes -----

  /** These bytes are the JSON text of a plan or summary with these counts. */
  ghost predicate Means(env: Env, terraform: bool, s: seq<byte>, c: Counts) {
    exists d: G.Document :: d.WF() && d.Bytes() == s
      && (if terraform then PlanCounts(env.Counting(), d.v) else SummaryOf(env, d.v)) == Some(c)
  }

  lemma GateAnswers(env: Env, terraform: bool, s: seq<byte>, c: Counts)
    ensures (if terraform then GateCounts(env, s) else SummaryCounts(env, s)) == Some(c) <==> Means(env, terraform, s, c)
  {
    hide GateCounts, SummaryCounts, PlanCounts, SummaryOf;
    if terraform {
      GateAcceptsExactly(env, s, c);
    } else {
      SummaryAcceptsExactly(env, s, c);
    }
  }

  /** The response accounts for the resources of the plan that these bytes are the text of, each shown one in its order. */
  ghost predicate Accounts(env: Env, s: seq<byte>, r: Response)
    requires env.render.Some?
  {
    exists d: G.Document :: d.WF() && d.Bytes() == s
      && InOrder(env, Resources(env, d.v), r.resources) && |r.resources| + r.omitted == |Resources(env, d.v)|
  }

  lemma PreviewAccounts(env: Env, s: seq<byte>)
    requires env.render.Some? && PreviewResponse(env, s).Some?
    ensures Accounts(env, s, PreviewResponse(env, s).value)
  {
    hide PreviewResponse, Resources, InOrder;
    var d := PreviewHasTree(env, s);
    PreviewConserved(env, d);
  }

  lemma PreviewHasTree(env: Env, s: seq<byte>) returns (d: G.Document)
    requires PreviewResponse(env, s).Some?
    ensures d.WF() && d.Bytes() == s
  {
    hide Terraform;
    AcceptedIsJson(env, s);
    d :| d.WF() && d.Bytes() == s && G.Height(d.v) <= MAX_DEPTH;
  }
}
