/**
 The visitors of a plan on syntax trees: no offsets, no white space, no scanning.
 The run over the bytes of a tree is this run over the tree.
 */
module PlanTree {
  import opened Common
  import opened JsonBytes
  import opened JsonScan
  import opened JsonGrammarProofs
  import opened JsonValue
  import opened PlanReview
  import opened PlanReviewProofs
  import G = JsonGrammar

  // ----- names and short strings -----

  /** How many units fit the limit, `used` bytes being taken. */
  function Kept(atoms: seq<G.Atom>, limit: nat, used: nat): (n: nat)
    ensures n <= |atoms|
  {
    if atoms == [] || used + |atoms[0].Render()| > limit then 0
    else 1 + Kept(atoms[1..], limit, used + |atoms[0].Render()|)
  }

  /** A string as far as it fits. */
  function ShortText(env: Env, atoms: seq<G.Atom>): Text {
    env.unquote(G.RenderString(atoms[..Kept(atoms, NAME_BYTES, 1)]))
  }

  /** The name a member is visited under. */
  function NameOf(env: Env, name: Option<G.Name>): Text {
    if name.None? || Kept(name.value.atoms, NAME_BYTES, 1) < |name.value.atoms| then []
    else env.unquote(G.RenderString(name.value.atoms))
  }

  // ----- the visitors -----

  /** A string or null, as read for versions and actions. */
  function TreeVersion(env: Env, v: G.Value): Option<Option<Text>> {
    match v
    case NullLiteral => Some(None)
    case String(atoms) => Some(Some(ShortText(env, atoms)))
    case _ => None
  }

  predicate TooBig(v: G.Value, limit: nat) {
    |G.Render(v)| > limit || G.Height(v) > PREVIEW_LEVELS
  }

  function TreeAddress(env: Env, v: G.Value, r: Resource): Option<Resource> {
    match v
    case NullLiteral => Some(r)
    case String(_) =>
      if TooBig(v, ADDRESS_BYTES) then Some(r.Mark(Address, true).(address := OMITTED))
      else
        (match env.decodeText(G.Render(v))
         case None => None
         case Some(text) => Some(r.Mark(Address, false).(address := text)))
    case _ => None
  }

  function TreeField(env: Env, v: G.Value, field: Field, r: Resource): Option<Resource> {
    if TooBig(v, VALUE_BYTES) then Some(r.Mark(field, true).Set(field, Null))
    else
      match env.decode(G.Render(v))
      case None => None
      case Some(value) => Some(r.Mark(field, false).Set(field, value))
  }

  function WithResource(f: Frames, r: Option<Resource>): Option<Frames> {
    match r
    case None => None
    case Some(resource) => Some(f.(entry := f.entry.(resource := resource)))
  }

  predicate IsArray(v: G.Value) {
    (v.Hollow? || v.Full?) && !v.keyed
  }

  function TreeItem(env: Env, e: G.Entry, item: Item, f: Frames): Option<Frames>
    decreases e, 3
  {
    match item
    case AnyValue => Some(f)
    case AnyMember => Some(f)
    case EntryItem => TreeEntry(env, e.v, f)
    case ActionItem(details) =>
      (match TreeVersion(env, e.v)
       case None => None
       case Some(text) => Some(f.(acts := AddAction(f.acts, text.GetOr([]), details))))
    case _ => TreeVisit(env, e.v, item, NameOf(env, e.name), f)
  }

  function TreeVisit(env: Env, v: G.Value, item: Item, key: Text, f: Frames): Option<Frames>
    decreases v, 2
  {
    match item
    case RootMember =>
      if IsFormatVersion(key) then
        match TreeVersion(env, v)
        case None => None
        case Some(text) => Some(if text.Some? then f.(version := text.value) else f)
      else if IsResourceChanges(key) then
        TreeContainer(env, v, EntryItem, f.(review := NO_REVIEW, preview := NO_PREVIEW))
      else Some(f)
    case EntryMember(details) =>
      if IsAddress(key) && details then WithResource(f, TreeAddress(env, v, f.entry.resource))
      else if IsChange(key) then TreeContainer(env, v, ChangeMember(details), f)
      else Some(f)
    case ChangeMember(details) =>
      if IsActions(key) then TreeActions(env, v, details, f)
      else if details && ValueField(key).Some? then
        WithResource(f, TreeField(env, v, ValueField(key).value, f.entry.resource))
      else Some(f)
    case SummaryMember => TreeSummary(v, key, f)
    case _ => Some(f)
  }

  /** What a member of a summary says: null, or an integer in few enough bytes. */
  function TreeNumber(v: G.Value): Option<Option<int>> {
    if v.NullLiteral? then Some(None)
    else if |G.Render(v)| > INTEGER_BYTES || IntegerOf(G.Render(v)).None? then None
    else Some(IntegerOf(G.Render(v)))
  }

  function TreeSummary(v: G.Value, key: Text, f: Frames): Option<Frames> {
    if key !in SUMMARY_NAMES || TreeNumber(v).None? then None
    else
      match TreeNumber(v).value
      case None => Some(f.(summary := f.summary.(seen := true, nulls := f.summary.nulls + {key})))
      case Some(n) => Some(f.(summary := Summary(true, f.summary.numbers[key := n], f.summary.nulls - {key})))
  }

  function TreeActions(env: Env, v: G.Value, details: bool, f: Frames): Option<Frames>
    decreases v, 1
  {
    var list := if details && IsArray(v) then Some([]) else None;
    match TreeContainer(env, v, ActionItem(details), f.(acts := ActionList(list, NO_COUNTS, true, false)))
    case None => None
    case Some(g) =>
      var resource := g.entry.resource.(actions := g.acts.list).Mark(Actions, g.acts.omitted);
      Some(g.(entry := PlanReview.Entry(resource, g.acts.counts, !g.acts.valid)))
  }

  function TreeEntry(env: Env, v: G.Value, f: Frames): Option<Frames>
    decreases v, 1
  {
    var details := env.render.Some? && f.preview.CanRetain(|f.review.changes|);
    match TreeContainer(env, v, EntryMember(details), f.(entry := NO_ENTRY))
    case None => None
    case Some(g) => Settle(env, details, g)
  }

  function TreeContainer(env: Env, v: G.Value, item: Item, f: Frames): Option<Frames>
    decreases v, 0
  {
    match v
    case NullLiteral => Some(f)
    case Hollow(keyed, _) => if keyed == item.Keyed() then Some(f) else None
    case Full(keyed, es) => if keyed == item.Keyed() then TreeItems(env, es, item, f) else None
    case _ => None
  }

  function TreeItems(env: Env, es: G.Entries, item: Item, f: Frames): Option<Frames>
    decreases es, 4
  {
    match TreeItem(env, es.e, item, f)
    case None => None
    case Some(g) => if es.More? then TreeItems(env, es.rest, item, g) else Some(g)
  }

  // ----- bytes and trees -----

  /** After white space at `i` stands exactly this value. */
  ghost predicate Stands(s: seq<byte>, i: nat, v: G.Value) {
    && i <= |s| && G.ValueWF(v) && At(s, SpaceEnd(s, i), G.Render(v))
    && G.Delimited(v, s, SpaceEnd(s, i) + |G.Render(v)|)
  }

  function EndOf(s: seq<byte>, i: nat, v: G.Value): nat
    requires i <= |s|
  {
    SpaceEnd(s, i) + |G.Render(v)|
  }

  function Lift(g: Option<Frames>, end: nat, height: nat): Option<Step> {
    match g
    case None => None
    case Some(f) => Some(Step(end, height, f))
  }

  lemma StandsAt(s: seq<byte>, i: nat, v: G.Value)
    requires Stands(s, i, v)
    ensures ValueAt(s, i) == Some(Extent(EndOf(s, i, v), G.Height(v)))
    ensures SpaceEnd(s, i) < |s| && s[SpaceEnd(s, i)] == G.Render(v)[0]
    ensures Stands(s, SpaceEnd(s, i), v) && SpaceEnd(s, SpaceEnd(s, i)) == SpaceEnd(s, i)
    ensures EndOf(s, i, v) <= |s| && s[SpaceEnd(s, i)..EndOf(s, i, v)] == G.Render(v)
  {
    hide ValueAt, SpaceEnd, G.Render;
    var a := SpaceEnd(s, i);
    ValueComplete(s, a, v);
    ValueSkipsSpace(s, i);
    ValueLead(s, a, v);
    AtIsSlice(s, a, G.Render(v));
  }

  /** The first byte of a value tells what it is. */
  lemma FirstByte(v: G.Value)
    requires G.ValueWF(v)
    ensures |G.Render(v)| > 0
    ensures var b := G.Render(v)[0];
      && (b == SMALL_N <==> v.NullLiteral?) && (b == QUOTE <==> v.String?)
      && (b == OPEN_OBJECT <==> (v.Hollow? || v.Full?) && v.keyed)
      && (b == OPEN_ARRAY <==> (v.Hollow? || v.Full?) && !v.keyed)
  {
    ValueFirst(v);
  }

  lemma {:induction false} KeptIs(s: seq<byte>, b: nat, j: nat, atoms: seq<G.Atom>, limit: nat)
    requires b <= j && G.AtomsWF(atoms) && At(s, j, G.RenderAtoms(atoms) + [QUOTE])
    ensures
      var n := Kept(atoms, limit, 1 + (j - b));
      && j <= |s| && KeptEnd(s, b, j, limit) == j + |G.RenderAtoms(atoms[..n])|
      && s[j..KeptEnd(s, b, j, limit)] == G.RenderAtoms(atoms[..n])
      && (UnitAt(s, KeptEnd(s, b, j, limit)).Chunk? <==> n < |atoms|)
    decreases |atoms|
  {
    hide At, UnitAt, KeptEnd, Kept, G.RenderAtoms, G.Atom.Render, G.Atom.WF;
    AtNone(s, j);
    KeptUnfolds(atoms, limit, 1 + (j - b));
    if atoms == [] {
      G_NoAtoms();
      assert G.RenderAtoms(atoms) + [QUOTE] == [QUOTE];
      QuoteCloses(s, j);
      KeptEndUnfolds(s, b, j, limit);
    } else {
      var r, rest := atoms[0].Render(), atoms[1..];
      AtomsUnfold(atoms);
      assert G.RenderAtoms(atoms) + [QUOTE] == r + (G.RenderAtoms(rest) + [QUOTE]);
      AtSplit(s, j, r, G.RenderAtoms(rest) + [QUOTE]);
      UnitComplete(s, j, atoms[0]);
      AtIn(s, j, r);
      KeptEndUnfolds(s, b, j, limit);
      if 1 + (j - b) + |r| <= limit {
        KeptIs(s, b, j + |r|, rest, limit);
        var m := Kept(rest, limit, 1 + (j + |r| - b));
        var k := KeptEnd(s, b, j + |r|, limit);
        assert atoms[..m + 1][1..] == rest[..m];
        AtomsUnfold(atoms[..m + 1]);
        AtIsSlice(s, j, r);
        assert s[j..k] == s[j..j + |r|] + s[j + |r|..k];
      } else {
        assert atoms[..0] == [];
        G_NoAtoms();
      }
    }
  }

  lemma AtIn(s: seq<byte>, i: nat, r: seq<byte>)
    requires At(s, i, r)
    ensures i + |r| <= |s|
  {
  }

  lemma G_NoAtoms()
    ensures G.RenderAtoms([]) == []
  {
  }

  lemma AtomsUnfold(atoms: seq<G.Atom>)
    requires atoms != []
    ensures G.RenderAtoms(atoms) == atoms[0].Render() + G.RenderAtoms(atoms[1..])
    ensures G.AtomsWF(atoms) ==> atoms[0].WF() && G.AtomsWF(atoms[1..])
  {
  }

  lemma QuoteCloses(s: seq<byte>, j: nat)
    requires At(s, j, [QUOTE])
    ensures j < |s| && UnitAt(s, j) == Closing
  {
    AtOne(s, j, QUOTE);
  }

  lemma KeptUnfolds(atoms: seq<G.Atom>, limit: nat, used: nat)
    ensures Kept(atoms, limit, used) ==
      if atoms == [] || used + |atoms[0].Render()| > limit then 0
      else 1 + Kept(atoms[1..], limit, used + |atoms[0].Render()|)
  {
  }

  lemma KeptEndUnfolds(s: seq<byte>, b: nat, j: nat, limit: nat)
    requires b <= j <= |s|
    ensures
      var u := UnitAt(s, j);
      KeptEnd(s, b, j, limit) == if u.Chunk? && 1 + (j - b) + u.n <= limit then KeptEnd(s, b, j + u.n, limit) else j
  {
    hide UnitAt;
  }

  lemma StringIsTree(env: Env, s: seq<byte>, i: nat, atoms: seq<G.Atom>)
    requires G.AtomsWF(atoms) && At(s, i, G.RenderString(atoms))
    ensures i < |s|
    ensures StringEnd(s, i) == Some(i + |G.RenderString(atoms)|)
    ensures env.unquote(Prefix(s, i, NAME_BYTES)) == ShortText(env, atoms)
    ensures forall before, after :: NameAt(env, s, i) == NameOf(env, Some(G.Name(atoms, before, after)))
  {
    hide At, KeptEnd, Kept, G.RenderAtoms, UnitAt, StringEnd;
    StringComplete(s, i, atoms);
    assert G.RenderString(atoms) == [QUOTE] + (G.RenderAtoms(atoms) + [QUOTE]);
    AtSplit(s, i, [QUOTE], G.RenderAtoms(atoms) + [QUOTE]);
    AtOne(s, i, QUOTE);
    KeptIs(s, i + 1, i + 1, atoms, NAME_BYTES);
    var n := Kept(atoms, NAME_BYTES, 1);
    assert Prefix(s, i, NAME_BYTES) == G.RenderString(atoms[..n]);
    if n == |atoms| {
      assert atoms[..n] == atoms;
    }
  }

  lemma VersionIsTree(env: Env, s: seq<byte>, i: nat, v: G.Value)
    requires Stands(s, i, v)
    ensures VersionAt(env, s, i) ==
      match TreeVersion(env, v)
      case None => None
      case Some(text) => Some((EndOf(s, i, v), text))
  {
    hide At, SpaceEnd, StringEnd, KeptEnd, Kept, Prefix, G.RenderAtoms, ValueAt;
    StandsAt(s, i, v);
    FirstByte(v);
    match v {
      case String(atoms) => StringIsTree(env, s, SpaceEnd(s, i), atoms);
      case NullLiteral => NullIsTree(s, i);
      case _ => NoString(s, SpaceEnd(s, i));
    }
  }

  lemma NoString(s: seq<byte>, i: nat)
    requires i < |s| && s[i] != QUOTE
    ensures StringEnd(s, i) == None
  {
  }

  lemma CaptureIsTree(s: seq<byte>, i: nat, v: G.Value, limit: nat)
    requires Stands(s, i, v)
    ensures CaptureAt(s, i, limit) ==
      Some(Captured(Extent(EndOf(s, i, v), G.Height(v)), TooBig(v, limit), G.Render(v)))
  {
    hide At, SpaceEnd, ValueAt, G.Render;
    StandsAt(s, i, v);
    ValueSkipsSpace(s, i);
  }

  lemma AddressIsTree(env: Env, s: seq<byte>, i: nat, v: G.Value, f: Frames)
    requires Stands(s, i, v)
    ensures AddressAt(env, s, i, f)
      == Lift(WithResource(f, TreeAddress(env, v, f.entry.resource)), EndOf(s, i, v), G.Height(v))
  {
    hide At, SpaceEnd, ValueAt, G.Render, CaptureAt;
    StandsAt(s, i, v);
    FirstByte(v);
    CaptureIsTree(s, SpaceEnd(s, i), v, ADDRESS_BYTES);
    if v.NullLiteral? { NullIsTree(s, i); }
  }

  lemma NullIsTree(s: seq<byte>, i: nat)
    requires Stands(s, i, G.NullLiteral)
    ensures LiteralEnd(s, SpaceEnd(s, i), NULL_WORD) == Some(EndOf(s, i, G.NullLiteral))
  {
  }

  lemma FieldIsTree(env: Env, s: seq<byte>, i: nat, v: G.Value, field: Field, f: Frames)
    requires Stands(s, i, v)
    ensures FieldAt(env, s, i, field, f)
      == Lift(WithResource(f, TreeField(env, v, field, f.entry.resource)), EndOf(s, i, v), G.Height(v))
  {
    hide At, SpaceEnd, ValueAt, G.Render, CaptureAt, TooBig;
    CaptureIsTree(s, i, v, VALUE_BYTES);
  }

  lemma SummaryIsTree(s: seq<byte>, i: nat, v: G.Value, key: Text, f: Frames)
    requires Stands(s, i, v)
    ensures SummaryAt(s, i, key, f) == Lift(TreeSummary(v, key, f), EndOf(s, i, v), G.Height(v))
  {
    hide At, SpaceEnd, ValueAt, G.Render, IntegerOf, Ascii;
    StandsAt(s, i, v);
    FirstByte(v);
    ValueSkipsSpace(s, i);
    if v.NullLiteral? { NullIsTree(s, i); }
    if SummaryValue(s, i).Some? { SummarySkips(s, i); }
  }

  // ----- runs -----

  lemma {:induction false} ItemIsTree(env: Env, s: seq<byte>, i: nat, e: G.Entry, item: Item, f: Frames)
    requires G.EntryWF(e, item.Keyed()) && At(s, i, G.RenderEntry(e))
    requires var j := i + |G.RenderEntry(e)|; j < |s| && (s[j] == COMMA || s[j] == Closer(item.Keyed()))
    ensures i <= |s|
    ensures RunItem(env, s, i, item, f)
      == Lift(TreeItem(env, e, item, f), i + |G.RenderEntry(e)| - |e.after|, G.Height(e.v))
    decreases e, 3
  {
    hide At, ValueAt, MemberAt, SpaceEnd, StringEnd, RunItem, TreeItem, G.Render, G.RenderName;
    AtIn(s, i, G.RenderEntry(e));
    if item.Keyed() {
      MemberIsTree(env, s, i, e, item, f);
    } else {
      ElementIsTree(env, s, i, e, item, f);
    }
  }

  lemma {:induction false} ElementIsTree(env: Env, s: seq<byte>, i: nat, e: G.Entry, item: Item, f: Frames)
    requires !item.Keyed() && G.EntryWF(e, false) && At(s, i, G.RenderEntry(e))
    requires var j := i + |G.RenderEntry(e)|; j < |s| && (s[j] == COMMA || s[j] == CLOSE_ARRAY)
    ensures i <= |s|
    ensures RunItem(env, s, i, item, f)
      == Lift(TreeItem(env, e, item, f), i + |G.RenderEntry(e)| - |e.after|, G.Height(e.v))
    decreases e, 2
  {
    hide At, ValueAt, SpaceEnd, EntryAt, TreeEntry, AddAction, G.Render, G.RenderName, TreeVersion, VersionAt;
    EntryStands(s, i, e, false);
    Unnamed(e);
    StandsAt(s, i, e.v);
    match item {
      case EntryItem => EntryIsTree(env, s, i, e.v, f);
      case ActionItem(_) =>
        VersionIsTree(env, s, i, e.v);
        if TreeVersion(env, e.v).Some? { VersionFlat(env, e.v); }
      case _ =>
    }
  }

  lemma {:induction false} MemberIsTree(env: Env, s: seq<byte>, i: nat, e: G.Entry, item: Item, f: Frames)
    requires item.Keyed() && G.EntryWF(e, true) && At(s, i, G.RenderEntry(e))
    requires var j := i + |G.RenderEntry(e)|; j < |s| && (s[j] == COMMA || s[j] == CLOSE_OBJECT)
    ensures i <= |s|
    ensures RunItem(env, s, i, item, f)
      == Lift(TreeItem(env, e, item, f), i + |G.RenderEntry(e)| - |e.after|, G.Height(e.v))
    decreases e, 2
  {
    hide At, ValueAt, MemberAt, SpaceEnd, StringEnd, NameAt, Visit, TreeVisit, G.Render, G.RenderName, G.RenderString, NameOf;
    AtIn(s, i, G.RenderEntry(e));
    EntryStands(s, i, e, true);
    var n := e.name.value;
    NameStands(s, i, e);
    StringIsTree(env, s, i, n.atoms);
    var c := SpaceEnd(s, StringEnd(s, i).value);
    assert e.name == Some(G.Name(n.atoms, n.before, n.after));
    if item.AnyMember? {
      EntryComplete(s, i, e, true);
    } else {
      VisitIsTree(env, s, c + 1, e.v, item, NameOf(env, e.name), f);
    }
  }

  lemma Unnamed(e: G.Entry)
    requires e.name.None?
    ensures G.RenderName(e.name) == []
  {
  }

  lemma VersionFlat(env: Env, v: G.Value)
    requires TreeVersion(env, v).Some?
    ensures G.Height(v) == 0
  {
  }

  /** Where the value of an entry stands: at the entry, or after its colon. */
  lemma EntryStands(s: seq<byte>, i: nat, e: G.Entry, keyed: bool)
    requires G.EntryWF(e, keyed) && At(s, i, G.RenderEntry(e))
    requires var j := i + |G.RenderEntry(e)|; j < |s| && (s[j] == COMMA || s[j] == Closer(keyed))
    ensures var k := i + |G.RenderName(e.name)|;
      && Stands(s, k, e.v) && SpaceEnd(s, k) == k && EndOf(s, k, e.v) == i + |G.RenderEntry(e)| - |e.after|
  {
    hide At, G.Render, G.RenderName, SpaceEnd;
    var k := i + |G.RenderName(e.name)|;
    AtSplit(s, i, G.RenderName(e.name), G.Render(e.v) + e.after);
    AtSplit(s, k, G.Render(e.v), e.after);
    AtIn(s, k, G.Render(e.v));
    if |e.after| > 0 { FirstAt(s, k + |G.Render(e.v)|, e.after); }
    ValueLead(s, k, e.v);
  }

  lemma NameStands(s: seq<byte>, i: nat, e: G.Entry)
    requires G.EntryWF(e, true) && At(s, i, G.RenderEntry(e))
    requires var k := i + |G.RenderName(e.name)|; Stands(s, k, e.v) && SpaceEnd(s, k) == k
    ensures At(s, i, G.RenderString(e.name.value.atoms)) && i <= |s| && StringEnd(s, i).Some?
    ensures
      var c := SpaceEnd(s, StringEnd(s, i).value);
      && c < |s| && s[c] == COLON
      && Stands(s, c + 1, e.v) && EndOf(s, c + 1, e.v) == EndOf(s, i + |G.RenderName(e.name)|, e.v)
  {
    hide At, G.Render, G.RenderName, G.RenderString, SpaceEnd, StringEnd, G.ValueWF;
    var n := e.name.value;
    var str := G.RenderString(n.atoms);
    var k := i + |G.RenderName(e.name)|;
    NameParts(s, i, e);
    StringComplete(s, i, n.atoms);
    AtIn(s, i, str);
    FirstAt(s, i + |str| + |n.before|, [COLON]);
    SpaceEndIs(s, i + |str|, n.before);
    ValueFirst(e.v);
    ValueLead(s, k, e.v);
    SpaceEndIs(s, k - |n.after|, n.after);
  }

  lemma NameParts(s: seq<byte>, i: nat, e: G.Entry)
    requires e.name.Some? && At(s, i, G.RenderEntry(e))
    ensures
      var n := e.name.value;
      var str := G.RenderString(n.atoms);
      var c := i + |str| + |n.before|;
      && At(s, i, str) && At(s, i + |str|, n.before) && At(s, c, [COLON]) && At(s, c + 1, n.after)
      && c + 1 + |n.after| == i + |G.RenderName(e.name)| && At(s, i + |G.RenderName(e.name)|, G.Render(e.v))
  {
    hide At, G.Render, G.RenderString;
    var n := e.name.value;
    var str := G.RenderString(n.atoms);
    AtSplit(s, i, G.RenderName(e.name), G.Render(e.v) + e.after);
    AtSplit(s, i + |G.RenderName(e.name)|, G.Render(e.v), e.after);
    AtSplit(s, i, str, n.before + ([COLON] + n.after));
    AtSplit(s, i + |str|, n.before, [COLON] + n.after);
    AtSplit(s, i + |str| + |n.before|, [COLON], n.after);
  }

  lemma {:induction false} VisitIsTree(env: Env, s: seq<byte>, i: nat, v: G.Value, item: Item, key: Text, f: Frames)
    requires Stands(s, i, v) && item.Keyed() && !item.AnyMember?
    ensures Visit(env, s, i, item, key, f) == Lift(TreeVisit(env, v, item, key, f), EndOf(s, i, v), G.Height(v))
    decreases v, 2
  {
    hide Stands, SpaceEnd, ValueAt, FoldsTo, ContainerRun, TreeContainer, ActionsAt, TreeActions, AddressAt, TreeAddress,
         FieldAt, TreeField, VersionAt, TreeVersion, SummaryAt, TreeSummary, G.Render, EndOf, ValueField;
    StandsAt(s, i, v);
    StandsIn(s, i, v);
    match item {
      case RootMember =>
        if IsFormatVersion(key) {
          VersionIsTree(env, s, i, v);
          if TreeVersion(env, v).Some? { VersionFlat(env, v); }
        } else if IsResourceChanges(key) {
          ContainerIsTree(env, s, i, v, EntryItem, f.(review := NO_REVIEW, preview := NO_PREVIEW));
        }
      case EntryMember(details) =>
        if IsAddress(key) && details {
          AddressIsTree(env, s, i, v, f);
        } else if IsChange(key) {
          ContainerIsTree(env, s, i, v, ChangeMember(details), f);
        }
      case ChangeMember(details) =>
        if IsActions(key) {
          ActionsIsTree(env, s, i, v, details, f);
        } else if details && ValueField(key).Some? {
          FieldIsTree(env, s, i, v, ValueField(key).value, f);
        }
      case SummaryMember => SummaryIsTree(s, i, v, key, f);
    }
  }

  lemma StandsIn(s: seq<byte>, i: nat, v: G.Value)
    requires Stands(s, i, v)
    ensures i <= |s|
  {
  }

  lemma {:induction false} ActionsIsTree(env: Env, s: seq<byte>, i: nat, v: G.Value, details: bool, f: Frames)
    requires Stands(s, i, v)
    ensures ActionsAt(env, s, i, details, f) == Lift(TreeActions(env, v, details, f), EndOf(s, i, v), G.Height(v))
    decreases v, 1
  {
    hide Stands, SpaceEnd, ContainerRun, TreeContainer, G.Render, EndOf, G.ValueWF, ValueAt, G.Height;
    StandsIn(s, i, v);
    StandsAt(s, i, v);
    SameEnd(s, i, v);
    StandsWF(s, i, v);
    FirstByte(v);
    var list := if details && IsArray(v) then Some([]) else None;
    ContainerIsTree(env, s, SpaceEnd(s, i), v, ActionItem(details), f.(acts := ActionList(list, NO_COUNTS, true, false)));
  }

  lemma SameEnd(s: seq<byte>, i: nat, v: G.Value)
    requires Stands(s, i, v) && SpaceEnd(s, i) <= |s| && SpaceEnd(s, SpaceEnd(s, i)) == SpaceEnd(s, i)
    ensures EndOf(s, SpaceEnd(s, i), v) == EndOf(s, i, v)
  {
  }

  lemma StandsWF(s: seq<byte>, i: nat, v: G.Value)
    requires Stands(s, i, v)
    ensures G.ValueWF(v)
  {
  }

  lemma {:induction false} EntryIsTree(env: Env, s: seq<byte>, i: nat, v: G.Value, f: Frames)
    requires Stands(s, i, v)
    ensures EntryAt(env, s, i, f) == Lift(TreeEntry(env, v, f), EndOf(s, i, v), G.Height(v))
    decreases v, 1
  {
    hide Stands, SpaceEnd, ContainerRun, TreeContainer, G.Render, Settle;
    StandsIn(s, i, v);
    var details := env.render.Some? && f.preview.CanRetain(|f.review.changes|);
    ContainerIsTree(env, s, i, v, EntryMember(details), f.(entry := NO_ENTRY));
  }

  lemma {:induction false} ContainerIsTree(env: Env, s: seq<byte>, i: nat, v: G.Value, item: Item, f: Frames)
    requires Stands(s, i, v)
    ensures ContainerRun(env, s, i, item, f) == Lift(TreeContainer(env, v, item, f), EndOf(s, i, v), G.Height(v))
    decreases v, 0
  {
    hide At, SpaceEnd, ItemsRun, TreeItems, ValueAt, G.RenderEntries;
    StandsAt(s, i, v);
    FirstByte(v);
    var a := SpaceEnd(s, i);
    match v {
      case NullLiteral => NullIsTree(s, i);
      case Hollow(keyed, gap) =>
        HollowInside(s, a, keyed, gap);
      case Full(keyed, es) =>
        if keyed == item.Keyed() {
          AtSplit(s, a, [Opening(keyed)], G.RenderEntries(es) + [Closer(keyed)]);
          EntriesLead(s, a + 1, es, keyed);
          ItemsIsTree(env, s, a + 1, es, item, 0, f);
        }
      case _ =>
    }
  }

  lemma HollowInside(s: seq<byte>, a: nat, keyed: bool, gap: seq<byte>)
    requires G.IsBlank(gap) && At(s, a, G.Render(G.Hollow(keyed, gap)))
    ensures a + 1 + |gap| < |s| && SpaceEnd(s, a + 1) == a + 1 + |gap| && s[a + 1 + |gap|] == Closer(keyed)
  {
    hide At, SpaceEnd;
    AtSplit(s, a, [Opening(keyed)], gap + [Closer(keyed)]);
    AtSplit(s, a + 1, gap, [Closer(keyed)]);
    FirstAt(s, a + 1 + |gap|, [Closer(keyed)]);
    SpaceEndIs(s, a + 1, gap);
  }

  lemma {:induction false} ItemsIsTree(env: Env, s: seq<byte>, i: nat, es: G.Entries, item: Item, acc: nat, f: Frames)
    requires G.EntriesWF(es, item.Keyed()) && At(s, i, G.RenderEntries(es) + [Closer(item.Keyed())])
    ensures i + |es.e.before| <= |s|
    ensures ItemsRun(env, s, i + |es.e.before|, item, acc, f)
      == Lift(TreeItems(env, es, item, f), i + |G.RenderEntries(es)| + 1, 1 + Max(acc, G.Tallest(es)))
    decreases es, 4
  {
    hide At, ValueAt, MemberAt, ItemsRun, RunItem, TreeItem, SpaceEnd, Closer, Max,
         G.Render, G.RenderEntry, G.RenderEntries, G.EntryWF;
    var keyed := item.Keyed();
    EntriesPlaces(s, i, es, keyed);
    var b := i + |es.e.before|;
    var j := b + |G.RenderEntry(es.e)|;
    ItemIsTree(env, s, b, es.e, item, f);
    RunStep(env, s, b, item, acc, f);
    var g := TreeItem(env, es.e, item, f);
    if es.More? && g.Some? {
      ItemsIsTree(env, s, j + 1, es.rest, item, Max(acc, G.Height(es.e.v)), g.value);
      MaxMax(acc, G.Height(es.e.v), G.Tallest(es.rest));
    }
  }

  lemma MaxMax(a: nat, b: nat, c: nat)
    ensures Max(Max(a, b), c) == Max(a, Max(b, c))
  {
  }

  lemma EntriesUnfold(es: G.Entries, keyed: bool)
    requires G.EntriesWF(es, keyed)
    ensures G.EntryWF(es.e, keyed) && |es.e.after| <= |G.RenderEntry(es.e)| && |G.RenderEntry(es.e)| > 0
    ensures es.More? ==> G.EntriesWF(es.rest, keyed)
    ensures Closer(keyed) != COMMA
  {
    hide G.ValueWF, G.Render, G.RenderName;
    EntryFirst(es.e, keyed);
  }

  /** Where the first entry ends, and what follows it. */
  lemma EntriesPlaces(s: seq<byte>, i: nat, es: G.Entries, keyed: bool)
    requires G.EntriesWF(es, keyed) && At(s, i, G.RenderEntries(es) + [Closer(keyed)])
    ensures
      var b := i + |es.e.before|;
      var j := b + |G.RenderEntry(es.e)|;
      && b < j < |s| && G.EntryWF(es.e, keyed) && At(s, b, G.RenderEntry(es.e)) && |es.e.after| <= j - b
      && SpaceEnd(s, j - |es.e.after|) == j
      && Closer(keyed) != COMMA
      && (if es.More? then
            && s[j] == COMMA && G.EntriesWF(es.rest, keyed)
            && At(s, j + 1, G.RenderEntries(es.rest) + [Closer(keyed)])
            && SpaceEnd(s, j + 1) == j + 1 + |es.rest.e.before| < |s|
            && i + |G.RenderEntries(es)| == j + 1 + |G.RenderEntries(es.rest)|
          else s[j] == Closer(keyed) && i + |G.RenderEntries(es)| == j)
  {
    hide At, ItemAt, SpaceEnd, Closer, AfterEntry, G.RenderEntry, G.RenderEntries, G.EntryWF, G.EntriesWF;
    EntriesUnfold(es, keyed);
    EntriesParts(s, i, es, keyed);
    var b := i + |es.e.before|;
    var j := b + |G.RenderEntry(es.e)|;
    FirstAt(s, j, AfterEntry(es, keyed));
    AtIn(s, b, G.RenderEntry(es.e));
    EntryComplete(s, b, es.e, keyed);
    EntriesSize(es, keyed);
    if es.More? {
      AtSplit(s, j, [COMMA], G.RenderEntries(es.rest) + [Closer(keyed)]);
      EntriesLead(s, j + 1, es.rest, keyed);
    }
  }

  lemma EntriesSize(es: G.Entries, keyed: bool)
    ensures |G.RenderEntries(es)| + 1 == |es.e.before| + |G.RenderEntry(es.e)| + |AfterEntry(es, keyed)|
    ensures |AfterEntry(es, keyed)| == if es.More? then 2 + |G.RenderEntries(es.rest)| else 1
    ensures AfterEntry(es, keyed)[0] == if es.More? then COMMA else Closer(keyed)
    ensures es.More? ==> AfterEntry(es, keyed) == [COMMA] + (G.RenderEntries(es.rest) + [Closer(keyed)])
  {
    hide G.RenderEntry, G.RenderEntries;
    EntriesShape(es, keyed);
    assert |G.RenderEntries(es) + [Closer(keyed)]| == |G.RenderEntries(es)| + 1;
  }
}
