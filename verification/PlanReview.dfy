/**
 What the plan-review reader computes: the visitors that run over a Terraform
 plan while the scanner validates it, as functions of the input. With a renderer
 they build the preview, without one they only count. JSON decoding of captured
 bytes and the renderer are parameters.
 */
module PlanReview {
  import opened Common
  import opened JsonBytes
  import opened JsonScan
  import opened JsonValue

  const VALUE_BYTES: nat := 65536
  const ADDRESS_BYTES: nat := 4096
  const PREVIEW_RESOURCES: nat := 100
  const PREVIEW_TEXT_BYTES: nat := 1048576
  const PREVIEW_LEVELS: nat := 64
  const PREVIEW_ACTIONS: nat := 16
  const NAME_BYTES: nat := 256

  function Ascii(t: string): Text {
    seq(|t|, i requires 0 <= i < |t| => if t[i] < 128 as char then t[i] as int as byte else 63)
  }

  const OMITTED: Text := Ascii("[OMITTED FROM PREVIEW]")

  datatype Counts = Counts(create: nat, update: nat, delete: nat, read: nat) {
    function Plus(c: Counts): Counts {
      Counts(create + c.create, update + c.update, delete + c.delete, read + c.read)
    }
  }

  const NO_COUNTS := Counts(0, 0, 0, 0)

  datatype Field = Address | Actions | Before | After | BeforeSensitive | AfterSensitive | AfterUnknown

  /** The parts of one resource kept for rendering. */
  datatype Resource = Resource(
    address: Text, actions: Option<seq<Text>>, before: Json, after: Json, beforeSensitive: Json,
    afterSensitive: Json, afterUnknown: Json, omitted: set<Field>)
  {
    function Mark(field: Field, isOmitted: bool): Resource {
      this.(omitted := if isOmitted then omitted + {field} else omitted - {field})
    }

    function Set(field: Field, v: Json): Resource {
      match field
      case Before => this.(before := v)
      case After => this.(after := v)
      case BeforeSensitive => this.(beforeSensitive := v)
      case AfterSensitive => this.(afterSensitive := v)
      case AfterUnknown => this.(afterUnknown := v)
      case _ => this
    }
  }

  const NO_RESOURCE := Resource([], None, Null, Null, Null, Null, Null, {})

  /** A rendered resource change. */
  datatype Change = Change(address: Text, actions: Option<seq<Text>>, before: Text, after: Text, omittedFields: seq<Field>) {
    function Size(): nat {
      |address| + |before| + |after|
    }
  }

  /** Running totals of the preview. */
  datatype Preview = Preview(used: nat, omitted: nat, truncated: bool) {
    predicate CanRetain(count: nat) {
      count < PREVIEW_RESOURCES && used < PREVIEW_TEXT_BYTES
    }

    predicate Fits(c: Change) {
      c.Size() + used <= PREVIEW_TEXT_BYTES
    }

    function Omit(): Preview {
      this.(omitted := omitted + 1, truncated := true)
    }

    function Keep(c: Change): Preview {
      this.(used := used + c.Size(), truncated := truncated || |c.omittedFields| > 0)
    }
  }

  datatype ActionList = ActionList(list: Option<seq<Text>>, counts: Counts, valid: bool, omitted: bool)

  datatype Review = Review(counts: Counts, changes: seq<Change>, invalid: bool)

  datatype Entry = Entry(resource: Resource, counts: Counts, invalid: bool)

  /** A summary review so far: the last integer of each name, and the names that are null. */
  datatype Summary = Summary(seen: bool, numbers: map<Text, int>, nulls: set<Text>) {
    function NumberOf(name: Text): int {
      if name in numbers then numbers[name] else 0
    }

    predicate Accepted() {
      seen && nulls == {} && forall name :: name in numbers ==> numbers[name] >= 0
    }
  }

  /** The variables that the visiting closures assign, one group per nesting level. */
  datatype Frames = Frames(
    version: Text, review: Review, entry: Entry, acts: ActionList, preview: Preview, rendered: nat, summary: Summary)

  const NO_REVIEW := Review(NO_COUNTS, [], false)
  const NO_ENTRY := Entry(NO_RESOURCE, NO_COUNTS, false)
  const NO_PREVIEW := Preview(0, 0, false)
  const NO_SUMMARY := Summary(false, map[], {})
  const START := Frames([], NO_REVIEW, NO_ENTRY, ActionList(None, NO_COUNTS, true, false), NO_PREVIEW, 0, NO_SUMMARY)

  /**
   `unquote` and `decode` are the JSON decoder; without `render` the run only counts.
   Rendering may turn out differently each time, so it is also given how many came before.
   */
  datatype Env = Env(
    unquote: seq<byte> -> Text, decodeText: seq<byte> -> Option<Text>, decode: seq<byte> -> Option<Json>,
    render: Option<(nat, Resource) -> Option<Change>>)
  {
    function Counting(): Env {
      this.(render := None)
    }
  }

  // ----- names -----

  function Lower(b: byte): byte {
    if 65 <= b <= 90 then b + 32 else b
  }

  /** Unicode simple case folding onto an ASCII lower-case name: U+017F folds to s and U+212A to k. */
  predicate FoldsTo(key: Text, name: Text) {
    if name == [] then key == []
    else
      (|key| > 0 && Lower(key[0]) == name[0] && FoldsTo(key[1..], name[1..]))
      || (name[0] == 115 && |key| > 1 && key[..2] == [0xC5, 0xBF] && FoldsTo(key[2..], name[1..]))
      || (name[0] == 107 && |key| > 2 && key[..3] == [0xE2, 0x84, 0xAA] && FoldsTo(key[3..], name[1..]))
  }

  predicate IsFormatVersion(key: Text) {
    FoldsTo(key, Ascii("format_version"))
  }

  predicate IsResourceChanges(key: Text) {
    !IsFormatVersion(key) && FoldsTo(key, Ascii("resource_changes"))
  }

  predicate IsAddress(key: Text) {
    FoldsTo(key, Ascii("address"))
  }

  predicate IsChange(key: Text) {
    !IsAddress(key) && FoldsTo(key, Ascii("change"))
  }

  predicate IsActions(key: Text) {
    FoldsTo(key, Ascii("actions"))
  }

  function ValueField(key: Text): (f: Option<Field>) {
    if FoldsTo(key, Ascii("before")) then Some(Before)
    else if FoldsTo(key, Ascii("after")) then Some(After)
    else if FoldsTo(key, Ascii("before_sensitive")) then Some(BeforeSensitive)
    else if FoldsTo(key, Ascii("after_sensitive")) then Some(AfterSensitive)
    else if FoldsTo(key, Ascii("after_unknown")) then Some(AfterUnknown)
    else None
  }

  // ----- bounded strings -----

  /** From the body start `b`, the end of the units kept within `limit` bytes, quote included; the loop is at `j`. */
  function KeptEnd(s: seq<byte>, b: nat, j: nat, limit: nat): (k: nat)
    requires b <= j <= |s|
    ensures j <= k <= |s|
    decreases |s| - j
  {
    var u := UnitAt(s, j);
    if u.Chunk? && 1 + (j - b) + u.n <= limit then KeptEnd(s, b, j + u.n, limit) else j
  }

  /** The bounded string token at `i`, quotes included. */
  function Prefix(s: seq<byte>, i: nat, limit: nat): seq<byte>
    requires i < |s|
  {
    [QUOTE] + s[i + 1..KeptEnd(s, i + 1, i + 1, limit)] + [QUOTE]
  }

  predicate Cut(s: seq<byte>, i: nat, limit: nat)
    requires i < |s|
  {
    UnitAt(s, KeptEnd(s, i + 1, i + 1, limit)).Chunk?
  }

  /** The name a member is visited under: empty when it does not fit. */
  function NameAt(env: Env, s: seq<byte>, i: nat): Text
    requires i < |s|
  {
    if Cut(s, i, NAME_BYTES) then [] else env.unquote(Prefix(s, i, NAME_BYTES))
  }

  // ----- bounded values -----

  datatype Captured = Captured(x: Extent, omitted: bool, raw: seq<byte>)

  /** A value captured for the preview: omitted when longer than `limit` bytes or nested beyond the preview. */
  function CaptureAt(s: seq<byte>, i: nat, limit: nat): (r: Option<Captured>)
    requires i <= |s|
    ensures r.Some? ==> i < r.value.x.end <= |s|
  {
    var a := SpaceEnd(s, i);
    match ValueAt(s, a)
    case None => None
    case Some(x) => Some(Captured(x, x.end - a > limit || x.height > PREVIEW_LEVELS, s[a..x.end]))
  }

  // ----- visitors -----

  /** What a container runs on each item: the closures of the source, by name. */
  datatype Item =
    | AnyValue
    | AnyMember
    | RootMember
    | EntryItem
    | EntryMember(details: bool)
    | ChangeMember(details: bool)
    | ActionItem(details: bool)
    | SummaryMember
  {
    predicate Keyed() {
      AnyMember? || RootMember? || EntryMember? || ChangeMember? || SummaryMember?
    }

    function Undetailed(): Item {
      match this
      case EntryMember(_) => EntryMember(false)
      case ChangeMember(_) => ChangeMember(false)
      case ActionItem(_) => ActionItem(false)
      case _ => this
    }
  }

  datatype Step = Step(end: nat, height: nat, f: Frames)

  function Still(x: Option<Extent>, f: Frames): Option<Step> {
    match x
    case None => None
    case Some(e) => Some(Step(e.end, e.height, f))
  }

  /** A short string, or null. Returns the text read, if any. */
  function VersionAt(env: Env, s: seq<byte>, i: nat): (r: Option<(nat, Option<Text>)>)
    requires i <= |s|
    ensures r.Some? ==> i < r.value.0 <= |s|
  {
    var a := SpaceEnd(s, i);
    if a == |s| then None
    else if s[a] == SMALL_N then
      match LiteralEnd(s, a, NULL_WORD)
      case None => None
      case Some(j) => Some((j, None))
    else
      match StringEnd(s, a)
      case None => None
      case Some(j) => Some((j, Some(env.unquote(Prefix(s, a, NAME_BYTES)))))
  }

  function Tally(action: Text): (r: Option<Counts>) {
    if action == Ascii("create") then Some(Counts(1, 0, 0, 0))
    else if action == Ascii("update") then Some(Counts(0, 1, 0, 0))
    else if action == Ascii("delete") then Some(Counts(0, 0, 1, 0))
    else if action == Ascii("read") then Some(Counts(0, 0, 0, 1))
    else if action == Ascii("no-op") then Some(NO_COUNTS)
    else None
  }

  function AddAction(acts: ActionList, action: Text, details: bool): ActionList {
    var counted :=
      match Tally(action)
      case None => acts.(valid := false)
      case Some(c) => acts.(counts := acts.counts.Plus(c));
    if !details then counted
    else
      var list := if counted.list.Some? then counted.list.value else [];
      if |list| < PREVIEW_ACTIONS then counted.(list := Some(list + [action])) else counted.(omitted := true)
  }

  function RunItem(env: Env, s: seq<byte>, i: nat, item: Item, f: Frames): (r: Option<Step>)
    requires i <= |s|
    ensures r.Some? ==> i < r.value.end <= |s|
    decreases |s| - i, 3
  {
    match item
    case AnyValue => Still(ValueAt(s, i), f)
    case AnyMember => Still(MemberAt(s, i), f)
    case EntryItem => EntryAt(env, s, i, f)
    case ActionItem(details) =>
      (match VersionAt(env, s, i)
       case None => None
       case Some((j, text)) =>
         Some(Step(j, 0, f.(acts := AddAction(f.acts, text.GetOr([]), details)))))
    case _ =>
      (match StringEnd(s, i)
       case None => None
       case Some(k) =>
         var a := SpaceEnd(s, k);
         if a == |s| || s[a] != COLON then None
         else Visit(env, s, a + 1, item, NameAt(env, s, i), f))
  }

  /** One named member of the plan, a resource or its change. */
  function Visit(env: Env, s: seq<byte>, i: nat, item: Item, key: Text, f: Frames): (r: Option<Step>)
    requires i <= |s|
    ensures r.Some? ==> i < r.value.end <= |s|
    decreases |s| - i, 2
  {
    match item
    case RootMember =>
      if IsFormatVersion(key) then
        match VersionAt(env, s, i)
        case None => None
        case Some((j, text)) => Some(Step(j, 0, if text.Some? then f.(version := text.value) else f))
      else if IsResourceChanges(key) then
        ContainerRun(env, s, i, EntryItem, f.(review := NO_REVIEW, preview := NO_PREVIEW))
      else Still(ValueAt(s, i), f)
    case EntryMember(details) =>
      if IsAddress(key) && details then AddressAt(env, s, i, f)
      else if IsChange(key) then ContainerRun(env, s, i, ChangeMember(details), f)
      else Still(ValueAt(s, i), f)
    case ChangeMember(details) =>
      if IsActions(key) then ActionsAt(env, s, i, details, f)
      else if details && ValueField(key).Some? then FieldAt(env, s, i, ValueField(key).value, f)
      else Still(ValueAt(s, i), f)
    case SummaryMember => SummaryAt(s, i, key, f)
    case _ => Still(ValueAt(s, i), f)
  }

  const INTEGER_BYTES: nat := 32
  const SUMMARY_NAMES := {Ascii("create"), Ascii("update"), Ascii("delete"), Ascii("read")}

  /** The value of a run of digits. */
  function Decimal(digits: seq<byte>): nat {
    if digits == [] then 0
    else 10 * Decimal(digits[..|digits| - 1]) + (if IsDigit(digits[|digits| - 1]) then digits[|digits| - 1] as int - 48 else 0)
  }

  predicate AllDigits(digits: seq<byte>) {
    digits != [] && forall k :: 0 <= k < |digits| ==> IsDigit(digits[k])
  }

  /** A JSON value as a 64-bit integer: nothing but an optional minus sign and digits, and in range. */
  function IntegerOf(raw: seq<byte>): Option<int> {
    var minus := |raw| > 0 && raw[0] == MINUS;
    var digits := if minus then raw[1..] else raw;
    var n: int := (if minus then -1 else 1) * Decimal(digits);
    if AllDigits(digits) && -0x8000_0000_0000_0000 <= n < 0x8000_0000_0000_0000
    then Some(n) else None
  }

  /** What one member of a summary says: null, an integer, or nothing acceptable. */
  function SummaryValue(s: seq<byte>, i: nat): (r: Option<(nat, Option<int>)>)
    requires i <= |s|
    ensures r.Some? ==> i < r.value.0 <= |s|
  {
    var a := SpaceEnd(s, i);
    if a == |s| then None
    else if s[a] == SMALL_N then
      match LiteralEnd(s, a, NULL_WORD)
      case None => None
      case Some(j) => Some((j, None))
    else
      match ValueAt(s, a)
      case None => None
      case Some(x) =>
        if x.end - a > INTEGER_BYTES then None
        else
          match IntegerOf(s[a..x.end])
          case None => None
          case Some(n) => Some((x.end, Some(n)))
  }

  function SummaryAt(s: seq<byte>, i: nat, key: Text, f: Frames): (r: Option<Step>)
    requires i <= |s|
    ensures r.Some? ==> i < r.value.end <= |s|
  {
    if key !in SUMMARY_NAMES then None
    else
      match SummaryValue(s, i)
      case None => None
      case Some((j, None)) => Some(Step(j, 0, f.(summary := f.summary.(seen := true, nulls := f.summary.nulls + {key}))))
      case Some((j, Some(n))) =>
        Some(Step(j, 0, f.(summary := Summary(true, f.summary.numbers[key := n], f.summary.nulls - {key}))))
  }

  function AddressAt(env: Env, s: seq<byte>, i: nat, f: Frames): (r: Option<Step>)
    requires i <= |s|
    ensures r.Some? ==> i < r.value.end <= |s|
  {
    var a := SpaceEnd(s, i);
    if a == |s| then None
    else if s[a] == SMALL_N then Still(Flat(LiteralEnd(s, a, NULL_WORD)), f)
    else if s[a] != QUOTE then None
    else
      match CaptureAt(s, a, ADDRESS_BYTES)
      case None => None
      case Some(c) =>
        var marked := f.entry.resource.Mark(Address, c.omitted);
        if c.omitted then
          Some(Step(c.x.end, c.x.height, f.(entry := f.entry.(resource := marked.(address := OMITTED)))))
        else
          match env.decodeText(c.raw)
          case None => None
          case Some(text) => Some(Step(c.x.end, c.x.height, f.(entry := f.entry.(resource := marked.(address := text)))))
  }

  function FieldAt(env: Env, s: seq<byte>, i: nat, field: Field, f: Frames): (r: Option<Step>)
    requires i <= |s|
    ensures r.Some? ==> i < r.value.end <= |s|
  {
    match CaptureAt(s, i, VALUE_BYTES)
    case None => None
    case Some(c) =>
      var marked := f.entry.resource.Mark(field, c.omitted);
      if c.omitted then
        Some(Step(c.x.end, c.x.height, f.(entry := f.entry.(resource := marked.Set(field, Null)))))
      else
        match env.decode(c.raw)
        case None => None
        case Some(v) => Some(Step(c.x.end, c.x.height, f.(entry := f.entry.(resource := marked.Set(field, v)))))
  }

  function ActionsAt(env: Env, s: seq<byte>, i: nat, details: bool, f: Frames): (r: Option<Step>)
    requires i <= |s|
    ensures r.Some? ==> i < r.value.end <= |s|
    decreases |s| - i, 1
  {
    var a := SpaceEnd(s, i);
    if a == |s| then None
    else
      var list := if details && s[a] == OPEN_ARRAY then Some([]) else None;
      match ContainerRun(env, s, a, ActionItem(details), f.(acts := ActionList(list, NO_COUNTS, true, false)))
      case None => None
      case Some(st) =>
        var acts := st.f.acts;
        var resource := st.f.entry.resource.(actions := acts.list).Mark(Actions, acts.omitted);
        Some(st.(f := st.f.(entry := Entry(resource, acts.counts, !acts.valid))))
  }

  /** One resource of the plan. */
  function EntryAt(env: Env, s: seq<byte>, i: nat, f: Frames): (r: Option<Step>)
    requires i <= |s|
    ensures r.Some? ==> i < r.value.end <= |s|
    decreases |s| - i, 1
  {
    var details := env.render.Some? && f.preview.CanRetain(|f.review.changes|);
    match ContainerRun(env, s, i, EntryMember(details), f.(entry := NO_ENTRY))
    case None => None
    case Some(st) =>
      match Settle(env, details, st.f)
      case None => None
      case Some(g) => Some(st.(f := g))
  }

  /** Add a finished resource to the review and, with a renderer, to the preview. */
  function Settle(env: Env, details: bool, f: Frames): Option<Frames> {
    var review := f.review.(counts := f.review.counts.Plus(f.entry.counts), invalid := f.review.invalid || f.entry.invalid);
    if env.render.None? then Some(f.(review := review))
    else if !details then Some(f.(review := review, preview := f.preview.Omit()))
    else
      match env.render.value(f.rendered, f.entry.resource)
      case None => None
      case Some(c) =>
        var g := f.(rendered := f.rendered + 1);
        if f.preview.Fits(c) then
          Some(g.(review := review.(changes := review.changes + [c]), preview := f.preview.Keep(c)))
        else Some(g.(review := review, preview := f.preview.Omit()))
  }

  function ContainerRun(env: Env, s: seq<byte>, i: nat, item: Item, f: Frames): (r: Option<Step>)
    requires i <= |s|
    ensures r.Some? ==> i < r.value.end <= |s|
    decreases |s| - i, 0
  {
    var a := SpaceEnd(s, i);
    if a == |s| then None
    else if s[a] == SMALL_N then Still(Flat(LiteralEnd(s, a, NULL_WORD)), f)
    else if s[a] != Opening(item.Keyed()) then None
    else
      var b := SpaceEnd(s, a + 1);
      if b == |s| then None
      else if s[b] == Closer(item.Keyed()) then Some(Step(b + 1, 1, f))
      else ItemsRun(env, s, b, item, 0, f)
  }

  function ItemsRun(env: Env, s: seq<byte>, i: nat, item: Item, acc: nat, f: Frames): (r: Option<Step>)
    requires i <= |s|
    ensures r.Some? ==> i < r.value.end <= |s| && acc < r.value.height
    decreases |s| - i, 4
  {
    match RunItem(env, s, i, item, f)
    case None => None
    case Some(st) =>
      var a := SpaceEnd(s, st.end);
      if a == |s| then None
      else if s[a] == Closer(item.Keyed()) then Some(Step(a + 1, 1 + Max(acc, st.height), st.f))
      else if s[a] != COMMA then None
      else
        var b := SpaceEnd(s, a + 1);
        if b == |s| then None else ItemsRun(env, s, b, item, Max(acc, st.height), st.f)
  }

  // ----- whole inputs -----

  predicate VersionOne(version: Text) {
    Ascii("1.") <= version
  }

  /** The Terraform pass over the plan object, before the end-of-input check. */
  function Terraform(env: Env, s: seq<byte>): (r: Option<Step>)
    ensures r.Some? ==> r.value.end <= |s|
  {
    match ContainerRun(env, s, 0, RootMember, START)
    case None => None
    case Some(st) =>
      if st.height > MAX_DEPTH || st.f.version == [] || st.f.review.invalid
         || (env.render.Some? && !VersionOne(st.f.version)) then None
      else Some(st)
  }

  /** The pass over a summary object. */
  function SummaryPass(env: Env, s: seq<byte>): (r: Option<Step>)
    ensures r.Some? ==> r.value.end <= |s|
  {
    match ContainerRun(env, s, 0, SummaryMember, START)
    case None => None
    case Some(st) => if st.height > MAX_DEPTH || !st.f.summary.Accepted() then None else Some(st)
  }

  /** A pass that also reached the end of the input. */
  function Complete(s: seq<byte>, st: Option<Step>): Option<Step>
    requires st.Some? ==> st.value.end <= |s|
  {
    if st.Some? && SpaceEnd(s, st.value.end) == |s| then st else None
  }

  /** The gate's counts for a plan. */
  function GateCounts(env: Env, s: seq<byte>): Option<Counts> {
    match Complete(s, Terraform(env.Counting(), s))
    case None => None
    case Some(st) => Some(st.f.review.counts)
  }

  /** The gate's counts for a summary review. */
  function SummaryCounts(env: Env, s: seq<byte>): Option<Counts> {
    match Complete(s, SummaryPass(env, s))
    case None => None
    case Some(st) => Some(CountsOf(st.f.summary))
  }

  function CountsOf(summary: Summary): Counts
    requires summary.Accepted()
  {
    Counts(summary.NumberOf(Ascii("create")), summary.NumberOf(Ascii("update")),
           summary.NumberOf(Ascii("delete")), summary.NumberOf(Ascii("read")))
  }

  datatype Response = Response(resources: seq<Change>, truncated: bool, omitted: nat)

  /** The preview shown for a plan. */
  function PreviewResponse(env: Env, s: seq<byte>): Option<Response> {
    match Complete(s, Terraform(env, s))
    case None => None
    case Some(st) => Some(Response(st.f.review.changes, st.f.preview.truncated, st.f.preview.omitted))
  }
}
