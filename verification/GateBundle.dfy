/**
 The approval bundle: an archive is rewritten entry by entry into a canonical
 one, and a separate check later counts the entries of a saved bundle. The
 archive format itself, the checksum and UTF-8 validity are parameters.
 */
module GateBundle {
  import opened Common
  import opened JsonBytes
  import opened JsonScan
  import PlanReview

  type Counts = PlanReview.Counts

  datatype Kind = Regular | Directory | Special

  /** An archive entry as its reader presents it; `data` is what is left of the archive for it. */
  datatype Entry = Entry(name: Text, mode: bv64, size: int, kind: Kind, uid: int, gid: int, data: seq<byte>)

  const NOBODY := 65534
  const PLAIN_MODE: bv64 := 420
  const EXECUTABLE_MODE: bv64 := 493
  const EXECUTE_BITS: bv64 := 73

  const NUL: byte := 0

  /** What the copy is told: paths, node limit, and the functions it calls. The parser also says how much it read. */
  datatype Setup = Setup(
    artifact: Text, review: Text, limit: int,
    utf8: Text -> bool, hash: seq<byte> -> Text, parse: seq<byte> -> Option<(Counts, nat)>)

  /** What the copy has produced so far. */
  datatype Bundle = Bundle(out: seq<Entry>, seen: set<Text>, checksum: Option<Text>, review: Counts)

  const EMPTY := Bundle([], {}, None, PlanReview.NO_COUNTS)

  // ----- names -----

  function TrimName(name: Text): Text {
    var rest := if |name| >= 2 && name[0] == POINT && name[1] == SLASH then name[2..] else name;
    if |rest| > 0 && rest[|rest| - 1] == SLASH then rest[..|rest| - 1] else rest
  }

  function FirstSlash(name: Text): (k: nat)
    ensures k <= |name|
    ensures k < |name| ==> name[k] == SLASH
    ensures forall j :: 0 <= j < k ==> name[j] != SLASH
  {
    if name == [] || name[0] == SLASH then 0 else 1 + FirstSlash(name[1..])
  }

  /** No element between slashes is empty, "." or "..". */
  predicate ValidElements(name: Text)
    decreases |name|
  {
    var k := FirstSlash(name);
    name[..k] !in {[], [POINT], [POINT, POINT]} && (k < |name| ==> ValidElements(name[k + 1..]))
  }

  predicate ValidName(s: Setup, name: Text) {
    s.utf8(name) && ValidElements(name) && BACKSLASH !in name && NUL !in name
  }

  // ----- one entry -----

  datatype Canonical = Skip | Refuse | Header(entry: Entry)

  function CanonicalHeader(s: Setup, seen: set<Text>, e: Entry): Canonical {
    var name := TrimName(e.name);
    if name == [POINT] || name == [] then Skip
    else if !ValidName(s, name) || name in seen || |seen| >= s.limit then Refuse
    else if e.kind.Special? || e.size < 0 then Refuse
    else if e.kind.Directory? then
      if e.size != 0 then Refuse else Header(Entry(name, EXECUTABLE_MODE, 0, Directory, NOBODY, NOBODY, e.data))
    else
      Header(Entry(name, if e.mode & EXECUTE_BITS != 0 then EXECUTABLE_MODE else PLAIN_MODE, e.size, Regular, NOBODY, NOBODY, e.data))
  }

  /** Write an entry, reading its bytes; None when it is refused or the archive ends inside it. */
  function WriteEntry(s: Setup, b: Bundle, e: Entry): Option<Bundle> {
    var seen := b.seen + {e.name};
    if |e.data| != e.size then None
    else if e.name == s.review then
      if !e.kind.Regular? then None
      else
        match s.parse(e.data)
        case None => None
        case Some((review, read)) =>
          if read > |e.data| then None
          else Some(Bundle(b.out + [e.(data := e.data[..read])], seen, b.checksum, review))
    else if e.name == s.artifact then
      if !e.kind.Regular? || e.size == 0 then None
      else Some(Bundle(b.out + [e], seen, Some(s.hash(e.data)), b.review))
    else Some(Bundle(b.out + [e], seen, b.checksum, b.review))
  }

  function CopyEntry(s: Setup, b: Bundle, e: Entry): Option<Bundle> {
    match CanonicalHeader(s, b.seen, e)
    case Skip => Some(b)
    case Refuse => None
    case Header(c) => WriteEntry(s, b, c)
  }

  /** The bundle after the first `n` entries. */
  function CopyFirst(s: Setup, entries: seq<Entry>, n: nat): Option<Bundle>
    requires n <= |entries|
  {
    if n == 0 then Some(EMPTY)
    else
      match CopyFirst(s, entries, n - 1)
      case None => None
      case Some(b) => CopyEntry(s, b, entries[n - 1])
  }

  datatype Copied = Copied(out: seq<Entry>, checksum: Text, review: Counts)

  function Copy(s: Setup, entries: seq<Entry>): Option<Copied> {
    match CopyFirst(s, entries, |entries|)
    case None => None
    case Some(b) =>
      if b.checksum.None? || s.review !in b.seen then None else Some(Copied(b.out, b.checksum.value, b.review))
  }

  // ----- as they run -----

  method CopyGateBundle(s: Setup, source: seq<Entry>) returns (r: Option<Copied>)
    ensures r == Copy(s, source)
  {
    hide CopyFirst, CanonicalHeader, WriteEntry;
    CopyNone(s, source);
    var target, seen, checksum, review := [], {}, None, PlanReview.NO_COUNTS;
    for n := 0 to |source|
      invariant CopyFirst(s, source, n) == Some(Bundle(target, seen, checksum, review))
    {
      CopyPrefix(s, source, n + 1);
      CopyStep(s, source, n + 1);
      var canonical := CanonicalHeader(s, seen, source[n]);
      match canonical {
        case Skip =>
        case Refuse =>
          return None;
        case Header(c) =>
          var written := WriteEntry(s, Bundle(target, seen, checksum, review), c);
          if written.None? {
            return None;
          }
          target, seen, checksum, review :=
            written.value.out, written.value.seen, written.value.checksum, written.value.review;
      }
    }
    if checksum.None? || s.review !in seen {
      return None;
    }
    r := Some(Copied(target, checksum.value, review));
  }

  /** A failed copy stays failed. */
  lemma {:induction false} CopyPrefix(s: Setup, entries: seq<Entry>, n: nat)
    requires n <= |entries|
    ensures CopyFirst(s, entries, |entries|).Some? ==> CopyFirst(s, entries, n).Some?
    decreases |entries| - n
  {
    if n < |entries| {
      CopyPrefix(s, entries, n + 1);
    }
  }

  predicate NodesFit(source: seq<Entry>, limit: int) {
    source == [] || |source| <= limit
  }

  /** Count the entries of a saved bundle, stopping at the first one too many. */
  method ValidateGateBundleNodes(source: seq<Entry>, limit: int) returns (ok: bool)
    ensures ok <==> NodesFit(source, limit)
  {
    var count := 0;
    while true
      invariant 0 <= count <= |source| && (count == 0 || count <= limit)
      decreases |source| - count
    {
      if count == |source| {
        return true;
      }
      if count >= limit {
        return false;
      }
      count := count + 1;
    }
  }

  // ----- what an accepted bundle is -----

  /** The parser reads a review to its end before accepting it. */
  ghost predicate Thorough(s: Setup) {
    forall data :: s.parse(data).Some? ==> s.parse(data).value.1 == |data|
  }

  /** The review parser for either format, with how far it read. */
  function GateParse(env: PlanReview.Env, data: seq<byte>, terraform: bool): Option<(Counts, nat)> {
    match if terraform then PlanReview.Terraform(env.Counting(), data) else PlanReview.SummaryPass(env, data)
    case None => None
    case Some(st) =>
      var end := SpaceEnd(data, st.end);
      if end == |data| then
        Some((if terraform then st.f.review.counts else PlanReview.CountsOf(st.f.summary), end))
      else None
  }

  lemma GateParseIsThorough(env: PlanReview.Env, s: Setup, terraform: bool)
    requires s.parse == ((data: seq<byte>) => GateParse(env, data, terraform))
    ensures Thorough(s)
    ensures forall data ::
      (if terraform then PlanReview.GateCounts(env, data) else PlanReview.SummaryCounts(env, data))
        == match s.parse(data) case None => None case Some(p) => Some(p.0)
  {
    hide PlanReview.Terraform, PlanReview.SummaryPass, SpaceEnd;
  }

  /** An entry the copy leaves as it is. */
  predicate Canonic(s: Setup, e: Entry) {
    && TrimName(e.name) == e.name && e.name != [POINT] && e.name != [] && ValidName(s, e.name)
    && e.uid == NOBODY && e.gid == NOBODY && e.size == |e.data|
    && ((e.kind.Regular? && e.mode in {PLAIN_MODE, EXECUTABLE_MODE})
        || (e.kind.Directory? && e.mode == EXECUTABLE_MODE && e.size == 0))
  }

  lemma TrimmedStays(name: Text)
    requires ValidElements(name)
    ensures TrimName(name) == name
  {
    assert name[..FirstSlash(name)] != [POINT];
    assert FirstSlash(name) == 1 ==> name[..1] == [name[0]];
    NoTrailingSlash(name);
  }

  lemma {:induction false} NoTrailingSlash(name: Text)
    requires ValidElements(name)
    ensures |name| > 0 && name[|name| - 1] != SLASH
    decreases |name|
  {
    var k := FirstSlash(name);
    if k < |name| {
      NoTrailingSlash(name[k + 1..]);
    }
  }

  lemma HeaderIsCanonic(s: Setup, seen: set<Text>, e: Entry)
    requires CanonicalHeader(s, seen, e).Header?
    ensures
      var c := CanonicalHeader(s, seen, e).entry;
      && c.name == TrimName(e.name) && c.data == e.data && c.kind == e.kind && c.name !in seen && |seen| < s.limit
      && (c.size == |c.data| ==> Canonic(s, c))
  {
    TrimmedStays(TrimName(e.name));
  }

  /** A canonical entry is its own canonical form. */
  lemma CanonicIsFixed(s: Setup, seen: set<Text>, c: Entry)
    requires Canonic(s, c) && c.name !in seen && |seen| < s.limit
    ensures CanonicalHeader(s, seen, c) == Header(c)
  {
    assert PLAIN_MODE & EXECUTE_BITS == 0 && EXECUTABLE_MODE & EXECUTE_BITS != 0;
  }

  function Names(entries: seq<Entry>): set<Text> {
    set k | 0 <= k < |entries| :: entries[k].name
  }

  /** The entries that are not skipped: the root itself never is part of a bundle. */
  function Retained(entries: seq<Entry>): seq<Entry> {
    if entries == [] then []
    else
      var e := entries[|entries| - 1];
      Retained(entries[..|entries| - 1]) + if TrimName(e.name) in {[], [POINT]} then [] else [e]
  }

  ghost predicate Distinct(entries: seq<Entry>) {
    forall j, k :: 0 <= j < k < |entries| ==> entries[j].name != entries[k].name
  }

  ghost predicate Sound(s: Setup, b: Bundle) {
    && |b.seen| == |b.out| && b.seen == Names(b.out) && (b.out == [] || |b.out| <= s.limit)
    && (forall k :: 0 <= k < |b.out| ==> Canonic(s, b.out[k]))
    && Distinct(b.out)
  }

  /** The copied entries are these, up to canonical names and headers. */
  ghost predicate CopiesOf(out: seq<Entry>, kept: seq<Entry>) {
    && |out| == |kept|
    && forall k :: 0 <= k < |out| ==>
         Copies(out[k], kept[k])
  }

  /** Same kind and bytes under the trimmed name, owned by nobody, with mode 0755 for directories and executables, else 0644. */
  predicate Copies(c: Entry, e: Entry) {
    && c.name == TrimName(e.name) && c.kind == e.kind && c.data == e.data && c.size == e.size
    && c.mode == (if e.kind.Directory? || e.mode & 0x49 != 0 then 0x1ED else 0x1A4)
    && c.uid == 65534 && c.gid == 65534
  }

  ghost predicate Good(s: Setup, entries: seq<Entry>, b: Bundle) {
    Sound(s, b) && CopiesOf(b.out, Retained(entries))
  }

  /** What copying one more entry does to a bundle, unless the entry is skipped. */
  ghost predicate Adds(s: Setup, b: Bundle, c: Entry, v: Bundle) {
    && v.out == b.out + [c] && v.seen == b.seen + {c.name} && c.name !in b.seen && |b.seen| < s.limit
    && Canonic(s, c) && CopyEntry(s, b, c) == Some(v)
    && (if c.name == s.review then c.kind.Regular? && s.parse(c.data) == Some((v.review, |c.data|)) && v.checksum == b.checksum
        else v.review == b.review && v.checksum == if c.name == s.artifact then Some(s.hash(c.data)) else b.checksum)
    && (c.name == s.artifact && c.name != s.review ==> c.kind.Regular? && |c.data| > 0)
  }

  lemma CopyAdds(s: Setup, b: Bundle, e: Entry) returns (c: Entry)
    requires Thorough(s) && CopyEntry(s, b, e).Some? && !CanonicalHeader(s, b.seen, e).Skip?
    ensures Adds(s, b, c, CopyEntry(s, b, e).value)
    ensures Copies(c, e) && TrimName(e.name) !in {[], [POINT]}
  {
    hide TrimName, ValidName;
    c := CanonicalHeader(s, b.seen, e).entry;
    HeaderIsCanonic(s, b.seen, e);
    CanonicIsFixed(s, b.seen, c);
    assert c.data[..|c.data|] == c.data;
  }

  lemma SkipKeeps(s: Setup, b: Bundle, e: Entry)
    requires CanonicalHeader(s, b.seen, e).Skip?
    ensures CopyEntry(s, b, e) == Some(b) && TrimName(e.name) in {[], [POINT]}
  {
    hide TrimName, ValidName;
  }

  lemma AddsSound(s: Setup, b: Bundle, c: Entry, v: Bundle)
    requires Sound(s, b) && Adds(s, b, c, v)
    ensures Sound(s, v)
  {
    hide Canonic, CopyEntry;
    NamesAppend(b.out, c);
    assert forall k :: 0 <= k < |b.out| ==> b.out[k].name in Names(b.out);
  }

  lemma RetainedAppend(entries: seq<Entry>, e: Entry)
    ensures Retained(entries + [e]) == Retained(entries) + if TrimName(e.name) in {[], [POINT]} then [] else [e]
  {
    hide TrimName;
    assert (entries + [e])[..|entries|] == entries;
  }

  lemma NamesAppend(entries: seq<Entry>, e: Entry)
    ensures Names(entries + [e]) == Names(entries) + {e.name}
  {
    assert forall k :: 0 <= k < |entries| ==> (entries + [e])[k] == entries[k];
    assert (entries + [e])[|entries|] == e;
    forall n ensures n in Names(entries + [e]) <==> n in Names(entries) + {e.name} {
      if n in Names(entries) {
        var k :| 0 <= k < |entries| && entries[k].name == n;
        assert (entries + [e])[k].name == n;
      }
    }
  }

  lemma {:induction false} SamePrefix(s: Setup, a: seq<Entry>, b: seq<Entry>, n: nat)
    requires n <= |a| && n <= |b| && a[..n] == b[..n]
    ensures CopyFirst(s, a, n) == CopyFirst(s, b, n)
  {
    if n > 0 {
      assert a[..n - 1] == a[..n][..n - 1] && b[..n - 1] == b[..n][..n - 1];
      assert a[n - 1] == a[..n][n - 1] && b[n - 1] == b[..n][n - 1];
      SamePrefix(s, a, b, n - 1);
    }
  }

  lemma CopyStep(s: Setup, entries: seq<Entry>, n: nat)
    requires 0 < n <= |entries|
    ensures CopyFirst(s, entries, n) ==
      match CopyFirst(s, entries, n - 1)
      case None => None
      case Some(b) => CopyEntry(s, b, entries[n - 1])
  {
    hide CopyEntry;
  }

  lemma AddsAgain(s: Setup, b: Bundle, c: Entry, v: Bundle)
    requires Adds(s, b, c, v) && CopyFirst(s, b.out, |b.out|) == Some(b)
    ensures CopyFirst(s, v.out, |v.out|) == Some(v)
  {
    hide CopyFirst, CopyEntry, Canonic;
    assert v.out[..|b.out|] == b.out[..|b.out|] && v.out[|b.out|] == c;
    SamePrefix(s, v.out, b.out, |b.out|);
    CopyStep(s, v.out, |v.out|);
  }

  lemma CopiesAppend(out: seq<Entry>, kept: seq<Entry>, c: Entry, e: Entry)
    requires CopiesOf(out, kept) && Copies(c, e)
    ensures CopiesOf(out + [c], kept + [e])
  {
    hide Copies;
  }

  /** Copying what has been copied gives the same bundle: entries, checksum, review and names. */
  lemma {:induction false} CopyAgain(s: Setup, entries: seq<Entry>, n: nat)
    requires n <= |entries| && Thorough(s) && CopyFirst(s, entries, n).Some?
    ensures
      var b := CopyFirst(s, entries, n).value;
      Good(s, entries[..n], b) && CopyFirst(s, b.out, |b.out|) == Some(b)
  {
    hide CopyEntry, Sound, TrimName, CanonicalHeader, Canonic, CopyFirst, Thorough, CopiesOf, Copies;
    if n == 0 {
      assert CopyFirst(s, entries, 0) == Some(EMPTY) && CopyFirst(s, [], 0) == Some(EMPTY) by { CopyNone(s, entries); CopyNone(s, []); }
      assert entries[..0] == [];
      GoodEmpty(s);
    } else {
      CopyStep(s, entries, n);
      CopyAgain(s, entries, n - 1);
      var b, e := CopyFirst(s, entries, n - 1).value, entries[n - 1];
      assert entries[..n - 1] + [e] == entries[..n];
      RetainedAppend(entries[..n - 1], e);
      if CanonicalHeader(s, b.seen, e).Skip? {
        SkipKeeps(s, b, e);
        assert Retained(entries[..n - 1]) + [] == Retained(entries[..n - 1]);
      } else {
        var v := CopyFirst(s, entries, n).value;
        var c := CopyAdds(s, b, e);
        AddsSound(s, b, c, v);
        AddsAgain(s, b, c, v);
        CopiesAppend(b.out, Retained(entries[..n - 1]), c, e);
      }
    }
  }

  lemma CopyNone(s: Setup, entries: seq<Entry>)
    ensures CopyFirst(s, entries, 0) == Some(EMPTY)
  {
  }

  lemma GoodEmpty(s: Setup)
    ensures Good(s, [], EMPTY)
  {
  }

  /**
   An accepted bundle is canonical: copied again it comes out unchanged with the
   same checksum and review, and the later entry count always passes.
   */
  lemma CopyIsIdempotent(s: Setup, source: seq<Entry>)
    requires Thorough(s) && Copy(s, source).Some?
    ensures
      var c := Copy(s, source).value;
      && Copy(s, c.out) == Some(c)
      && c.out != [] && NodesFit(c.out, s.limit)
      && Distinct(c.out)
      && forall k :: 0 <= k < |c.out| ==> Canonic(s, c.out[k])
  {
    hide CopyEntry, Canonic;
    CopyAgain(s, source, |source|);
    assert source[..|source|] == source;
  }

  /** Nothing is lost on the way: every entry but the root is kept, in order, with its kind, every byte and whether it can be executed. */
  lemma CopyKeepsContent(s: Setup, source: seq<Entry>)
    requires Thorough(s) && Copy(s, source).Some?
    ensures
      CopiesOf(Copy(s, source).value.out, Retained(source))
  {
    hide CopyEntry, Canonic;
    CopyAgain(s, source, |source|);
    assert source[..|source|] == source;
  }

  /** The checksum and the review are those of the files at the two paths. */
  ghost predicate ResultsOf(s: Setup, b: Bundle) {
    && (b.checksum.Some? <==> s.artifact != s.review && s.artifact in b.seen)
    && (forall k :: 0 <= k < |b.out| && b.out[k].name == s.artifact && s.artifact != s.review ==>
          b.checksum == Some(s.hash(b.out[k].data)) && b.out[k].kind.Regular? && |b.out[k].data| > 0)
    && (forall k :: 0 <= k < |b.out| && b.out[k].name == s.review ==>
          s.parse(b.out[k].data) == Some((b.review, |b.out[k].data|)) && b.out[k].kind.Regular?)
  }

  lemma AddsResults(s: Setup, b: Bundle, c: Entry, v: Bundle)
    requires Sound(s, b) && ResultsOf(s, b) && Adds(s, b, c, v)
    ensures ResultsOf(s, v)
  {
    hide Canonic, CopyEntry;
    assert forall k :: 0 <= k < |b.out| ==> b.out[k].name in Names(b.out);
  }

  lemma {:induction false} ResultsAreOfTheFiles(s: Setup, entries: seq<Entry>, n: nat)
    requires n <= |entries| && Thorough(s) && CopyFirst(s, entries, n).Some?
    ensures ResultsOf(s, CopyFirst(s, entries, n).value)
  {
    hide CanonicalHeader, CopyEntry, Adds, CopiesOf, CopyFirst, Thorough, Sound, TrimName;
    if n == 0 {
      CopyNone(s, entries);
    } else {
      CopyStep(s, entries, n);
      ResultsAreOfTheFiles(s, entries, n - 1);
      CopyAgain(s, entries, n - 1);
      var b, e := CopyFirst(s, entries, n - 1).value, entries[n - 1];
      if CanonicalHeader(s, b.seen, e).Skip? {
        SkipKeeps(s, b, e);
      } else {
        var c := CopyAdds(s, b, e);
        AddsResults(s, b, c, CopyFirst(s, entries, n).value);
      }
    }
  }

  // ----- names -----

  function Join(parts: seq<Text>): Text
    requires parts != []
  {
    if |parts| == 1 then parts[0] else parts[0] + [SLASH] + Join(parts[1..])
  }

  /** An element of a path: not empty, not "." or "..", and without a slash. */
  predicate IsElement(part: Text) {
    SLASH !in part && part != [] && part != [POINT] && part != [POINT, POINT]
  }

  ghost predicate IsPath(name: Text) {
    exists parts :: parts != [] && (forall k :: 0 <= k < |parts| ==> IsElement(parts[k])) && Join(parts) == name
  }

  lemma {:induction false} JoinedIsValid(parts: seq<Text>)
    requires parts != [] && forall k :: 0 <= k < |parts| ==> IsElement(parts[k])
    ensures ValidElements(Join(parts))
    decreases |parts|
  {
    var name, first := Join(parts), parts[0];
    assert IsElement(first);
    if |parts| == 1 {
      FirstSlashIs(name, |name|);
      assert name[..|name|] == first;
    } else {
      JoinedIsValid(parts[1..]);
      assert name[|first|] == SLASH && name[..|first|] == first && name[|first| + 1..] == Join(parts[1..]);
      FirstSlashIs(name, |first|);
    }
  }

  lemma {:induction false} FirstSlashIs(name: Text, k: nat)
    requires k <= |name| && (k < |name| ==> name[k] == SLASH) && SLASH !in name[..k]
    ensures FirstSlash(name) == k
    decreases |name|
  {
    if k > 0 {
      assert name[..k][0] == name[0] && name[..k][1..] == name[1..][..k - 1];
      FirstSlashIs(name[1..], k - 1);
    }
  }

  lemma {:induction false} ValidIsJoined(name: Text) returns (parts: seq<Text>)
    requires ValidElements(name)
    ensures parts != [] && (forall k :: 0 <= k < |parts| ==> IsElement(parts[k])) && Join(parts) == name
    decreases |name|
  {
    var k := FirstSlash(name);
    var first := name[..k];
    assert SLASH !in first;
    if k < |name| {
      var rest := ValidIsJoined(name[k + 1..]);
      parts := [first] + rest;
      assert parts[1..] == rest;
      assert name == first + [SLASH] + name[k + 1..];
    } else {
      parts := [first];
      assert first == name;
    }
  }

  /** A name passes exactly when it is elements joined by single slashes. */
  lemma ValidExactly(name: Text)
    ensures ValidElements(name) <==> IsPath(name)
  {
    if ValidElements(name) {
      var parts := ValidIsJoined(name);
    }
    if IsPath(name) {
      var parts :| parts != [] && (forall k :: 0 <= k < |parts| ==> IsElement(parts[k])) && Join(parts) == name;
      JoinedIsValid(parts);
    }
  }

  /** The spellings of a path that an archive may use. */
  function Spellings(name: Text): set<Text> {
    {name, [POINT, SLASH] + name, name + [SLASH], [POINT, SLASH] + (name + [SLASH])}
  }

  lemma TrimmedFrom(given: Text, name: Text)
    requires ValidElements(name)
    ensures TrimName(given) == name <==> given in Spellings(name)
  {
    hide ValidElements, TrimName, Spellings;
    NoTrailingSlash(name);
    NoLeadingDot(name);
    Untrimmed(name);
    if TrimName(given) == name {
      Respelled(given);
    }
  }

  lemma Respelled(given: Text)
    ensures given in Spellings(TrimName(given))
  {
    var dotted := |given| >= 2 && given[0] == POINT && given[1] == SLASH;
    var rest := if dotted then given[2..] else given;
    assert dotted ==> given == [POINT, SLASH] + rest;
    assert rest == TrimName(given) || rest == TrimName(given) + [SLASH];
  }

  lemma NoLeadingDot(name: Text)
    requires ValidElements(name)
    ensures name != [POINT] && !(|name| >= 2 && name[0] == POINT && name[1] == SLASH)
  {
    var parts := ValidIsJoined(name);
    assert IsElement(parts[0]);
    if |parts| > 1 {
      assert name[|parts[0]|] == SLASH && name[..|parts[0]|] == parts[0];
    }
  }

  lemma Untrimmed(name: Text)
    requires name != [] && name[|name| - 1] != SLASH && name != [POINT]
    requires !(|name| >= 2 && name[0] == POINT && name[1] == SLASH)
    ensures forall given :: given in Spellings(name) ==> TrimName(given) == name
  {
    var d, t := [POINT, SLASH] + name, name + [SLASH];
    assert d[2..] == name && t[..|t| - 1] == name;
    assert ([POINT, SLASH] + t)[2..] == t;
  }

  // ----- which archives are accepted -----

  /** An entry that can be copied, given where the review and the artifact are. */
  predicate EntryOK(s: Setup, e: Entry) {
    var name := TrimName(e.name);
    && s.utf8(name) && ValidElements(name) && BACKSLASH !in name && NUL !in name
    && !e.kind.Special? && e.size == |e.data| && (e.kind.Directory? ==> e.size == 0)
    && (name == s.review ==> e.kind.Regular? && s.parse(e.data).Some?)
    && (name == s.artifact && name != s.review ==> e.kind.Regular? && e.size > 0)
  }

  /** These entries can be copied together. */
  ghost predicate Copyable(s: Setup, kept: seq<Entry>) {
    && (forall k :: 0 <= k < |kept| ==> EntryOK(s, kept[k]))
    && (forall j, k :: 0 <= j < k < |kept| ==> TrimName(kept[j].name) != TrimName(kept[k].name))
    && (kept == [] || |kept| <= s.limit)
  }

  /** One entry more: accepted exactly when it can be copied, its name is new, and there is room. */
  lemma EntryAccepted(s: Setup, b: Bundle, e: Entry)
    requires Thorough(s) && TrimName(e.name) !in {[], [POINT]}
    ensures CopyEntry(s, b, e).Some? <==> EntryOK(s, e) && TrimName(e.name) !in b.seen && |b.seen| < s.limit
  {
    hide TrimName, ValidElements;
  }

  lemma CopyableMore(s: Setup, kept: seq<Entry>, e: Entry, seen: set<Text>)
    requires |seen| == |kept| && forall n :: n in seen <==> exists k :: 0 <= k < |kept| && TrimName(kept[k].name) == n
    ensures Copyable(s, kept + [e]) <==>
      Copyable(s, kept) && EntryOK(s, e) && TrimName(e.name) !in seen && |seen| < s.limit
  {
    hide TrimName, EntryOK;
    var all := kept + [e];
    assert all[|kept|] == e && forall k :: 0 <= k < |kept| ==> all[k] == kept[k];
    if Copyable(s, all) {
      assert forall k :: 0 <= k < |kept| ==> EntryOK(s, all[k]) && TrimName(all[k].name) != TrimName(all[|kept|].name);
      assert EntryOK(s, all[|kept|]);
      assert forall j, k :: 0 <= j < k < |kept| ==> TrimName(all[j].name) != TrimName(all[k].name);
    }
  }

  lemma {:induction false} AcceptsFirst(s: Setup, entries: seq<Entry>, n: nat)
    requires n <= |entries| && Thorough(s)
    ensures CopyFirst(s, entries, n).Some? <==> Copyable(s, Retained(entries[..n]))
    decreases n
  {
    hide CopyEntry, CopyFirst, Copyable, CanonicalHeader, TrimName, EntryOK, Sound, Copies, Thorough;
    if n == 0 {
      CopyNone(s, entries);
      assert entries[..0] == [];
      assert Copyable(s, []) by { NothingCopyable(s); }
    } else {
      var e := entries[n - 1];
      var kept := Retained(entries[..n - 1]);
      assert entries[..n - 1] + [e] == entries[..n];
      CopyStep(s, entries, n);
      RetainedAppend(entries[..n - 1], e);
      AcceptsFirst(s, entries, n - 1);
      var prior := CopyFirst(s, entries, n - 1);
      assert kept + [] == kept;
      if prior.None? {
        if Copyable(s, kept + [e]) { CopyablePrefix(s, kept, e); }
      } else {
        var b := prior.value;
        CopyAgain(s, entries, n - 1);
        if TrimName(e.name) in {[], [POINT]} {
          SkippedName(s, b, e);
        } else {
          SeenNames(s, b, kept);
          EntryAccepted(s, b, e);
          CopyableMore(s, kept, e, b.seen);
        }
      }
    }
  }

  lemma NothingCopyable(s: Setup)
    ensures Copyable(s, [])
  {
  }

  lemma SkippedName(s: Setup, b: Bundle, e: Entry)
    requires TrimName(e.name) in {[], [POINT]}
    ensures CopyEntry(s, b, e) == Some(b)
  {
    hide TrimName;
  }

  lemma CopyablePrefix(s: Setup, kept: seq<Entry>, e: Entry)
    requires Copyable(s, kept + [e])
    ensures Copyable(s, kept)
  {
    hide TrimName, EntryOK;
    var all := kept + [e];
    assert forall k :: 0 <= k < |kept| ==> all[k] == kept[k];
    assert forall k :: 0 <= k < |kept| ==> EntryOK(s, all[k]);
    assert forall j, k :: 0 <= j < k < |kept| ==> TrimName(all[j].name) != TrimName(all[k].name);
  }

  lemma SeenNames(s: Setup, b: Bundle, kept: seq<Entry>)
    requires Sound(s, b) && CopiesOf(b.out, kept)
    ensures |b.seen| == |kept| && forall n :: n in b.seen <==> exists k :: 0 <= k < |kept| && TrimName(kept[k].name) == n
  {
    hide TrimName, Canonic;
    forall n ensures n in b.seen <==> exists k :: 0 <= k < |kept| && TrimName(kept[k].name) == n {
      if n in b.seen {
        var k :| 0 <= k < |b.out| && b.out[k].name == n;
        assert Copies(b.out[k], kept[k]);
      }
      if k :| 0 <= k < |kept| && TrimName(kept[k].name) == n {
        assert Copies(b.out[k], kept[k]) && b.out[k].name in Names(b.out);
      }
    }
  }

  ghost predicate HasName(kept: seq<Entry>, name: Text) {
    exists k :: 0 <= k < |kept| && TrimName(kept[k].name) == name
  }

  /**
   An archive is accepted exactly when each entry but the root can be copied,
   no two share a path, there are not too many, and the artifact and, apart
   from it, the review are among them.
   */
  lemma AcceptsExactly(s: Setup, source: seq<Entry>)
    requires Thorough(s)
    ensures Copy(s, source).Some? <==>
      var kept := Retained(source);
      Copyable(s, kept) && HasName(kept, s.artifact) && HasName(kept, s.review) && s.artifact != s.review
  {
    hide CopyEntry, CopyFirst, Copyable, TrimName, Sound, CopiesOf, ResultsOf, Thorough;
    assert source[..|source|] == source;
    AcceptsFirst(s, source, |source|);
    var all := CopyFirst(s, source, |source|);
    if all.Some? {
      CopyAgain(s, source, |source|);
      SeenNames(s, all.value, Retained(source));
      ResultsAreOfTheFiles(s, source, |source|);
      ChecksumWhen(s, all.value);
    }
  }

  lemma ChecksumWhen(s: Setup, b: Bundle)
    requires ResultsOf(s, b)
    ensures b.checksum.Some? <==> s.artifact != s.review && s.artifact in b.seen
  {
  }
}
