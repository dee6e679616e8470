/**
 Rendering one captured resource. The text scrubber and the indented JSON
 printer are parameters; scrubbing a tree may come out in more than one way, so
 a resource has a set of possible renderings.
 */
module TerraformRender {
  import opened Common
  import opened JsonValue
  import opened PlanReview
  import opened PlanMeaning
  import opened TerraformMask
  import opened TerraformMaskProofs
  import opened TerraformScrub
  import G = JsonGrammar

  datatype Tools = Tools(scrub: Scrub, encode: Json -> Option<Text>) {
    /** A scrubbed tree as text, or the placeholder when that is too long. */
    function Print(v: Json): Option<Text> {
      match encode(v)
      case None => None
      case Some(raw) => Some(if |raw| > VALUE_BYTES then OMITTED else raw)
    }
  }

  const SHOWN_FIELDS: seq<Field> := [Address, Actions, Before, After]

  datatype Side = Side(value: Json, sensitive: Json, unknown: Json, omitted: bool) {
    function Visible(): Json {
      Shown(value, sensitive, unknown)
    }

    ghost predicate Renders(t: Tools, text: Option<Text>) {
      if omitted then text == Some(OMITTED)
      else exists v :: Scrubbed(t.scrub, Visible(), v) && text == t.Print(v)
    }
  }

  function BeforeSide(r: Resource): Side {
    Side(r.before, r.beforeSensitive, Null, Before in r.omitted || BeforeSensitive in r.omitted)
  }

  function AfterSide(r: Resource): Side {
    Side(r.after, r.afterSensitive, r.afterUnknown,
         After in r.omitted || AfterSensitive in r.omitted || AfterUnknown in r.omitted)
  }

  predicate Lacks(r: Resource, field: Field, before: Text, after: Text) {
    || field in r.omitted
    || (field == Before && before == OMITTED)
    || (field == After && after == OMITTED)
  }

  function Lacking(r: Resource, fields: seq<Field>, before: Text, after: Text): (l: seq<Field>)
    ensures forall f :: f in l <==> f in fields && Lacks(r, f, before, after)
  {
    if fields == [] then []
    else
      var last := fields[|fields| - 1];
      Lacking(r, fields[..|fields| - 1], before, after) + if Lacks(r, last, before, after) then [last] else []
  }

  function ChangeOf(t: Tools, r: Resource, before: Text, after: Text): Change {
    Change(t.scrub(r.address), r.actions, before, after, Lacking(r, SHOWN_FIELDS, before, after))
  }

  /** What rendering the resource can come to; None when a side cannot be printed. */
  ghost predicate Possible(t: Tools, r: Resource, c: Option<Change>) {
    exists before, after ::
      && BeforeSide(r).Renders(t, before) && AfterSide(r).Renders(t, after)
      && c == if before.Some? && after.Some? then Some(ChangeOf(t, r, before.value, after.value)) else None
  }

  // ----- as it runs -----

  method RenderSide(s: Side, t: Tools) returns (text: Option<Text>)
    ensures s.Renders(t, text)
  {
    if s.omitted {
      return Some(OMITTED);
    }
    var v := ScrubValue(t.scrub, s.Visible());
    text := t.Print(v);
  }

  method RenderTerraformResource(t: Tools, r: Resource) returns (c: Option<Change>)
    ensures Possible(t, r, c)
  {
    var before := RenderSide(BeforeSide(r), t);
    var after := RenderSide(AfterSide(r), t);
    if before.None? || after.None? {
      return None;
    }
    var fields := [];
    for k := 0 to |SHOWN_FIELDS|
      invariant fields == Lacking(r, SHOWN_FIELDS[..k], before.value, after.value)
    {
      assert SHOWN_FIELDS[..k + 1][..k] == SHOWN_FIELDS[..k];
      if Lacks(r, SHOWN_FIELDS[k], before.value, after.value) {
        fields := fields + [SHOWN_FIELDS[k]];
      }
    }
    assert SHOWN_FIELDS[..|SHOWN_FIELDS|] == SHOWN_FIELDS;
    return Some(Change(t.scrub(r.address), r.actions, before.value, after.value, fields));
  }

  // ----- what a rendering is -----

  /** The text of one side: the visible value scrubbed and printed, if neither it nor its parts were too big. */
  ghost predicate SideText(t: Tools, value: Json, sensitive: Json, unknown: Json, omitted: bool, text: Text) {
    if omitted then text == OMITTED
    else
      exists v, raw ::
        && Scrubbed(t.scrub, Shown(value, sensitive, unknown), v) && t.encode(v) == Some(raw)
        && text == if |raw| > 65536 then OMITTED else raw
  }

  function When(c: bool, field: Field): seq<Field> {
    if c then [field] else []
  }

  /** A change renders a resource exactly when each of its parts is that part of the resource, scrubbed. */
  lemma PossibleExactly(t: Tools, r: Resource, c: Change)
    ensures Possible(t, r, Some(c)) <==>
      && c.address == t.scrub(r.address) && c.actions == r.actions
      && SideText(t, r.before, r.beforeSensitive, Null, Before in r.omitted || BeforeSensitive in r.omitted, c.before)
      && SideText(t, r.after, r.afterSensitive, r.afterUnknown,
                  After in r.omitted || AfterSensitive in r.omitted || AfterUnknown in r.omitted, c.after)
      && c.omittedFields == When(Address in r.omitted, Address) + When(Actions in r.omitted, Actions)
           + When(Before in r.omitted || c.before == OMITTED, Before) + When(After in r.omitted || c.after == OMITTED, After)
  {
    hide Scrubbed, Shown, Lacking;
    SideExactly(t, BeforeSide(r), c.before);
    SideExactly(t, AfterSide(r), c.after);
    LackingExactly(r, c.before, c.after);
    if Possible(t, r, Some(c)) {
      var before, after :| BeforeSide(r).Renders(t, before) && AfterSide(r).Renders(t, after)
        && Some(c) == if before.Some? && after.Some? then Some(ChangeOf(t, r, before.value, after.value)) else None;
      assert before == Some(c.before) && after == Some(c.after);
    }
    if BeforeSide(r).Renders(t, Some(c.before)) && AfterSide(r).Renders(t, Some(c.after))
       && c == ChangeOf(t, r, c.before, c.after)
    {
      assert Possible(t, r, Some(c));
    }
  }

  lemma SideExactly(t: Tools, s: Side, text: Text)
    ensures s.Renders(t, Some(text)) <==> SideText(t, s.value, s.sensitive, s.unknown, s.omitted, text)
  {
    hide Scrubbed, Shown, Ascii;
    var shown := Shown(s.value, s.sensitive, s.unknown);
    if !s.omitted && s.Renders(t, Some(text)) {
      var v :| Scrubbed(t.scrub, shown, v) && Some(text) == t.Print(v);
      var raw := t.encode(v).value;
      assert Scrubbed(t.scrub, shown, v) && t.encode(v) == Some(raw) && text == if |raw| > 65536 then OMITTED else raw;
    }
    if !s.omitted && SideText(t, s.value, s.sensitive, s.unknown, s.omitted, text) {
      var v, raw :| Scrubbed(t.scrub, shown, v) && t.encode(v) == Some(raw) && text == if |raw| > 65536 then OMITTED else raw;
      assert Some(text) == t.Print(v);
    }
  }

  lemma LackingExactly(r: Resource, before: Text, after: Text)
    ensures Lacking(r, SHOWN_FIELDS, before, after) ==
      When(Address in r.omitted, Address) + When(Actions in r.omitted, Actions)
        + When(Before in r.omitted || before == OMITTED, Before) + When(After in r.omitted || after == OMITTED, After)
  {
    hide Lacking;
    var l0, l1, l2, l3 := [], [Address], [Address, Actions], [Address, Actions, Before];
    assert l0 + [Address] == l1 && l1 + [Actions] == l2 && l2 + [Before] == l3 && l3 + [After] == SHOWN_FIELDS;
    NothingLacking(r, before, after);
    LackingMore(r, l0, Address, before, after);
    LackingMore(r, l1, Actions, before, after);
    LackingMore(r, l2, Before, before, after);
    LackingMore(r, l3, After, before, after);
    var a, b := When(Address in r.omitted, Address), When(Actions in r.omitted, Actions);
    var c, d := When(Before in r.omitted || before == OMITTED, Before), When(After in r.omitted || after == OMITTED, After);
    assert Lacking(r, l1, before, after) == a;
    assert Lacking(r, l2, before, after) == a + b;
    assert Lacking(r, l3, before, after) == a + b + c;
    assert Lacking(r, SHOWN_FIELDS, before, after) == a + b + c + d;
  }

  lemma NothingLacking(r: Resource, before: Text, after: Text)
    ensures Lacking(r, [], before, after) == []
  {
  }

  lemma LackingMore(r: Resource, fields: seq<Field>, field: Field, before: Text, after: Text)
    ensures Lacking(r, fields + [field], before, after)
      == Lacking(r, fields, before, after) + When(Lacks(r, field, before, after), field)
  {
    assert (fields + [field])[..|fields|] == fields;
  }

  /** Addresses that scrub alike cannot be told apart either. */
  lemma AddressesScrubAlike(t: Tools, r: Resource, q: Resource)
    requires q == r.(address := q.address) && t.scrub(r.address) == t.scrub(q.address)
    ensures forall c :: Possible(t, r, c) <==> Possible(t, q, c)
  {
    hide Scrubbed, Shown;
    assert BeforeSide(r) == BeforeSide(q) && AfterSide(r) == AfterSide(q);
    forall before, after ensures ChangeOf(t, r, before, after) == ChangeOf(t, q, before, after) {
      SameLacking(r, q, SHOWN_FIELDS, before, after);
    }
  }

  // ----- masked data -----

  /** Resources that agree on everything but masked data. */
  ghost predicate Alike(r: Resource, q: Resource) {
    && LowEqual(r.before, q.before, r.beforeSensitive)
    && LowEqual(r.after, q.after, r.afterSensitive)
    && q == r.(before := q.before, after := q.after)
  }

  /** Whatever the scrubber and the printer do, masked data never changes what a resource can be rendered to. */
  lemma MaskedDataStaysOut(t: Tools, r: Resource, q: Resource)
    requires Alike(r, q)
    ensures forall c :: Possible(t, r, c) <==> Possible(t, q, c)
  {
    hide Shown, LowEqual, Scrubbed;
    Noninterference(r.before, q.before, r.beforeSensitive, Null);
    Noninterference(r.after, q.after, r.afterSensitive, r.afterUnknown);
    assert BeforeSide(r).Visible() == BeforeSide(q).Visible() && AfterSide(r).Visible() == AfterSide(q).Visible();
    forall text ensures BeforeSide(r).Renders(t, text) <==> BeforeSide(q).Renders(t, text)
      ensures AfterSide(r).Renders(t, text) <==> AfterSide(q).Renders(t, text)
    {
    }
    forall before, after ensures ChangeOf(t, r, before, after) == ChangeOf(t, q, before, after) {
      SameLacking(r, q, SHOWN_FIELDS, before, after);
    }
  }

  lemma {:induction false} SameLacking(r: Resource, q: Resource, fields: seq<Field>, before: Text, after: Text)
    requires r.omitted == q.omitted
    ensures Lacking(r, fields, before, after) == Lacking(q, fields, before, after)
  {
    if fields != [] {
      SameLacking(r, q, fields[..|fields| - 1], before, after);
    }
  }

  // ----- one rendering or several -----

  /** When scrubbing either side cannot depend on the order of its members, the rendering is determined. */
  lemma CoherentRendersOnce(t: Tools, r: Resource, c: Option<Change>, d: Option<Change>)
    requires Coherent(t.scrub, BeforeSide(r).Visible()) && Coherent(t.scrub, AfterSide(r).Visible())
    requires Possible(t, r, c) && Possible(t, r, d)
    ensures c == d
  {
    hide Coherent, Scrubbed, Shown, Lacking;
    SideOnce(t, BeforeSide(r));
    SideOnce(t, AfterSide(r));
  }

  lemma SideOnce(t: Tools, s: Side)
    requires Coherent(t.scrub, s.Visible())
    ensures forall a, b :: s.Renders(t, a) && s.Renders(t, b) ==> a == b
  {
    hide Coherent, Scrubbed, Shown;
    DeterminedExactly(t.scrub, s.Visible());
  }

  /** In particular when no object shown has two keys that scrub alike. */
  lemma KeysApartRenderOnce(t: Tools, r: Resource, c: Option<Change>, d: Option<Change>)
    requires KeysApart(t.scrub, BeforeSide(r).Visible()) && KeysApart(t.scrub, AfterSide(r).Visible())
    requires Possible(t, r, c) && Possible(t, r, d)
    ensures c == d
  {
    KeysApartAreCoherent(t.scrub, BeforeSide(r).Visible());
    KeysApartAreCoherent(t.scrub, AfterSide(r).Visible());
    CoherentRendersOnce(t, r, c, d);
  }

  /** A resource whose value is keyed by two tokens, nothing masked. */
  const TOKEN_RESOURCE: Resource := NO_RESOURCE.(after := TWO_TOKENS, afterSensitive := CLEAR, beforeSensitive := CLEAR)

  /**
   Such a resource has two renderings: each shows one member and drops the other,
   and neither lists anything as omitted.
   */
  lemma TwoRenderings(t: Tools, one: Text, two: Text, none: Text)
    requires t.scrub == TokenScrub && one != two && OMITTED !in {one, two, none}
    requires |one| <= VALUE_BYTES && |two| <= VALUE_BYTES && |none| <= VALUE_BYTES
    requires t.encode(Null) == Some(none)
    requires t.encode(Obj(map[REDACTED.text := Str([49])])) == Some(one)
    requires t.encode(Obj(map[REDACTED.text := Str([50])])) == Some(two)
    ensures
      var c, d := Change(t.scrub([]), None, none, one, []), Change(t.scrub([]), None, none, two, []);
      c != d && Possible(t, TOKEN_RESOURCE, Some(c)) && Possible(t, TOKEN_RESOURCE, Some(d))
  {
    hide Ascii, Shown, IsToken, Scrubbed, Scrubbing;
    var r := TOKEN_RESOURCE;
    OrderDecides();
    ClearIsIdentity(TWO_TOKENS);
    ClearIsIdentity(Null);
    var first, second := Obj(map[REDACTED.text := Str([49])]), Obj(map[REDACTED.text := Str([50])]);
    assert Scrubbed(t.scrub, Null, Null) by { NullScrubs(t.scrub); }
    assert BeforeSide(r).Renders(t, Some(none)) by { assert t.Print(Null) == Some(none); }
    assert AfterSide(r).Renders(t, Some(one)) by { assert t.Print(first) == Some(one); }
    assert AfterSide(r).Renders(t, Some(two)) by { assert t.Print(second) == Some(two); }
    NothingLacks(r, SHOWN_FIELDS, none, one);
    NothingLacks(r, SHOWN_FIELDS, none, two);
  }

  lemma NullScrubs(scrub: Scrub)
    ensures Scrubbed(scrub, Null, Null)
  {
  }

  lemma {:induction false} NothingLacks(r: Resource, fields: seq<Field>, before: Text, after: Text)
    requires r.omitted == {} && before != OMITTED && after != OMITTED
    ensures Lacking(r, fields, before, after) == []
  {
    hide Ascii;
    if fields != [] {
      NothingLacks(r, fields[..|fields| - 1], before, after);
    }
  }

  // ----- what is listed -----

  /**
   Each side of a change is at most 64 KiB or the placeholder, and the listed
   fields are exactly those a reader has to know are incomplete.
   */
  lemma OmissionsAreListed(t: Tools, r: Resource, c: Change)
    requires Possible(t, r, Some(c))
    ensures
      && |c.before| <= VALUE_BYTES && |c.after| <= VALUE_BYTES
      && (Before in c.omittedFields <==> c.before == OMITTED)
      && (After in c.omittedFields <==> c.after == OMITTED)
      && (Address in c.omittedFields <==> Address in r.omitted)
      && (Actions in c.omittedFields <==> Actions in r.omitted)
      && (c.omittedFields == [] ==> r.omitted == {})
  {
    hide Scrubbed, Shown;
    assert |OMITTED| <= VALUE_BYTES;
    assert Address in SHOWN_FIELDS && Actions in SHOWN_FIELDS && Before in SHOWN_FIELDS && After in SHOWN_FIELDS by {
      assert SHOWN_FIELDS[0] == Address && SHOWN_FIELDS[1] == Actions && SHOWN_FIELDS[2] == Before && SHOWN_FIELDS[3] == After;
    }
    if c.omittedFields == [] {
      forall f ensures f !in r.omitted {
        match f {
          case BeforeSensitive => assert f in r.omitted ==> c.before == OMITTED;
          case AfterSensitive => assert f in r.omitted ==> c.after == OMITTED;
          case AfterUnknown => assert f in r.omitted ==> c.after == OMITTED;
          case _ =>
        }
      }
    }
  }

  // ----- previews of whole plans -----

  /** The preview renders with these tools, each time as it may come out. */
  ghost predicate RendersWith(env: Env, t: Tools) {
    env.render.Some? && forall n, r :: Possible(t, r, env.render.value(n, r))
  }

  /** Every change shown for a plan is a possible rendering of one of its resources. */
  lemma ShownChangesArePossible(env: Env, t: Tools, d: G.Document, c: Change)
    requires RendersWith(env, t) && d.WF() && PreviewResponse(env, d.Bytes()).Some?
    requires c in PreviewResponse(env, d.Bytes()).value.resources
    ensures exists v, r :: v in Resources(env, d.v) && ResourceOf(env, v) == Some(r) && Possible(t, r, Some(c))
  {
    hide PreviewResponse, Resources, ResourceOf, Possible;
    PreviewConserved(env, d);
    var v := Origin(env, Resources(env, d.v), PreviewResponse(env, d.Bytes()).value.resources, c);
    var n :| env.render.value(n, ResourceOf(env, v).value) == Some(c);
    assert Possible(t, ResourceOf(env, v).value, env.render.value(n, ResourceOf(env, v).value));
  }

  lemma {:induction false} Origin(env: Env, vs: seq<G.Value>, cs: seq<Change>, c: Change) returns (v: G.Value)
    requires env.render.Some? && InOrder(env, vs, cs) && c in cs
    ensures v in vs && PlanMeaning.Renders(env, v, c)
    decreases |vs|
  {
    var rest, last := vs[..|vs| - 1], vs[|vs| - 1];
    if cs[|cs| - 1] == c && PlanMeaning.Renders(env, last, c) {
      v := last;
    } else if InOrder(env, rest, cs) {
      v := Origin(env, rest, cs, c);
    } else {
      v := Origin(env, rest, cs[..|cs| - 1], c);
    }
  }
}
