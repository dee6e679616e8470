/** What a preview reads of a resource: the last member of each name, in whole or not at all. */
module PlanFields {
  import opened Common
  import opened JsonValue
  import opened PlanReview
  import opened PlanTree
  import opened PlanMeaning
  import G = JsonGrammar

  const VALUE_NAMES := {Ascii("before"), Ascii("after"), Ascii("before_sensitive"), Ascii("after_sensitive"), Ascii("after_unknown")}

  /** A value as kept, and whether it was left out for its size. */
  type Kept = (Json, bool)

  /** Where a resource keeps the value of this name. */
  function FieldOf(r: Resource, name: Text): Kept {
    if name == Ascii("before") then (r.before, Before in r.omitted)
    else if name == Ascii("after") then (r.after, After in r.omitted)
    else if name == Ascii("before_sensitive") then (r.beforeSensitive, BeforeSensitive in r.omitted)
    else if name == Ascii("after_sensitive") then (r.afterSensitive, AfterSensitive in r.omitted)
    else (r.afterUnknown, AfterUnknown in r.omitted)
  }

  /** A value of more than 64 KiB or 64 levels is left out. */
  function KeptOf(env: Env, v: G.Value): Kept {
    if |G.Render(v)| > 65536 || G.Height(v) > 64 then (Null, true)
    else (env.decode(G.Render(v)).GetOr(Null), false)
  }

  function LastInChange(env: Env, ms: seq<Named>, name: Text, before: Kept): Kept
    decreases |ms|
  {
    if ms == [] then before
    else LastInChange(env, ms[1..], name, if Folded(ms[0].0) == name then KeptOf(env, ms[0].1) else before)
  }

  function LastInEntry(env: Env, ms: seq<Named>, name: Text, before: Kept): Kept
    decreases |ms|
  {
    if ms == [] then before
    else
      var now := if Folded(ms[0].0) == Ascii("change") then LastInChange(env, Members(env, ms[0].1), name, before) else before;
      LastInEntry(env, ms[1..], name, now)
  }

  /** A text of more than 4 KiB is replaced; null leaves the address alone. */
  function AddressIn(env: Env, v: G.Value, before: Kept): Kept {
    if v.NullLiteral? then before
    else if |G.Render(v)| > 4096 then (Str(OMITTED), true)
    else (Str(env.decodeText(G.Render(v)).GetOr([])), false)
  }

  function LastAddress(env: Env, ms: seq<Named>, before: Kept): Kept
    decreases |ms|
  {
    if ms == [] then before
    else LastAddress(env, ms[1..], if Folded(ms[0].0) == Ascii("address") then AddressIn(env, ms[0].1, before) else before)
  }

  function AddressOf(r: Resource): Kept {
    (Str(r.address), Address in r.omitted)
  }

  /** The actions listed, if the last list is no null, and whether more than 16 were given. */
  type Listing = (Option<seq<Text>>, bool)

  function ListingIn(env: Env, v: G.Value): Listing {
    var texts := ActionTexts(env, v);
    (if v.NullLiteral? then None else Some(if |texts| > 16 then texts[..16] else texts), |texts| > 16)
  }

  function LastListing(env: Env, ms: seq<Named>, before: Listing): Listing
    decreases |ms|
  {
    if ms == [] then before
    else LastListing(env, ms[1..], if Folded(ms[0].0) == Ascii("actions") then ListingIn(env, ms[0].1) else before)
  }

  function LastListingInEntry(env: Env, ms: seq<Named>, before: Listing): Listing
    decreases |ms|
  {
    if ms == [] then before
    else
      var now := if Folded(ms[0].0) == Ascii("change") then LastListing(env, Members(env, ms[0].1), before) else before;
      LastListingInEntry(env, ms[1..], now)
  }

  function ListingOf(r: Resource): Listing {
    (r.actions, Actions in r.omitted)
  }

  lemma NamesApart()
    ensures |Ascii("before")| == 6 && |Ascii("after")| == 5 && |Ascii("before_sensitive")| == 16
    ensures |Ascii("after_sensitive")| == 15 && |Ascii("after_unknown")| == 13
    ensures |Ascii("actions")| == 7 && |Ascii("address")| == 7 && |Ascii("change")| == 6
    ensures Ascii("change")[0] == 99 && Ascii("before")[0] == 98 && Ascii("actions")[1] == 99 && Ascii("address")[1] == 100
  {
  }

  function FieldName(field: Field): Text {
    match field
    case Before => Ascii("before")
    case After => Ascii("after")
    case BeforeSensitive => Ascii("before_sensitive")
    case AfterSensitive => Ascii("after_sensitive")
    case AfterUnknown => Ascii("after_unknown")
    case _ => []
  }

  lemma FieldsByName(key: Text)
    ensures ValueField(key).Some? ==>
      Folded(key) == FieldName(ValueField(key).value) && Folded(key) in VALUE_NAMES && !IsActions(key)
    ensures ValueField(key).None? ==> Folded(key) !in VALUE_NAMES
    ensures IsActions(key) <==> Folded(key) == Ascii("actions")
    ensures ValueField(key).Some? ==> ValueField(key).value !in {Address, Actions}
  {
    hide Ascii, Folded, FoldsTo, ValueField;
    NamesApart();
    NamesExactly(key);
  }

  lemma FieldSets(env: Env, v: G.Value, field: Field, r: Resource, name: Text)
    requires name in VALUE_NAMES && field !in {Address, Actions} && TreeField(env, v, field, r).Some?
    ensures
      var q := TreeField(env, v, field, r).value;
      && FieldOf(q, name) == (if FieldName(field) == name then KeptOf(env, v) else FieldOf(r, name))
      && AddressOf(q) == AddressOf(r) && ListingOf(q) == ListingOf(r)
  {
    hide Ascii, G.Render, G.Height;
    NamesApart();
  }

  /** One member of a change sets the field it names and leaves the others alone. */
  lemma MemberSets(env: Env, m: Named, r: Resource, name: Text)
    requires name in VALUE_NAMES && ReadChangeMember(env, m, r).Some?
    ensures
      var q := ReadChangeMember(env, m, r).value;
      && FieldOf(q, name) == (if Folded(m.0) == name then KeptOf(env, m.1) else FieldOf(r, name))
      && AddressOf(q) == AddressOf(r)
      && ListingOf(q) == (if Folded(m.0) == Ascii("actions") then ListingIn(env, m.1) else ListingOf(r))
  {
    hide Ascii, Folded, ActionTexts, IsActions, ValueField, TreeField, FieldName, KeptOf;
    FieldsByName(m.0);
    if IsActions(m.0) {
      ListingSets(env, m, r, name);
    } else if ValueField(m.0).Some? {
      FieldSets(env, m.1, ValueField(m.0).value, r, name);
    }
  }

  lemma ListingSets(env: Env, m: Named, r: Resource, name: Text)
    requires name in VALUE_NAMES && ActionsOK(m.1)
    ensures
      var q := WithActions(r, m.1, ActionTexts(env, m.1));
      FieldOf(q, name) == FieldOf(r, name) && AddressOf(q) == AddressOf(r) && ListingOf(q) == ListingIn(env, m.1)
    ensures Ascii("actions") !in VALUE_NAMES
  {
    hide Ascii, ActionTexts;
    NamesApart();
  }

  lemma {:induction false} ChangeKeepsLast(env: Env, ms: seq<Named>, r: Resource, name: Text)
    requires name in VALUE_NAMES && ReadChange(env, ms, r).Some?
    ensures
      var q := ReadChange(env, ms, r).value;
      && FieldOf(q, name) == LastInChange(env, ms, name, FieldOf(r, name))
      && AddressOf(q) == AddressOf(r)
      && ListingOf(q) == LastListing(env, ms, ListingOf(r))
    decreases |ms|
  {
    hide Ascii, Folded, KeptOf, ListingIn, FieldOf, ReadChangeMember, VALUE_NAMES;
    if ms != [] {
      MemberSets(env, ms[0], r, name);
      ChangeKeepsLast(env, ms[1..], ReadChangeMember(env, ms[0], r).value, name);
    }
  }

  lemma EntryMemberSets(env: Env, m: Named, r: Resource, name: Text)
    requires name in VALUE_NAMES && ReadEntryMember(env, m, r).Some?
    ensures
      var q := ReadEntryMember(env, m, r).value;
      var inChange := Folded(m.0) == Ascii("change");
      && FieldOf(q, name) == (if inChange then LastInChange(env, Members(env, m.1), name, FieldOf(r, name)) else FieldOf(r, name))
      && AddressOf(q) == (if Folded(m.0) == Ascii("address") then AddressIn(env, m.1, AddressOf(r)) else AddressOf(r))
      && ListingOf(q) == (if inChange then LastListing(env, Members(env, m.1), ListingOf(r)) else ListingOf(r))
  {
    hide Ascii, Folded, FoldsTo, ReadChange, LastInChange, LastListing, Members, G.Render, VALUE_NAMES;
    NamesApart();
    NamesExactly(m.0);
    if IsChange(m.0) {
      ChangeKeepsLast(env, Members(env, m.1), r, name);
    } else if IsAddress(m.0) && m.1.String? {
      StringsAreFlat(m.1);
    }
  }

  lemma StringsAreFlat(v: G.Value)
    requires v.String?
    ensures G.Height(v) == 0
  {
  }

  lemma {:induction false} EntryKeepsLast(env: Env, ms: seq<Named>, r: Resource, name: Text)
    requires name in VALUE_NAMES && ReadEntry(env, ms, r).Some?
    ensures
      var q := ReadEntry(env, ms, r).value;
      && FieldOf(q, name) == LastInEntry(env, ms, name, FieldOf(r, name))
      && AddressOf(q) == LastAddress(env, ms, AddressOf(r))
      && ListingOf(q) == LastListingInEntry(env, ms, ListingOf(r))
    decreases |ms|
  {
    hide Ascii, Folded, FieldOf, ReadEntryMember, LastInChange, LastListing, AddressIn, Members, VALUE_NAMES;
    if ms != [] {
      EntryMemberSets(env, ms[0], r, name);
      EntryKeepsLast(env, ms[1..], ReadEntryMember(env, ms[0], r).value, name);
    }
  }

  /**
   A resource read for the preview holds, under each of the five names, the
   value of the last member so named in any of its changes, left out beyond 64
   KiB or 64 levels; and likewise the last address and the last list of actions.
   */
  lemma ResourceKeepsLast(env: Env, v: G.Value, name: Text)
    requires name in VALUE_NAMES && ResourceOf(env, v).Some?
    ensures
      var q, ms := ResourceOf(env, v).value, Members(env, v);
      && FieldOf(q, name) == LastInEntry(env, ms, name, (Null, false))
      && AddressOf(q) == LastAddress(env, ms, (Str([]), false))
      && ListingOf(q) == LastListingInEntry(env, ms, (None, false))
  {
    hide Ascii, LastInEntry, LastAddress, LastListingInEntry, ReadEntry, Members, VALUE_NAMES;
    EntryKeepsLast(env, Members(env, v), NO_RESOURCE, name);
  }

  // ----- short names -----

  lemma {:induction false} KeptWhenShort(atoms: seq<G.Atom>, limit: nat, used: nat)
    ensures PlanTree.Kept(atoms, limit, used) == |atoms| <==> atoms == [] || used + |G.RenderAtoms(atoms)| <= limit
    decreases |atoms|
  {
    if atoms != [] {
      KeptWhenShort(atoms[1..], limit, used + |atoms[0].Render()|);
      if |atoms| == 1 { assert G.RenderAtoms(atoms[1..]) == []; }
    }
  }

  /** A member is visited under its own name exactly when that takes at most 257 bytes with its quotes, else under none. */
  lemma NameFits(env: Env, name: G.Name)
    ensures NameOf(env, Some(name)) ==
      if |G.RenderString(name.atoms)| <= 257 then env.unquote(G.RenderString(name.atoms)) else []
  {
    KeptWhenShort(name.atoms, NAME_BYTES, 1);
    if name.atoms == [] { assert G.RenderAtoms(name.atoms) == []; }
  }
}
