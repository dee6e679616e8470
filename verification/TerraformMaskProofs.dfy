/** What a rendered value can reveal: exactly the data its masks leave clear. */
module TerraformMaskProofs {
  import opened Common
  import opened JsonValue
  import opened TerraformMask

  // ----- what a viewer may learn -----

  /** An object that this mask shows member by member. */
  predicate Open(v: Json, mask: Json) {
    v.Obj? && mask.Obj? && forall key :: key in Fields(v).Keys ==> !HiddenKey(mask, key)
  }

  predicate Matched(v: Json, mask: Json) {
    v.Arr? && mask.Arr? && |Items(v)| == |Items(mask)|
  }

  /**
   Two values that differ only where the mask hides them: equal where it is
   clear, and under a full mask only nil or not nil is left to see.
   */
  ghost predicate LowEqual(a: Json, b: Json, mask: Json)
    decreases if IsContainer(mask) then 1 else 0, mask
  {
    match mask
    case Null => a.Null? == b.Null?
    case Bool(full) => if full then a.Null? == b.Null? else a == b
    case Obj(_) =>
      && Open(a, mask) == Open(b, mask)
      && (Open(a, mask) ==>
            Fields(a).Keys == Fields(b).Keys
            && forall key :: key in Fields(a) ==>
                 LowEqual(FieldOr(a, key, Null), FieldOr(b, key, Null), FieldOr(mask, key, CLEAR)))
    case Arr(_) =>
      && Matched(a, mask) == Matched(b, mask)
      && (Matched(a, mask) ==> forall k :: 0 <= k < |Items(a)| ==>
            LowEqual(ItemOr(a, k, Null), ItemOr(b, k, Null), ItemOr(mask, k, CLEAR)))
    case _ => true
  }

  // ----- one step of the renderer, by mask -----

  predicate Splits(v: Json, sensitive: Json, unknown: Json) {
    && v.Obj? && (sensitive.Obj? || sensitive == CLEAR) && unknown != SET
    && !ObjectOpaque(v, sensitive, unknown)
  }

  lemma ShownFields(v: Json, sensitive: Json, unknown: Json)
    requires Splits(v, sensitive, unknown)
    ensures var r := Shown(v, sensitive, unknown);
      && r.Obj? && Fields(r).Keys == Fields(v).Keys + Fields(unknown).Keys
      && forall key :: key in Fields(r) ==>
           Fields(r)[key] == Shown(FieldOr(v, key, Null), FieldOr(sensitive, key, CLEAR), FieldOr(unknown, key, Null))
  {
  }

  predicate Lines(v: Json, sensitive: Json, unknown: Json) {
    && v.Arr? && (sensitive.Arr? || sensitive == CLEAR) && unknown != SET
    && !ArrayOpaque(v, sensitive, unknown)
  }

  lemma ShownItems(v: Json, sensitive: Json, unknown: Json)
    requires Lines(v, sensitive, unknown)
    ensures var r := Shown(v, sensitive, unknown);
      && r.Arr? && |Items(r)| == |Items(v)|
      && forall k :: 0 <= k < |Items(v)| ==>
           Items(r)[k] == Shown(Items(v)[k], ItemOr(sensitive, k, CLEAR), ItemOr(unknown, k, Null))
  {
  }

  /** What is neither split nor listed is shown whole: nil, a marker, or a clear scalar. */
  lemma ShownWhole(v: Json, sensitive: Json, unknown: Json)
    requires !Splits(v, sensitive, unknown) && !Lines(v, sensitive, unknown)
    ensures Shown(v, sensitive, unknown) ==
      if sensitive.Null? || sensitive == SET then if v.Null? && unknown.Null? then Null else REDACTED
      else if unknown == SET then UNKNOWN
      else if IsContainer(v) || sensitive != CLEAR || !Plain(unknown) then REDACTED
      else v
  {
  }

  lemma SameFields(a: Json, b: Json)
    requires a.Obj? && b.Obj? && Fields(a).Keys == Fields(b).Keys
    requires forall key :: key in Fields(a) ==> Fields(a)[key] == Fields(b)[key]
    ensures a == b
  {
    assert a.fields == b.fields;
  }

  lemma SameItems(a: Json, b: Json)
    requires a.Arr? && b.Arr? && |Items(a)| == |Items(b)|
    requires forall k :: 0 <= k < |Items(a)| ==> Items(a)[k] == Items(b)[k]
    ensures a == b
  {
    assert a.items == b.items;
  }

  // ----- noninterference, in both directions -----

  /** Values that differ only where they are hidden are shown alike, whatever is still unknown. */
  lemma {:induction false} Noninterference(a: Json, b: Json, mask: Json, unknown: Json)
    requires LowEqual(a, b, mask)
    ensures Shown(a, mask, unknown) == Shown(b, mask, unknown)
    decreases if IsContainer(a) then 1 else 0, a
  {
    hide Shown, ObjectOpaque, ArrayOpaque;
    if mask.Obj? && Splits(a, mask, unknown) {
      SplitsAlike(a, b, mask, unknown);
      ShownFields(a, mask, unknown);
      ShownFields(b, mask, unknown);
      forall key | key in Fields(Shown(a, mask, unknown))
        ensures Fields(Shown(a, mask, unknown))[key] == Fields(Shown(b, mask, unknown))[key]
      {
        if key in Fields(a) {
          Noninterference(FieldOr(a, key, Null), FieldOr(b, key, Null), FieldOr(mask, key, CLEAR), FieldOr(unknown, key, Null));
        }
      }
      SameFields(Shown(a, mask, unknown), Shown(b, mask, unknown));
    } else if mask.Arr? && Lines(a, mask, unknown) {
      LinesAlike(a, b, mask, unknown);
      ShownItems(a, mask, unknown);
      ShownItems(b, mask, unknown);
      forall k: nat | k < |Items(a)|
        ensures Items(Shown(a, mask, unknown))[k] == Items(Shown(b, mask, unknown))[k]
      {
        Noninterference(ItemOr(a, k, Null), ItemOr(b, k, Null), ItemOr(mask, k, CLEAR), ItemOr(unknown, k, Null));
      }
      SameItems(Shown(a, mask, unknown), Shown(b, mask, unknown));
    } else if a != b {
      SplitsAlike(a, b, mask, unknown);
      LinesAlike(a, b, mask, unknown);
      ShownWhole(a, mask, unknown);
      ShownWhole(b, mask, unknown);
    }
  }

  lemma SplitsAlike(a: Json, b: Json, mask: Json, unknown: Json)
    requires LowEqual(a, b, mask)
    ensures Splits(a, mask, unknown) == Splits(b, mask, unknown)
    ensures mask.Obj? && Splits(a, mask, unknown) ==> Open(a, mask) && Open(b, mask)
  {
    if mask.Obj? && a.Obj? && b.Obj? && Open(a, mask) {
      assert ObjectOpaque(a, mask, unknown) == ObjectOpaque(b, mask, unknown);
    } else if mask.Obj? {
      NotOpen(a, mask, unknown);
      NotOpen(b, mask, unknown);
    }
  }

  lemma NotOpen(v: Json, mask: Json, unknown: Json)
    requires mask.Obj?
    ensures Splits(v, mask, unknown) ==> Open(v, mask)
  {
  }

  lemma LinesAlike(a: Json, b: Json, mask: Json, unknown: Json)
    requires LowEqual(a, b, mask)
    ensures Lines(a, mask, unknown) == Lines(b, mask, unknown)
    ensures mask.Arr? && Lines(a, mask, unknown) ==> Matched(a, mask) && Matched(b, mask)
  {
  }

  /** A clear mask changes nothing. */
  lemma {:induction false} ClearIsIdentity(v: Json)
    ensures Shown(v, CLEAR, Null) == v
    decreases if IsContainer(v) then 1 else 0, v
  {
    hide Shown;
    match v {
      case Obj(_) =>
        ShownFields(v, CLEAR, Null);
        forall key | key in Fields(v) ensures Fields(Shown(v, CLEAR, Null))[key] == Fields(v)[key] {
          ClearIsIdentity(FieldOr(v, key, Null));
        }
        SameFields(Shown(v, CLEAR, Null), v);
      case Arr(_) =>
        ShownItems(v, CLEAR, Null);
        forall k: nat | k < |Items(v)| ensures Items(Shown(v, CLEAR, Null))[k] == Items(v)[k] {
          ClearIsIdentity(ItemOr(v, k, Null));
        }
        SameItems(Shown(v, CLEAR, Null), v);
      case _ =>
        ShownWhole(v, CLEAR, Null);
    }
  }

  /** Conversely, what is shown tells values apart that differ anywhere else. */
  lemma {:induction false} Revealed(a: Json, b: Json, mask: Json)
    requires Shown(a, mask, Null) == Shown(b, mask, Null)
    ensures LowEqual(a, b, mask)
    decreases if IsContainer(mask) then 1 else 0, mask
  {
    hide Shown, ObjectOpaque, ArrayOpaque;
    match mask {
      case Obj(_) =>
        OpenSplits(a, mask);
        OpenSplits(b, mask);
        if Open(a, mask) {
          ShownFields(a, mask, Null);
          ShownFields(b, mask, Null);
          forall key | key in Fields(a)
            ensures LowEqual(FieldOr(a, key, Null), FieldOr(b, key, Null), FieldOr(mask, key, CLEAR))
          {
            Revealed(FieldOr(a, key, Null), FieldOr(b, key, Null), FieldOr(mask, key, CLEAR));
          }
        }
      case Arr(_) =>
        MatchedLines(a, mask);
        MatchedLines(b, mask);
        if Matched(a, mask) {
          ShownItems(a, mask, Null);
          ShownItems(b, mask, Null);
          forall k: nat | k < |Items(a)|
            ensures LowEqual(ItemOr(a, k, Null), ItemOr(b, k, Null), ItemOr(mask, k, CLEAR))
          {
            Revealed(ItemOr(a, k, Null), ItemOr(b, k, Null), ItemOr(mask, k, CLEAR));
          }
        }
      case Bool(full) =>
        if full {
          ShownWhole(a, mask, Null);
          ShownWhole(b, mask, Null);
        } else {
          ClearIsIdentity(a);
          ClearIsIdentity(b);
        }
      case _ =>
        ShownWhole(a, mask, Null);
        ShownWhole(b, mask, Null);
    }
  }

  /** Under an object mask only open objects are shown as objects. */
  lemma OpenSplits(v: Json, mask: Json)
    requires mask.Obj?
    ensures Splits(v, mask, Null) == Open(v, mask)
    ensures Open(v, mask) <==> Shown(v, mask, Null).Obj?
  {
    hide Shown;
    if Splits(v, mask, Null) {
      ShownFields(v, mask, Null);
    } else {
      ShownWhole(v, mask, Null);
    }
  }

  lemma MatchedLines(v: Json, mask: Json)
    requires mask.Arr?
    ensures Lines(v, mask, Null) == Matched(v, mask)
    ensures Matched(v, mask) <==> Shown(v, mask, Null).Arr?
  {
    hide Shown;
    if Lines(v, mask, Null) {
      ShownItems(v, mask, Null);
    } else {
      ShownWhole(v, mask, Null);
    }
  }

  /** No rendering, whatever is still unknown, tells the two values apart. */
  ghost predicate LookAlike(a: Json, b: Json, mask: Json) {
    forall unknown :: Shown(a, mask, unknown) == Shown(b, mask, unknown)
  }

  /** A viewer learns the unmasked data and nothing else: two values look alike exactly when they agree on it. */
  lemma VisibleExactly(a: Json, b: Json, mask: Json)
    ensures LowEqual(a, b, mask) <==> LookAlike(a, b, mask)
  {
    hide Shown, LowEqual;
    if LowEqual(a, b, mask) {
      forall unknown ensures Shown(a, mask, unknown) == Shown(b, mask, unknown) {
        Noninterference(a, b, mask, unknown);
      }
    }
    if LookAlike(a, b, mask) {
      Revealed(a, b, mask);
    }
  }

  // ----- where shown scalars come from -----

  datatype Selector = Key(name: Text) | Index(at: nat)

  function Select(v: Json, path: seq<Selector>): Option<Json>
    decreases |path|
  {
    if path == [] then Some(v)
    else
      match path[0]
      case Key(name) => if name in Fields(v) then Select(Fields(v)[name], path[1..]) else None
      case Index(at) => if at < |Items(v)| then Select(Items(v)[at], path[1..]) else None
  }

  /** The mask in force at a path: members a mask does not name are clear. */
  function MaskAt(mask: Json, path: seq<Selector>): Json
    decreases |path|
  {
    if path == [] then mask
    else
      match path[0]
      case Key(name) => MaskAt(FieldOr(mask, name, CLEAR), path[1..])
      case Index(at) => MaskAt(ItemOr(mask, at, CLEAR), path[1..])
  }

  /** Every scalar shown is nil, a marker, or the scalar at the same path, whose mask is clear. */
  lemma {:induction false} ScalarsAreClear(v: Json, sensitive: Json, unknown: Json, path: seq<Selector>)
    requires
      var x := Select(Shown(v, sensitive, unknown), path);
      x.Some? && !IsContainer(x.value) && x.value !in {Null, REDACTED, UNKNOWN}
    ensures Select(v, path) == Select(Shown(v, sensitive, unknown), path)
    ensures MaskAt(sensitive, path) == CLEAR
    decreases |path|
  {
    hide Shown, ObjectOpaque, ArrayOpaque;
    if Splits(v, sensitive, unknown) {
      ShownFields(v, sensitive, unknown);
      var name := path[0].name;
      ScalarsAreClear(FieldOr(v, name, Null), FieldOr(sensitive, name, CLEAR), FieldOr(unknown, name, Null), path[1..]);
      if name !in Fields(v) {
        NullShown(FieldOr(sensitive, name, CLEAR), FieldOr(unknown, name, Null), path[1..]);
      }
    } else if Lines(v, sensitive, unknown) {
      ShownItems(v, sensitive, unknown);
      var at := path[0].at;
      ScalarsAreClear(ItemOr(v, at, Null), ItemOr(sensitive, at, CLEAR), ItemOr(unknown, at, Null), path[1..]);
    } else {
      ShownWhole(v, sensitive, unknown);
    }
  }

  lemma NullShown(sensitive: Json, unknown: Json, path: seq<Selector>)
    requires Select(Shown(Null, sensitive, unknown), path).Some?
    ensures Select(Shown(Null, sensitive, unknown), path).value in {Null, REDACTED, UNKNOWN}
  {
    ShownWhole(Null, sensitive, unknown);
  }

  // ----- where markers are -----

  /** What is still unknown at a path: members an unknown tree does not name are known. */
  function UnknownAt(unknown: Json, path: seq<Selector>): Json
    decreases |path|
  {
    if path == [] then unknown
    else
      match path[0]
      case Key(name) => UnknownAt(FieldOr(unknown, name, Null), path[1..])
      case Index(at) => UnknownAt(ItemOr(unknown, at, Null), path[1..])
  }

  /** The value at a path, nil where there is none. */
  function ValueAt(v: Json, path: seq<Selector>): Json
    decreases |path|
  {
    if path == [] then v
    else
      match path[0]
      case Key(name) => ValueAt(FieldOr(v, name, Null), path[1..])
      case Index(at) => ValueAt(ItemOr(v, at, Null), path[1..])
  }

  /** The masks of an object are objects, or say nothing, and no member of it, known or not, has a null mask. */
  predicate KeysVisible(v: Json, mask: Json, pending: Json) {
    && (mask.Obj? || mask == CLEAR) && (pending.Obj? || pending.Null? || pending == CLEAR)
    && forall key :: key in Fields(v).Keys + Fields(pending).Keys ==>
         !(mask.Obj? && key in mask.fields && mask.fields[key].Null?)
  }

  /** The masks of an array are arrays as long as it is, or say nothing. */
  predicate LengthsMatch(v: Json, mask: Json, pending: Json) {
    && (mask == CLEAR || (mask.Arr? && |mask.items| == |Items(v)|))
    && (pending.Null? || pending == CLEAR || (pending.Arr? && |pending.items| == |Items(v)|))
  }

  /**
   At every path that is shown at all: a full mask leaves a marker, or nil for
   nil; otherwise what is unknown is marked so; a container is shown with all
   its members exactly when its masks fit it; a scalar exactly when its mask is
   clear; and all else is redacted.
   */
  lemma {:induction false} MarkersExactly(v: Json, sensitive: Json, unknown: Json, path: seq<Selector>)
    requires Select(Shown(v, sensitive, unknown), path).Some?
    ensures
      var x := Select(Shown(v, sensitive, unknown), path).value;
      var value, mask, pending := ValueAt(v, path), MaskAt(sensitive, path), UnknownAt(unknown, path);
      if mask.Null? || mask == SET then x == (if value.Null? && pending.Null? then Null else REDACTED)
      else if pending == SET then x == UNKNOWN
      else if value.Obj? then
        if KeysVisible(value, mask, pending) then x.Obj? && x.fields.Keys == Fields(value).Keys + Fields(pending).Keys
        else x == REDACTED
      else if value.Arr? then
        if LengthsMatch(value, mask, pending) then x.Arr? && |x.items| == |value.items| else x == REDACTED
      else if mask == CLEAR && (pending.Null? || pending == CLEAR) then x == value
      else x == REDACTED
    decreases |path|
  {
    hide Shown, ObjectOpaque, ArrayOpaque;
    if path == [] {
      ShownIs(v, sensitive, unknown);
    } else if Splits(v, sensitive, unknown) {
      ShownFields(v, sensitive, unknown);
      var name := path[0].name;
      MarkersExactly(FieldOr(v, name, Null), FieldOr(sensitive, name, CLEAR), FieldOr(unknown, name, Null), path[1..]);
    } else if Lines(v, sensitive, unknown) {
      ShownItems(v, sensitive, unknown);
      var at := path[0].at;
      MarkersExactly(ItemOr(v, at, Null), ItemOr(sensitive, at, CLEAR), ItemOr(unknown, at, Null), path[1..]);
    } else {
      ShownWhole(v, sensitive, unknown);
    }
  }

  lemma ShownIs(v: Json, sensitive: Json, unknown: Json)
    ensures
      var x := Shown(v, sensitive, unknown);
      if sensitive.Null? || sensitive == SET then x == (if v.Null? && unknown.Null? then Null else REDACTED)
      else if unknown == SET then x == UNKNOWN
      else if v.Obj? then
        if KeysVisible(v, sensitive, unknown) then x.Obj? && x.fields.Keys == Fields(v).Keys + Fields(unknown).Keys
        else x == REDACTED
      else if v.Arr? then
        if LengthsMatch(v, sensitive, unknown) then x.Arr? && |x.items| == |v.items| else x == REDACTED
      else if sensitive == CLEAR && (unknown.Null? || unknown == CLEAR) then x == v
      else x == REDACTED
  {
    hide Shown;
    if Splits(v, sensitive, unknown) {
      ShownFields(v, sensitive, unknown);
    } else if Lines(v, sensitive, unknown) {
      ShownItems(v, sensitive, unknown);
    } else {
      ShownWhole(v, sensitive, unknown);
    }
  }
}
