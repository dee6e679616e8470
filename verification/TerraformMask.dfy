/**
 The mask-driven renderer of a plan value: three JSON trees side by side, the
 value, what is sensitive and what is not known yet. Missing or malformed masks
 redact the whole subtree.
 */
module TerraformMask {
  import opened Common
  import opened JsonValue
  import opened PlanReview

  const REDACTED: Json := Str(Ascii("[REDACTED]"))
  const UNKNOWN: Json := Str(Ascii("(known after apply)"))
  const CLEAR: Json := Bool(false)
  const SET: Json := Bool(true)

  predicate IsContainer(v: Json) {
    v.Obj? || v.Arr?
  }

  /** A mask map that does not decide: absent and false both mean nothing below is marked. */
  predicate Plain(mask: Json) {
    mask.Null? || mask == CLEAR
  }

  function Fields(v: Json): map<Text, Json> {
    if v.Obj? then v.fields else map[]
  }

  function Items(v: Json): seq<Json> {
    if v.Arr? then v.items else []
  }

  function FieldOr(v: Json, key: Text, other: Json): (r: Json)
    ensures IsContainer(r) && !IsContainer(other) ==> r < v
  {
    if key in Fields(v) then Fields(v)[key] else other
  }

  function ItemOr(v: Json, k: nat, other: Json): (r: Json)
    ensures IsContainer(r) && !IsContainer(other) ==> r < v
  {
    if k < |Items(v)| then Items(v)[k] else other
  }

  predicate HiddenKey(sensitive: Json, key: Text) {
    key in Fields(sensitive) && Fields(sensitive)[key].Null?
  }

  /** The object cannot be shown member by member. */
  predicate ObjectOpaque(data: Json, sensitive: Json, unknown: Json) {
    || (!sensitive.Obj? && sensitive != CLEAR)
    || (!unknown.Obj? && !Plain(unknown))
    || exists key :: key in Fields(data).Keys + Fields(unknown).Keys && HiddenKey(sensitive, key)
  }

  predicate ArrayOpaque(data: Json, sensitive: Json, unknown: Json) {
    || (!sensitive.Arr? && sensitive != CLEAR)
    || (sensitive.Arr? && |Items(sensitive)| != |Items(data)|)
    || (!unknown.Arr? && !Plain(unknown))
    || (unknown.Arr? && |Items(unknown)| != |Items(data)|)
  }

  /** What is shown of a value. */
  function Shown(value: Json, sensitive: Json, unknown: Json): Json
    decreases if IsContainer(value) then 1 else 0, value
  {
    if sensitive.Null? || sensitive == SET then
      if value.Null? && unknown.Null? then Null else REDACTED
    else if unknown == SET then UNKNOWN
    else
      match value
      case Obj(_) =>
        if ObjectOpaque(value, sensitive, unknown) then REDACTED
        else Obj(map key | key in Fields(value).Keys + Fields(unknown).Keys ::
                   Shown(FieldOr(value, key, Null), FieldOr(sensitive, key, CLEAR), FieldOr(unknown, key, Null)))
      case Arr(items) =>
        if ArrayOpaque(value, sensitive, unknown) then REDACTED
        else Arr(seq(|items|, k requires 0 <= k < |items| =>
                   Shown(items[k], ItemOr(sensitive, k, CLEAR), ItemOr(unknown, k, Null))))
      case _ => if sensitive != CLEAR || !Plain(unknown) then REDACTED else value
  }

  // ----- the renderer as it runs -----

  method TerraformValue(value: Json, sensitive: Json, unknown: Json) returns (r: Json)
    ensures r == Shown(value, sensitive, unknown)
    decreases if IsContainer(value) then 1 else 0, value, 1
  {
    if sensitive.Null? || sensitive == SET {
      return if value.Null? && unknown.Null? then Null else REDACTED;
    }
    if unknown == SET {
      return UNKNOWN;
    }
    match value {
      case Obj(_) =>
        r := TerraformObject(value, sensitive, unknown);
      case Arr(_) =>
        r := TerraformArray(value, sensitive, unknown);
      case _ =>
        if sensitive != CLEAR || (!unknown.Null? && unknown != CLEAR) {
          r := REDACTED;
        } else {
          r := value;
        }
    }
  }

  /** One member of an object, as it is shown. */
  function Member(value: Json, sensitive: Json, unknown: Json, key: Text): Json {
    Shown(FieldOr(value, key, Null), FieldOr(sensitive, key, CLEAR), FieldOr(unknown, key, Null))
  }

  lemma ShownObject(value: Json, sensitive: Json, unknown: Json, result: map<Text, Json>)
    requires value.Obj? && !sensitive.Null? && sensitive != SET && unknown != SET
    requires !ObjectOpaque(value, sensitive, unknown)
    requires result.Keys == Fields(value).Keys + Fields(unknown).Keys
    requires forall key :: key in result ==> result[key] == Member(value, sensitive, unknown, key)
    ensures Shown(value, sensitive, unknown) == Obj(result)
  {
    assert result == map key | key in Fields(value).Keys + Fields(unknown).Keys ::
      Shown(FieldOr(value, key, Null), FieldOr(sensitive, key, CLEAR), FieldOr(unknown, key, Null));
  }

  lemma OpaqueObject(value: Json, sensitive: Json, unknown: Json)
    requires value.Obj? && !sensitive.Null? && sensitive != SET && unknown != SET
    requires ObjectOpaque(value, sensitive, unknown)
    ensures Shown(value, sensitive, unknown) == REDACTED
  {
  }

  lemma OpaqueWhen(value: Json, sensitive: Json, unknown: Json)
    ensures ObjectOpaque(value, sensitive, unknown)
      <==> (!sensitive.Obj? && sensitive != CLEAR) || (!unknown.Obj? && !Plain(unknown))
           || exists key :: key in Fields(value).Keys + Fields(unknown).Keys && HiddenKey(sensitive, key)
  {
  }

  /** The members are visited in any order. */
  method TerraformObject(value: Json, sensitive: Json, unknown: Json) returns (r: Json)
    requires value.Obj? && !sensitive.Null? && sensitive != SET && unknown != SET
    ensures r == Shown(value, sensitive, unknown)
    decreases 1, value, 0
  {
    hide Shown, ObjectOpaque;
    if ObjectOpaque(value, sensitive, unknown) {
      OpaqueObject(value, sensitive, unknown);
    }
    OpaqueWhen(value, sensitive, unknown);
    if !sensitive.Obj? && sensitive != CLEAR {
      return REDACTED;
    }
    if !unknown.Null? && unknown != CLEAR && !unknown.Obj? {
      return REDACTED;
    }
    var masks, unknowns := Fields(sensitive), Fields(unknown);
    var result := (map key | key in unknowns :: Null) + value.fields;
    var todo := result.Keys;
    while todo != {}
      invariant todo <= result.Keys == value.fields.Keys + unknowns.Keys
      invariant forall key :: key in todo ==> result[key] == FieldOr(value, key, Null)
      invariant forall key :: key in result && key !in todo ==> !HiddenKey(sensitive, key)
      invariant forall key :: key in result && key !in todo ==> result[key] == Member(value, sensitive, unknown, key)
    {
      var key :| key in todo;
      if key in masks && masks[key] == Null {
        assert HiddenKey(sensitive, key) && key in Fields(value).Keys + Fields(unknown).Keys;
        return REDACTED;
      }
      var mask := if key in masks then masks[key] else CLEAR;
      var item := TerraformValue(result[key], mask, if key in unknowns then unknowns[key] else Null);
      result := result[key := item];
      todo := todo - {key};
    }
    ShownObject(value, sensitive, unknown, result);
    r := Obj(result);
  }

  method TerraformArray(value: Json, sensitive: Json, unknown: Json) returns (r: Json)
    requires value.Arr? && !sensitive.Null? && sensitive != SET && unknown != SET
    ensures r == Shown(value, sensitive, unknown)
    decreases 1, value, 0
  {
    if !sensitive.Arr? && sensitive != CLEAR {
      return REDACTED;
    }
    if sensitive.Arr? && |sensitive.items| != |value.items| {
      return REDACTED;
    }
    if !unknown.Null? && unknown != CLEAR && !unknown.Arr? {
      return REDACTED;
    }
    if unknown.Arr? && |unknown.items| != |value.items| {
      return REDACTED;
    }
    var masks, unknowns := Items(sensitive), Items(unknown);
    var result := [];
    for index := 0 to |value.items|
      invariant |result| == index
      invariant forall k :: 0 <= k < index ==>
        result[k] == Shown(value.items[k], ItemOr(sensitive, k, CLEAR), ItemOr(unknown, k, Null))
    {
      var mask, pending := CLEAR, Null;
      if index < |masks| {
        mask := masks[index];
      }
      if index < |unknowns| {
        pending := unknowns[index];
      }
      var item := TerraformValue(value.items[index], mask, pending);
      result := result + [item];
    }
    r := Arr(result);
  }
}
