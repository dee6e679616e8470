/**
 Scrubbing secrets out of a rendered tree. Members of an object are visited in
 no fixed order and stored under their scrubbed keys, so when two keys scrub to
 the same text the last one visited stays. What can come out is a relation.
 */
module TerraformScrub {
  import opened Common
  import opened JsonValue
  import opened PlanReview
  import opened TerraformMask

  type Scrub = Text -> Text

  function ScrubNumber(scrub: Scrub, digits: Text): Json {
    if scrub(digits) != digits then REDACTED else Numeral(digits)
  }

  /** `r` can come out of scrubbing `v`: under each scrubbed key, what some member of that key becomes. */
  ghost predicate Scrubbed(scrub: Scrub, v: Json, r: Json)
    decreases v
  {
    match v
    case Str(text) => r == Str(scrub(text))
    case Numeral(digits) => r == ScrubNumber(scrub, digits)
    case Obj(fields) =>
      && r.Obj?
      && (forall key :: key in fields ==> scrub(key) in r.fields)
      && (forall out :: out in r.fields ==>
            exists key :: key in fields && scrub(key) == out && Scrubbed(scrub, fields[key], r.fields[out]))
    case Arr(items) =>
      && r.Arr? && |r.items| == |items|
      && forall k :: 0 <= k < |items| ==> Scrubbed(scrub, items[k], r.items[k])
    case _ => r == v
  }

  // ----- the walk as it runs -----

  method ScrubValue(scrub: Scrub, v: Json) returns (r: Json)
    ensures Scrubbed(scrub, v, r)
    decreases v
  {
    match v {
      case Str(text) => return Str(scrub(text));
      case Numeral(digits) => return ScrubNumber(scrub, digits);
      case Obj(fields) =>
        var result: map<Text, Json> := map[];
        var todo := fields.Keys;
        while todo != {}
          invariant todo <= fields.Keys
          invariant forall key :: key in fields.Keys - todo ==> scrub(key) in result
          invariant forall out :: out in result ==>
            exists key :: key in fields && scrub(key) == out && Scrubbed(scrub, fields[key], result[out])
        {
          var key :| key in todo;
          var item := ScrubValue(scrub, fields[key]);
          result := result[scrub(key) := item];
          todo := todo - {key};
        }
        r := Obj(result);
      case Arr(items) =>
        var data := items;
        for index := 0 to |items|
          invariant |data| == |items|
          invariant forall k :: 0 <= k < index ==> Scrubbed(scrub, items[k], data[k])
          invariant forall k :: index <= k < |items| ==> data[k] == items[k]
        {
          var item := ScrubValue(scrub, data[index]);
          data := data[index := item];
        }
        r := Arr(data);
      case _ => return v;
    }
  }

  // ----- every outcome of the relation is the outcome of some order -----

  /** The members of an object stored one after the other. */
  function Overlay(scrub: Scrub, order: seq<Text>, outs: map<Text, Json>): map<Text, Json>
    requires forall k :: 0 <= k < |order| ==> order[k] in outs
  {
    if order == [] then map[]
    else
      var last := order[|order| - 1];
      Overlay(scrub, order[..|order| - 1], outs)[scrub(last) := outs[last]]
  }

  /** `r` comes out when every object is walked in some order of its keys. */
  ghost predicate Walks(scrub: Scrub, v: Json, r: Json)
    decreases v
  {
    match v
    case Str(text) => r == Str(scrub(text))
    case Numeral(digits) => r == ScrubNumber(scrub, digits)
    case Obj(fields) =>
      exists order, outs: map<Text, Json> ::
        && Orders(order, fields.Keys) && outs.Keys == fields.Keys
        && (forall key :: key in fields ==> Walks(scrub, fields[key], outs[key]))
        && r == Obj(Overlay(scrub, order, outs))
    case Arr(items) =>
      && r.Arr? && |r.items| == |items|
      && forall k :: 0 <= k < |items| ==> Walks(scrub, items[k], r.items[k])
    case _ => r == v
  }

  /** Each key once. */
  predicate Orders(order: seq<Text>, keys: set<Text>) {
    && (forall k :: 0 <= k < |order| ==> order[k] in keys)
    && (forall key :: key in keys ==> key in order)
    && (forall j, k :: 0 <= j < k < |order| ==> order[j] != order[k])
  }

  /** Under a scrubbed key stays the last member stored there. */
  lemma {:induction false} LastStays(scrub: Scrub, order: seq<Text>, outs: map<Text, Json>, i: nat)
    requires forall k :: 0 <= k < |order| ==> order[k] in outs
    requires i < |order| && forall k :: i < k < |order| ==> scrub(order[k]) != scrub(order[i])
    ensures var m := Overlay(scrub, order, outs); scrub(order[i]) in m && m[scrub(order[i])] == outs[order[i]]
  {
    if i < |order| - 1 {
      LastStays(scrub, order[..|order| - 1], outs, i);
    }
  }

  lemma {:induction false} OverlayFrom(scrub: Scrub, order: seq<Text>, outs: map<Text, Json>, out: Text)
    requires forall k :: 0 <= k < |order| ==> order[k] in outs
    ensures var m := Overlay(scrub, order, outs);
      && (out in m <==> exists k :: 0 <= k < |order| && scrub(order[k]) == out)
      && (out in m ==> exists k :: 0 <= k < |order| && scrub(order[k]) == out && m[out] == outs[order[k]])
  {
    if order != [] {
      var n := |order| - 1;
      OverlayFrom(scrub, order[..n], outs, out);
      var m := Overlay(scrub, order[..n], outs);
      if out in m {
        var k :| 0 <= k < n && scrub(order[..n][k]) == out && m[out] == outs[order[..n][k]];
        assert order[k] == order[..n][k];
      }
      if scrub(order[n]) == out {
        assert Overlay(scrub, order, outs)[out] == outs[order[n]];
      }
      if k :| 0 <= k < |order| && scrub(order[k]) == out && k < n {
        assert scrub(order[..n][k]) == out;
      }
    }
  }

  lemma {:induction false} WalksAreScrubbed(scrub: Scrub, v: Json, r: Json)
    requires Walks(scrub, v, r)
    ensures Scrubbed(scrub, v, r)
    decreases v
  {
    match v {
      case Obj(fields) =>
        var order, outs: map<Text, Json> :| Orders(order, fields.Keys) && outs.Keys == fields.Keys
          && (forall key :: key in fields ==> Walks(scrub, fields[key], outs[key]))
          && r == Obj(Overlay(scrub, order, outs));
        forall key | key in fields ensures scrub(key) in r.fields {
          var k :| 0 <= k < |order| && order[k] == key;
          OverlayFrom(scrub, order, outs, scrub(key));
        }
        forall out | out in r.fields
          ensures exists key :: key in fields && scrub(key) == out && Scrubbed(scrub, fields[key], r.fields[out])
        {
          OverlayFrom(scrub, order, outs, out);
          var k :| 0 <= k < |order| && scrub(order[k]) == out && r.fields[out] == outs[order[k]];
          WalksAreScrubbed(scrub, fields[order[k]], outs[order[k]]);
        }
      case Arr(items) =>
        forall k | 0 <= k < |items| ensures Scrubbed(scrub, items[k], r.items[k]) {
          WalksAreScrubbed(scrub, items[k], r.items[k]);
        }
      case _ =>
    }
  }

  // ----- nothing unscrubbed is left -----

  /** Every text in the tree, keys included, came out of the scrubber, and every number is one it leaves alone. */
  ghost predicate Clean(scrub: Scrub, r: Json)
    decreases r
  {
    match r
    case Str(text) => text == REDACTED.text || exists t :: text == scrub(t)
    case Numeral(digits) => scrub(digits) == digits
    case Obj(fields) => forall key :: key in fields ==> (exists t :: key == scrub(t)) && Clean(scrub, fields[key])
    case Arr(items) => forall k :: 0 <= k < |items| ==> Clean(scrub, items[k])
    case _ => true
  }

  lemma {:induction false} ScrubbedIsClean(scrub: Scrub, v: Json, r: Json)
    requires Scrubbed(scrub, v, r)
    ensures Clean(scrub, r)
    decreases v
  {
    match v {
      case Obj(fields) =>
        forall out | out in r.fields ensures (exists t :: out == scrub(t)) && Clean(scrub, r.fields[out]) {
          var key :| key in fields && scrub(key) == out && Scrubbed(scrub, fields[key], r.fields[out]);
          ScrubbedIsClean(scrub, fields[key], r.fields[out]);
        }
      case Arr(items) =>
        forall k | 0 <= k < |items| ensures Clean(scrub, r.items[k]) {
          ScrubbedIsClean(scrub, items[k], r.items[k]);
        }
      case _ =>
    }
  }

  /** And a tree that is clean under a scrubber that finds nothing in its own output stays as it is. */
  lemma {:induction false} CleanStays(scrub: Scrub, v: Json)
    requires Clean(scrub, v) && (forall t :: scrub(scrub(t)) == scrub(t)) && scrub(REDACTED.text) == REDACTED.text
    ensures Scrubbed(scrub, v, v)
    decreases v
  {
    match v {
      case Obj(fields) =>
        forall out | out in fields ensures scrub(out) == out && Scrubbed(scrub, fields[out], fields[out]) {
          CleanStays(scrub, fields[out]);
        }
      case Arr(items) =>
        forall k | 0 <= k < |items| ensures Scrubbed(scrub, items[k], items[k]) {
          CleanStays(scrub, items[k]);
        }
      case _ =>
    }
  }

  // ----- one outcome, and when it is the only one -----

  ghost function Chosen(scrub: Scrub, fields: map<Text, Json>, out: Text): (key: Text)
    requires exists key :: key in fields && scrub(key) == out
    ensures key in fields && scrub(key) == out
  {
    var key :| key in fields && scrub(key) == out;
    key
  }

  /** The scrubbed value, whichever member is taken where keys collide. */
  ghost function Scrubbing(scrub: Scrub, v: Json): (r: Json)
    ensures Scrubbed(scrub, v, r)
    decreases v
  {
    match v
    case Str(text) => Str(scrub(text))
    case Numeral(digits) => ScrubNumber(scrub, digits)
    case Obj(fields) =>
      Obj(map out | out in (set key | key in fields :: scrub(key)) :: Scrubbing(scrub, fields[Chosen(scrub, fields, out)]))
    case Arr(items) => Arr(seq(|items|, k requires 0 <= k < |items| => Scrubbing(scrub, items[k])))
    case _ => v
  }

  /** At every object, members whose keys scrub alike have values that scrub alike. */
  ghost predicate Coherent(scrub: Scrub, v: Json)
    decreases v
  {
    match v
    case Obj(fields) =>
      && (forall key :: key in fields ==> Coherent(scrub, fields[key]))
      && (forall a, b :: a in fields && b in fields && scrub(a) == scrub(b) ==>
            Scrubbing(scrub, fields[a]) == Scrubbing(scrub, fields[b]))
    case Arr(items) => forall k :: 0 <= k < |items| ==> Coherent(scrub, items[k])
    case _ => true
  }

  /** Scrubbing comes out the same whatever the order. */
  ghost predicate Determined(scrub: Scrub, v: Json) {
    forall r, q :: Scrubbed(scrub, v, r) && Scrubbed(scrub, v, q) ==> r == q
  }

  lemma ScrubbingFields(scrub: Scrub, v: Json)
    requires v.Obj?
    ensures Scrubbing(scrub, v).Obj?
    ensures forall out :: out in Scrubbing(scrub, v).fields <==> exists key :: key in v.fields && scrub(key) == out
    ensures forall out :: out in Scrubbing(scrub, v).fields ==>
      Scrubbing(scrub, v).fields[out] == Scrubbing(scrub, v.fields[Chosen(scrub, v.fields, out)])
  {
  }

  /** The member an outcome comes from. */
  lemma ComesFrom(scrub: Scrub, v: Json, r: Json, out: Text) returns (key: Text)
    requires v.Obj? && Scrubbed(scrub, v, r) && out in r.fields
    ensures key in v.fields && scrub(key) == out && Scrubbed(scrub, v.fields[key], r.fields[out])
  {
    key :| key in v.fields && scrub(key) == out && Scrubbed(scrub, v.fields[key], r.fields[out]);
  }

  lemma AllKeysCome(scrub: Scrub, v: Json, r: Json)
    requires v.Obj? && Scrubbed(scrub, v, r)
    ensures r.Obj? && forall key :: key in v.fields ==> scrub(key) in r.fields
  {
  }

  lemma {:induction false} CoherentMeansOne(scrub: Scrub, v: Json, r: Json)
    requires Coherent(scrub, v) && Scrubbed(scrub, v, r)
    ensures r == Scrubbing(scrub, v)
    decreases v
  {
    match v {
      case Obj(_) => CoherentObject(scrub, v, r);
      case Arr(items) =>
        var q := Scrubbing(scrub, v);
        forall k | 0 <= k < |items| ensures r.items[k] == q.items[k] {
          CoherentMeansOne(scrub, items[k], r.items[k]);
        }
        assert r.items == q.items;
      case _ =>
    }
  }

  lemma {:induction false} CoherentObject(scrub: Scrub, v: Json, r: Json)
    requires v.Obj? && Coherent(scrub, v) && Scrubbed(scrub, v, r)
    ensures r == Scrubbing(scrub, v)
    decreases v, 0
  {
    hide Scrubbing, Scrubbed;
    var q := Scrubbing(scrub, v);
    ScrubbingFields(scrub, v);
    AllKeysCome(scrub, v, r);
    forall out | out in r.fields ensures out in q.fields && r.fields[out] == q.fields[out] {
      var key := ComesFrom(scrub, v, r, out);
      CoherentMeansOne(scrub, v.fields[key], r.fields[out]);
    }
    assert r.fields == q.fields;
  }

  /** Any outcome of one member can be the outcome under its key. */
  lemma MemberOutcome(scrub: Scrub, v: Json, key: Text, x: Json)
    requires v.Obj? && key in v.fields && Scrubbed(scrub, v.fields[key], x)
    ensures Scrubbed(scrub, v, Obj(Scrubbing(scrub, v).fields[scrub(key) := x]))
  {
    var q := Scrubbing(scrub, v);
    var r := Obj(q.fields[scrub(key) := x]);
    forall out | out in r.fields
      ensures exists k :: k in v.fields && scrub(k) == out && Scrubbed(scrub, v.fields[k], r.fields[out])
    {
      if out == scrub(key) {
        assert Scrubbed(scrub, v.fields[key], r.fields[out]);
      }
    }
  }

  lemma ItemOutcome(scrub: Scrub, v: Json, k: nat, x: Json)
    requires v.Arr? && k < |v.items| && Scrubbed(scrub, v.items[k], x)
    ensures |Scrubbing(scrub, v).items| == |v.items|
    ensures Scrubbed(scrub, v, Arr(Scrubbing(scrub, v).items[k := x]))
  {
  }

  lemma MembersDetermined(scrub: Scrub, v: Json, key: Text)
    requires Determined(scrub, v) && v.Obj? && key in v.fields
    ensures Determined(scrub, v.fields[key])
  {
    hide Scrubbed, Scrubbing;
    var q := Scrubbing(scrub, v);
    forall x, y | Scrubbed(scrub, v.fields[key], x) && Scrubbed(scrub, v.fields[key], y) ensures x == y {
      ScrubbedObject(scrub, v);
      MemberOutcome(scrub, v, key, x);
      MemberOutcome(scrub, v, key, y);
      assert q.fields[scrub(key) := x][scrub(key)] == q.fields[scrub(key) := y][scrub(key)];
    }
  }

  lemma ScrubbedObject(scrub: Scrub, v: Json)
    ensures v.Obj? ==> Scrubbing(scrub, v).Obj?
    ensures v.Arr? ==> Scrubbing(scrub, v).Arr? && |Scrubbing(scrub, v).items| == |v.items|
  {
  }

  lemma ItemsDetermined(scrub: Scrub, v: Json, k: nat)
    requires Determined(scrub, v) && v.Arr? && k < |v.items|
    ensures Determined(scrub, v.items[k])
  {
    hide Scrubbed, Scrubbing;
    var q := Scrubbing(scrub, v);
    forall x, y | Scrubbed(scrub, v.items[k], x) && Scrubbed(scrub, v.items[k], y) ensures x == y {
      ScrubbedObject(scrub, v);
      ItemOutcome(scrub, v, k, x);
      ItemOutcome(scrub, v, k, y);
      assert q.items[k := x][k] == q.items[k := y][k];
    }
  }

  lemma CollisionsAgree(scrub: Scrub, v: Json, a: Text, b: Text)
    requires Determined(scrub, v) && v.Obj? && a in v.fields && b in v.fields && scrub(a) == scrub(b)
    ensures Scrubbing(scrub, v.fields[a]) == Scrubbing(scrub, v.fields[b])
  {
    hide Scrubbed, Scrubbing;
    ScrubbedObject(scrub, v);
    var q := Scrubbing(scrub, v);
    var x, y := Scrubbing(scrub, v.fields[a]), Scrubbing(scrub, v.fields[b]);
    MemberOutcome(scrub, v, a, x);
    MemberOutcome(scrub, v, b, y);
    assert q.fields[scrub(a) := x][scrub(a)] == q.fields[scrub(b) := y][scrub(a)];
  }

  lemma {:induction false} DeterminedMeansCoherent(scrub: Scrub, v: Json)
    requires Determined(scrub, v)
    ensures Coherent(scrub, v)
    decreases v
  {
    hide Determined, Scrubbing;
    match v {
      case Obj(fields) =>
        forall key | key in fields ensures Coherent(scrub, fields[key]) {
          MembersDetermined(scrub, v, key);
          DeterminedMeansCoherent(scrub, fields[key]);
        }
        forall a, b | a in fields && b in fields && scrub(a) == scrub(b)
          ensures Scrubbing(scrub, fields[a]) == Scrubbing(scrub, fields[b])
        {
          CollisionsAgree(scrub, v, a, b);
        }
      case Arr(items) =>
        forall k: nat | k < |items| ensures Coherent(scrub, items[k]) {
          ItemsDetermined(scrub, v, k);
          DeterminedMeansCoherent(scrub, items[k]);
        }
      case _ =>
    }
  }

  /** The outcome is the same in every order exactly when colliding keys never hold values that scrub apart. */
  lemma DeterminedExactly(scrub: Scrub, v: Json)
    ensures Determined(scrub, v) <==> Coherent(scrub, v)
  {
    if Coherent(scrub, v) {
      forall r, q | Scrubbed(scrub, v, r) && Scrubbed(scrub, v, q) ensures r == q {
        CoherentMeansOne(scrub, v, r);
        CoherentMeansOne(scrub, v, q);
      }
    }
    if Determined(scrub, v) {
      DeterminedMeansCoherent(scrub, v);
    }
  }

  /** No object has two keys that scrub alike. */
  predicate KeysApart(scrub: Scrub, v: Json)
    decreases v
  {
    match v
    case Obj(fields) =>
      && (forall key :: key in fields ==> KeysApart(scrub, fields[key]))
      && (forall a, b :: a in fields && b in fields && scrub(a) == scrub(b) ==> a == b)
    case Arr(items) => forall k :: 0 <= k < |items| ==> KeysApart(scrub, items[k])
    case _ => true
  }

  /** The case a caller can check key by key. */
  lemma {:induction false} KeysApartAreCoherent(scrub: Scrub, v: Json)
    requires KeysApart(scrub, v)
    ensures Coherent(scrub, v)
    decreases v
  {
    match v {
      case Obj(fields) =>
        forall key | key in fields ensures Coherent(scrub, fields[key]) {
          KeysApartAreCoherent(scrub, fields[key]);
        }
      case Arr(items) =>
        forall k | 0 <= k < |items| ensures Coherent(scrub, items[k]) {
          KeysApartAreCoherent(scrub, items[k]);
        }
      case _ =>
    }
  }

  // ----- no outcome is excluded -----

  /** The keys of a set, one after the other. */
  lemma {:induction false} SomeOrder(keys: set<Text>) returns (order: seq<Text>)
    ensures Orders(order, keys)
    decreases |keys|
  {
    if keys == {} {
      order := [];
    } else {
      var key :| key in keys;
      var rest := SomeOrder(keys - {key});
      order := rest + [key];
      assert forall k :: k in keys ==> k in order by {
        forall k | k in keys ensures k in order {
          if k != key { assert k in keys - {key}; }
        }
      }
    }
  }

  /** An order in which the winners come last. */
  lemma WinnersLast(keys: set<Text>, winners: set<Text>) returns (order: seq<Text>, n: nat)
    requires winners <= keys
    ensures Orders(order, keys) && n <= |order|
    ensures forall k :: n <= k < |order| ==> order[k] in winners
    ensures forall key :: key in winners ==> exists k :: n <= k < |order| && order[k] == key
  {
    var first := SomeOrder(keys - winners);
    var last := SomeOrder(winners);
    order, n := first + last, |first|;
    forall key | key in keys ensures key in order {
      if key in winners { assert key in last; } else { assert key in first; }
    }
    forall key | key in winners ensures exists k :: n <= k < |order| && order[k] == key {
      var k :| 0 <= k < |last| && last[k] == key;
      assert order[n + k] == key;
    }
  }

  lemma {:induction false} ScrubbedAreWalks(scrub: Scrub, v: Json, r: Json)
    requires Scrubbed(scrub, v, r)
    ensures Walks(scrub, v, r)
    decreases v
  {
    match v {
      case Obj(_) => ObjectsAreWalks(scrub, v, r);
      case Arr(items) =>
        forall k | 0 <= k < |items| ensures Walks(scrub, items[k], r.items[k]) {
          ScrubbedAreWalks(scrub, items[k], r.items[k]);
        }
      case _ =>
    }
  }

  ghost predicate WonBy(scrub: Scrub, fields: map<Text, Json>, r: map<Text, Json>, out: Text, key: Text) {
    out in r && key in fields && scrub(key) == out && Scrubbed(scrub, fields[key], r[out])
  }

  lemma {:induction false} ObjectsAreWalks(scrub: Scrub, v: Json, r: Json)
    requires v.Obj? && Scrubbed(scrub, v, r)
    ensures Walks(scrub, v, r)
    decreases v, 0
  {
    hide Scrubbed, Walks, Scrubbing, Overlay, Orders;
    AllKeysCome(scrub, v, r);
    var winner, winners, outs := ChooseWinners(scrub, v, r);
    var order, n := WinnersLast(v.fields.Keys, winners);
    forall key | key in v.fields ensures Walks(scrub, v.fields[key], outs[key]) {
      ScrubbedAreWalks(scrub, v.fields[key], outs[key]);
    }
    OrderGives(scrub, v.fields, r.fields, winner, winners, outs, order, n);
    ObjectWalks(scrub, v, r, order, outs);
  }

  /** For each scrubbed key the member that stays, and an outcome for every member. */
  lemma ChooseWinners(scrub: Scrub, v: Json, r: Json)
    returns (winner: map<Text, Text>, winners: set<Text>, outs: map<Text, Json>)
    requires v.Obj? && Scrubbed(scrub, v, r)
    ensures r.Obj? && winner.Keys == r.fields.Keys && outs.Keys == v.fields.Keys && winners <= v.fields.Keys
    ensures forall out :: out in r.fields ==> winner[out] in winners && scrub(winner[out]) == out
    ensures forall key :: key in winners ==>
      scrub(key) in winner && winner[scrub(key)] == key && outs[key] == r.fields[scrub(key)]
    ensures forall key :: key in v.fields ==> Scrubbed(scrub, v.fields[key], outs[key])
  {
    hide Scrubbed, Scrubbing;
    var fields := v.fields;
    AllKeysCome(scrub, v, r);
    forall out | out in r.fields ensures exists key :: WonBy(scrub, fields, r.fields, out, key) {
      var key := ComesFrom(scrub, v, r, out);
      assert WonBy(scrub, fields, r.fields, out, key);
    }
    winner := map out | out in r.fields :: Winner(scrub, fields, r.fields, out);
    winners := set key | key in fields && scrub(key) in winner && winner[scrub(key)] == key;
    outs := map key | key in fields :: if key in winners then r.fields[scrub(key)] else Scrubbing(scrub, fields[key]);
    forall key | key in winners ensures Scrubbed(scrub, fields[key], outs[key]) {
      assert WonBy(scrub, fields, r.fields, scrub(key), key);
    }
  }

  lemma ObjectWalks(scrub: Scrub, v: Json, r: Json, order: seq<Text>, outs: map<Text, Json>)
    requires v.Obj? && r.Obj? && Orders(order, v.fields.Keys) && outs.Keys == v.fields.Keys
    requires forall key :: key in v.fields ==> Walks(scrub, v.fields[key], outs[key])
    requires r.fields == Overlay(scrub, order, outs)
    ensures Walks(scrub, v, r)
  {
    hide Overlay, Orders;
  }

  ghost function Winner(scrub: Scrub, fields: map<Text, Json>, r: map<Text, Json>, out: Text): (key: Text)
    requires exists key :: WonBy(scrub, fields, r, out, key)
    ensures WonBy(scrub, fields, r, out, key)
  {
    var key :| WonBy(scrub, fields, r, out, key);
    key
  }

  lemma OrderGives(scrub: Scrub, fields: map<Text, Json>, r: map<Text, Json>, winner: map<Text, Text>, winners: set<Text>,
                   outs: map<Text, Json>, order: seq<Text>, n: nat)
    requires winner.Keys == r.Keys && outs.Keys == fields.Keys && winners <= fields.Keys
    requires forall out :: out in r ==> winner[out] in winners && scrub(winner[out]) == out
    requires forall key :: key in winners ==> scrub(key) in winner && winner[scrub(key)] == key && outs[key] == r[scrub(key)]
    requires forall key :: key in fields ==> scrub(key) in r
    requires Orders(order, fields.Keys) && n <= |order|
    requires forall k :: n <= k < |order| ==> order[k] in winners
    requires forall key :: key in winners ==> exists k :: n <= k < |order| && order[k] == key
    ensures forall k :: 0 <= k < |order| ==> order[k] in outs
    ensures Overlay(scrub, order, outs) == r
  {
    hide Overlay;
    var m := Overlay(scrub, order, outs);
    forall out | out in r ensures out in m && m[out] == r[out] {
      WinnerGives(scrub, winner, winners, outs, order, n, out);
    }
    forall out | out in m ensures out in r {
      OverlayFrom(scrub, order, outs, out);
    }
  }

  lemma WinnerGives(scrub: Scrub, winner: map<Text, Text>, winners: set<Text>, outs: map<Text, Json>, order: seq<Text>,
                    n: nat, out: Text)
    requires out in winner && winner[out] in winners && scrub(winner[out]) == out
    requires forall key :: key in winners ==> scrub(key) in winner && winner[scrub(key)] == key
    requires forall k :: 0 <= k < |order| ==> order[k] in outs
    requires forall j, k :: 0 <= j < k < |order| ==> order[j] != order[k]
    requires forall k :: n <= k < |order| ==> order[k] in winners
    requires winner[out] in outs && exists k :: n <= k < |order| && order[k] == winner[out]
    ensures out in Overlay(scrub, order, outs) && Overlay(scrub, order, outs)[out] == outs[winner[out]]
  {
    hide Overlay;
    var k :| n <= k < |order| && order[k] == winner[out];
    LastStays(scrub, order, outs, k);
  }

  /** The relation is exact: what it allows is what some order of every object's members produces. */
  lemma ScrubbedExactly(scrub: Scrub, v: Json, r: Json)
    ensures Scrubbed(scrub, v, r) <==> Walks(scrub, v, r)
  {
    if Scrubbed(scrub, v, r) { ScrubbedAreWalks(scrub, v, r); }
    if Walks(scrub, v, r) { WalksAreScrubbed(scrub, v, r); }
  }

  // ----- the property fails -----

  /** A text that is a whole GitHub token: one of the patterns scrubbed by default. */
  predicate IsToken(text: Text) {
    && |text| >= 40 && text[..4] == Ascii("ghp_")
    && forall k :: 4 <= k < |text| ==> 48 <= text[k] <= 57 || 65 <= text[k] <= 90 || 97 <= text[k] <= 122
  }

  /** The default scrubber on texts that are a token or contain none. */
  function TokenScrub(text: Text): Text {
    if IsToken(text) then REDACTED.text else text
  }

  function TokenOf(letter: byte): Text {
    Ascii("ghp_") + seq(36, k => letter)
  }

  lemma TokensAreTokens(letter: byte)
    requires 97 <= letter <= 122
    ensures IsToken(TokenOf(letter)) && TokenOf(letter)[4] == letter
  {
  }

  const TWO_TOKENS: Json := Obj(map[TokenOf(97) := Str([49]), TokenOf(98) := Str([50])])

  /** Of two members whose keys collide, either can be the one that stays. */
  lemma EitherStays(scrub: Scrub, a: Text, b: Text, x: Json, y: Json)
    requires a != b && scrub(a) == scrub(b)
    ensures Scrubbed(scrub, Obj(map[a := x, b := y]), Obj(map[scrub(a) := Scrubbing(scrub, x)]))
    ensures Scrubbed(scrub, Obj(map[a := x, b := y]), Obj(map[scrub(a) := Scrubbing(scrub, y)]))
  {
    hide Scrubbing;
    var v := Obj(map[a := x, b := y]);
    assert Scrubbed(scrub, v.fields[a], Scrubbing(scrub, x));
    assert Scrubbed(scrub, v.fields[b], Scrubbing(scrub, y));
  }

  /** An object keyed by two tokens loses one member, and which one depends on the order of the walk. */
  lemma OrderDecides()
    ensures
      var one, two := Obj(map[REDACTED.text := Str([49])]), Obj(map[REDACTED.text := Str([50])]);
      && one != two && |TWO_TOKENS.fields| == 2
      && Scrubbed(TokenScrub, TWO_TOKENS, one) && Scrubbed(TokenScrub, TWO_TOKENS, two)
      && !Determined(TokenScrub, TWO_TOKENS)
  {
    hide Ascii, IsToken, TokenOf, Scrubbed;
    TokensAreTokens(97);
    TokensAreTokens(98);
    var a, b := TokenOf(97), TokenOf(98);
    EitherStays(TokenScrub, a, b, Str([49]), Str([50]));
    assert !IsToken([49]) && !IsToken([50]) by { ShortIsNoToken(); }
    assert Obj(map[REDACTED.text := Str([49])]).fields[REDACTED.text] == Str([49]);
  }

  lemma ShortIsNoToken()
    ensures !IsToken([49]) && !IsToken([50])
  {
  }
}
