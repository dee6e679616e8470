/**
 The streaming reader itself: one pass over the input, a nesting counter, a
 bounded capture buffer, and the visitors of a Terraform plan. Every method is
 proved against the functions of JsonScan and PlanReview.
 */
module ReviewReader {
  import opened Common
  import opened JsonBytes
  import opened JsonScan
  import opened JsonGrammarProofs
  import opened JsonValue
  import opened PlanReview
  import opened PlanReviewProofs
  import BoundedCapture
  import PlanMeaning

  /** The capture buffer: off, or filling up to `limit` bytes (0 for no limit) and `levels` of nesting. */
  datatype Tape = Tape(on: bool, buf: seq<byte>, limit: nat, truncated: bool, levels: nat) {
    /** What holds of the buffer between reads at nesting `depth`. */
    predicate Sound(depth: int) {
      && (!on ==> limit == 0 && levels == 0)
      && (on && !truncated && limit > 0 ==> |buf| <= limit)
      && (levels > 0 && depth > levels ==> truncated)
    }
  }

  /**
   The buffer after reading `s` from `i` to `j` at nesting `depth`, over containers `height` deep:
   truncated exactly when too long or too deep, otherwise extended by exactly these bytes.
   */
  ghost predicate Follows(t: Tape, u: Tape, s: seq<byte>, i: nat, j: nat, depth: int, height: nat)
    requires i <= j <= |s|
  {
    && u.on == t.on && u.limit == t.limit && u.levels == t.levels
    && (t.on ==>
          && (u.truncated <==>
              || t.truncated
              || (t.limit > 0 && |t.buf| + (j - i) > t.limit)
              || (t.levels > 0 && depth + height > t.levels))
          && (!u.truncated ==> u.buf == t.buf + s[i..j]))
  }

  lemma FollowsJoin(t: Tape, u: Tape, v: Tape, s: seq<byte>, i: nat, j: nat, k: nat, depth: int, g: nat, h: nat)
    requires i <= j <= k <= |s|
    requires Follows(t, u, s, i, j, depth, g) && Follows(u, v, s, j, k, depth, h)
    ensures Follows(t, v, s, i, k, depth, Max(g, h))
  {
    if t.on && !v.truncated {
      assert s[i..k] == s[i..j] + s[j..k];
    }
  }

  lemma FollowsNothing(t: Tape, s: seq<byte>, i: nat, depth: int)
    requires i <= |s| && t.Sound(depth)
    ensures Follows(t, t, s, i, i, depth, 0)
  {
    assert t.buf + s[i..i] == t.buf;
  }

  /** Going through something of height `h` one level down is going through height `h + 1`. */
  lemma FollowsDeeper(t: Tape, u: Tape, s: seq<byte>, i: nat, j: nat, depth: int, h: nat)
    requires i <= j <= |s| && Follows(t, u, s, i, j, depth + 1, h)
    ensures Follows(t, u, s, i, j, depth, h + 1)
  {
  }

  datatype Mark = Mark(pos: nat, depth: int, tape: Tape)

  predicate Fits(x: Option<Extent>, depth: int) {
    x.Some? && depth + x.value.height <= MAX_DEPTH
  }

  predicate StepFits(r: Option<Step>, depth: int) {
    r.Some? && depth + r.value.height <= MAX_DEPTH
  }

  /** What follows an opening bracket: the container without its white space and its bracket. */
  function Inside(env: Env, s: seq<byte>, i: nat, item: Item, f: Frames): (r: Option<Step>)
    requires i <= |s|
    ensures r.Some? ==> i < r.value.end <= |s| && r.value.height > 0
  {
    var b := SpaceEnd(s, i);
    if b == |s| then None
    else if s[b] == Closer(item.Keyed()) then Some(Step(b + 1, 1, f))
    else ItemsRun(env, s, b, item, 0, f)
  }

  lemma ContainerInside(env: Env, s: seq<byte>, i: nat, item: Item, f: Frames)
    requires i <= |s|
    ensures ContainerRun(env, s, i, item, f) ==
      var a := SpaceEnd(s, i);
      if a == |s| then None
      else if s[a] == SMALL_N then Still(Flat(LiteralEnd(s, a, NULL_WORD)), f)
      else if s[a] != Opening(item.Keyed()) then None
      else Inside(env, s, a + 1, item, f)
  {
    hide ItemsRun, SpaceEnd;
  }

  /** Without a visitor a run is plain scanning. */
  lemma {:induction false} PlainItems(env: Env, s: seq<byte>, i: nat, item: Item, acc: nat, f: Frames)
    requires i <= |s| && (item.AnyValue? || item.AnyMember?)
    ensures ItemsRun(env, s, i, item, acc, f) == Still(ItemsAt(s, i, item.Keyed(), acc), f)
    decreases |s| - i
  {
    hide ItemsRun, ItemsAt, ValueAt, MemberAt, SpaceEnd;
    RunStep(env, s, i, item, acc, f);
    ItemsStepAll(s, i, item.Keyed(), acc);
    var r := ItemAt(s, i, item.Keyed());
    if r.Some? {
      var a := SpaceEnd(s, r.value.end);
      if a < |s| && s[a] == COMMA && SpaceEnd(s, a + 1) < |s| {
        PlainItems(env, s, SpaceEnd(s, a + 1), item, Max(acc, r.value.height), f);
      }
    }
  }

  lemma ItemsStepAll(s: seq<byte>, i: nat, keyed: bool, acc: nat)
    requires i <= |s|
    ensures ItemsAt(s, i, keyed, acc) ==
      match ItemAt(s, i, keyed)
      case None => None
      case Some(x) =>
        var a := SpaceEnd(s, x.end);
        if a == |s| then None
        else if s[a] == Closer(keyed) then Some(Extent(a + 1, 1 + Max(acc, x.height)))
        else if s[a] != COMMA || SpaceEnd(s, a + 1) == |s| then None
        else ItemsAt(s, SpaceEnd(s, a + 1), keyed, Max(acc, x.height))
  {
    hide ValueAt, MemberAt, SpaceEnd, Max;
  }

  lemma PlainRun(env: Env, s: seq<byte>, i: nat, item: Item, f: Frames)
    requires i <= |s| && (item.AnyValue? || item.AnyMember?)
    ensures ContainerRun(env, s, i, item, f) == Still(ContainerAt(s, i, item.Keyed()), f)
  {
    hide ItemsRun, ItemsAt, SpaceEnd;
    var a := SpaceEnd(s, i);
    if a < |s| && SpaceEnd(s, a + 1) < |s| {
      PlainItems(env, s, SpaceEnd(s, a + 1), item, 0, f);
    }
  }

  lemma NoSpace(s: seq<byte>, i: nat)
    requires i <= |s|
    ensures SpaceEnd(s, SpaceEnd(s, i)) == SpaceEnd(s, i)
  {
  }

  class ReviewJSON {
    const env: Env
    const input: seq<byte>
    var pos: nat
    var depth: int
    // the capture buffer
    var capturing: bool
    var output: seq<byte>
    var limit: nat
    var truncated: bool
    var outputDepth: nat
    // what the visitors assign
    var version: Text
    var review: Review
    var entry: Entry
    var acts: ActionList
    var preview: Preview
    var rendered: nat
    var summary: Summary

    constructor (env: Env, input: seq<byte>)
      ensures this.env == env && this.input == input
      ensures pos == 0 && depth == 0 && !capturing && State() == START && Valid()
    {
      this.env := env;
      this.input := input;
      pos, depth := 0, 0;
      capturing, output, limit, truncated, outputDepth := false, [], 0, false, 0;
      version, review, entry := START.version, START.review, START.entry;
      acts, preview, rendered, summary := START.acts, START.preview, START.rendered, START.summary;
    }

    ghost function Recorded(): Tape
      reads this
    {
      Tape(capturing, output, limit, truncated, outputDepth)
    }

    ghost function State(): Frames
      reads this
    {
      Frames(version, review, entry, acts, preview, rendered, summary)
    }

    ghost predicate Valid()
      reads this
    {
      pos <= |input| && 0 <= depth <= MAX_DEPTH && Recorded().Sound(depth)
    }

    ghost function Here(): Mark
      reads this
    {
      Mark(pos, depth, Recorded())
    }

    /** From `m` the reader went on to `end` over something `height` deep and left the visitors in state `f`. */
    ghost predicate Moved(m: Mark, end: nat, height: nat, f: Frames)
      reads this
    {
      && m.pos <= end <= |input|
      && pos == end && depth == m.depth && State() == f
      && capturing == m.tape.on && limit == m.tape.limit && outputDepth == m.tape.levels
      && Follows(m.tape, Recorded(), input, m.pos, end, depth, height)
    }

    lemma Join(m: Mark, n: Mark, g: nat, h: nat)
      requires m.pos <= n.pos <= pos <= |input|
      requires Follows(m.tape, n.tape, input, m.pos, n.pos, depth, g)
      requires Follows(n.tape, Recorded(), input, n.pos, pos, depth, h)
      ensures Follows(m.tape, Recorded(), input, m.pos, pos, depth, Max(g, h))
    {
      FollowsJoin(m.tape, n.tape, Recorded(), input, m.pos, n.pos, pos, depth, g, h);
    }

    lemma Stay()
      requires Valid()
      ensures Follows(Recorded(), Recorded(), input, pos, pos, depth, 0)
    {
      FollowsNothing(Recorded(), input, pos, depth);
    }

    lemma Off(m: Mark, h: nat)
      requires m.pos <= pos <= |input|
      requires !m.tape.on && !capturing && m.tape.limit == limit && m.tape.levels == outputDepth
      ensures Follows(m.tape, Recorded(), input, m.pos, pos, depth, h)
    {
    }

    // ----- bytes -----

    method Read() returns (ok: bool, b: byte)
      requires Valid()
      modifies this`pos, this`output, this`truncated
      ensures ok <==> old(pos) < |input|
      ensures ok ==> b == input[old(pos)] && Valid() && Moved(old(Here()), old(pos) + 1, 0, old(State()))
      ensures !ok ==> unchanged(this)
    {
      if pos == |input| {
        return false, 0;
      }
      b := input[pos];
      pos := pos + 1;
      if capturing && !truncated {
        if limit == 0 || |output| < limit {
          output := output + [b];
        } else {
          truncated := true;
        }
      }
      assert input[old(pos)..pos] == [b];
      ok := true;
    }

    predicate Sees(b: byte)
      reads this
    {
      pos < |input| && input[pos] == b
    }

    method Space() returns (ok: bool)
      requires Valid()
      modifies this`pos, this`output, this`truncated
      ensures ok <==> SpaceEnd(input, old(pos)) < |input|
      ensures Valid() && Moved(old(Here()), SpaceEnd(input, old(pos)), 0, old(State()))
    {
      hide Follows;
      Stay();
      while pos < |input| && IsSpace(input[pos])
        invariant pos <= |input| && SpaceEnd(input, pos) == SpaceEnd(input, old(pos))
        invariant Valid() && Moved(old(Here()), pos, 0, old(State()))
        decreases |input| - pos
      {
        ghost var m := Here();
        var _, _ := Read();
        Join(old(Here()), m, 0, 0);
      }
      ok := pos < |input|;
    }

    method Expect(want: byte) returns (ok: bool)
      requires Valid()
      modifies this`pos, this`output, this`truncated
      ensures ok <==> old(Sees(want))
      ensures ok ==> Valid() && Moved(old(Here()), old(pos) + 1, 0, old(State()))
    {
      hide Follows;
      var b;
      ok, b := Read();
      ok := ok && b == want;
    }

    method Literal(word: seq<byte>) returns (ok: bool)
      requires Valid()
      modifies this`pos, this`output, this`truncated
      ensures ok <==> At(input, old(pos), word)
      ensures ok ==> Valid() && Moved(old(Here()), old(pos) + |word|, 0, old(State()))
    {
      hide Follows;
      Stay();
      for i := 0 to |word|
        invariant pos == old(pos) + i <= |input|
        invariant At(input, old(pos), word[..i])
        invariant Valid() && Moved(old(Here()), pos, 0, old(State()))
      {
        ghost var m := Here();
        var found := Expect(word[i]);
        if !found {
          return false;
        }
        Join(old(Here()), m, 0, 0);
      }
      ok := true;
    }

    method Enter() returns (ok: bool)
      requires Valid()
      modifies this`depth, this`truncated
      ensures ok <==> old(depth) < MAX_DEPTH
      ensures ok ==> Valid() && depth == old(depth) + 1
      ensures Follows(old(Recorded()), Recorded(), input, pos, pos, old(depth) + 1, 0)
    {
      Stay();
      depth := depth + 1;
      if outputDepth > 0 && depth > outputDepth {
        truncated := true;
      }
      ok := depth <= MAX_DEPTH;
    }

    // ----- scalars -----

    method Digits() returns (ok: bool)
      requires Valid()
      modifies this`pos, this`output, this`truncated
      ensures ok <==> DigitsEnd(input, old(pos)).Some?
      ensures ok ==> Valid() && Moved(old(Here()), DigitsEnd(input, old(pos)).value, 0, old(State()))
    {
      hide Follows;
      if pos == |input| || !IsDigit(input[pos]) {
        return false;
      }
      Stay();
      while pos < |input| && IsDigit(input[pos])
        invariant pos <= |input| && DigitRun(input, pos) == DigitRun(input, old(pos))
        invariant Valid() && Moved(old(Here()), pos, 0, old(State()))
        decreases |input| - pos
      {
        ghost var m := Here();
        var _, _ := Read();
        Join(old(Here()), m, 0, 0);
      }
      ok := true;
    }

    method Exponent() returns (ok: bool)
      requires Valid()
      modifies this`pos, this`output, this`truncated
      ensures ok <==> ExponentEnd(input, old(pos)).Some?
      ensures ok ==> Valid() && Moved(old(Here()), ExponentEnd(input, old(pos)).value, 0, old(State()))
    {
      hide Follows, DigitsEnd;
      Stay();
      if pos == |input| || (input[pos] != SMALL_E && input[pos] != BIG_E) {
        return true;
      }
      var _, _ := Read();
      if Sees(PLUS) || Sees(MINUS) {
        ghost var m := Here();
        var _, _ := Read();
        Join(old(Here()), m, 0, 0);
      }
      ghost var m := Here();
      ok := Digits();
      if ok {
        Join(old(Here()), m, 0, 0);
      }
    }

    method NumberTail() returns (ok: bool)
      requires Valid()
      modifies this`pos, this`output, this`truncated
      ensures ok <==> NumberTailEnd(input, old(pos)).Some?
      ensures ok ==> Valid() && Moved(old(Here()), NumberTailEnd(input, old(pos)).value, 0, old(State()))
    {
      hide Follows, DigitsEnd, ExponentEnd;
      Stay();
      if pos == |input| {
        return true;
      }
      if Sees(POINT) {
        ok := Expect(POINT);
        ghost var m := Here();
        ok := Digits();
        if !ok {
          return;
        }
        Join(old(Here()), m, 0, 0);
      }
      ghost var m := Here();
      ok := Exponent();
      if ok {
        Join(old(Here()), m, 0, 0);
      }
    }

    method Number() returns (ok: bool)
      requires Valid()
      modifies this`pos, this`output, this`truncated
      ensures ok <==> NumberEnd(input, old(pos)).Some?
      ensures ok ==> Valid() && Moved(old(Here()), NumberEnd(input, old(pos)).value, 0, old(State()))
    {
      hide Follows, DigitsEnd, NumberTailEnd;
      Stay();
      if Sees(MINUS) {
        ok := Expect(MINUS);
      }
      if pos == |input| {
        return false;
      }
      ghost var m := Here();
      if Sees(ZERO) {
        ok := Expect(ZERO);
      } else {
        ok := Digits();
      }
      if !ok {
        return;
      }
      Join(old(Here()), m, 0, 0);
      m := Here();
      ok := NumberTail();
      if ok {
        Join(old(Here()), m, 0, 0);
      }
    }

    /** Four hex digits. */
    method UnicodeEscape() returns (ok: bool)
      requires Valid()
      modifies this`pos, this`output, this`truncated
      ensures ok <==> old(pos) + 4 <= |input| && forall k :: old(pos) <= k < old(pos) + 4 ==> IsHex(input[k])
      ensures ok ==> Valid() && Moved(old(Here()), old(pos) + 4, 0, old(State()))
    {
      hide Follows;
      Stay();
      for i := 0 to 4
        invariant pos == old(pos) + i <= |input|
        invariant forall k :: old(pos) <= k < pos ==> IsHex(input[k])
        invariant Valid() && Moved(old(Here()), pos, 0, old(State()))
      {
        ghost var m := Here();
        var found, b := Read();
        if !found || !IsHex(b) {
          return false;
        }
        Join(old(Here()), m, 0, 0);
      }
      ok := true;
    }

    /** One unit of a string body; `n` is 0 for the closing quote. */
    method StringAtom() returns (ok: bool, n: nat)
      requires Valid()
      modifies this`pos, this`output, this`truncated
      ensures ok <==> !UnitAt(input, old(pos)).Malformed?
      ensures ok ==> n == (if UnitAt(input, old(pos)).Chunk? then UnitAt(input, old(pos)).n else 0)
      ensures ok ==> Valid() && Moved(old(Here()), old(pos) + (if n == 0 then 1 else n), 0, old(State()))
    {
      hide Follows;
      var b;
      ok, b := Read();
      if !ok {
        return false, 0;
      }
      if b == QUOTE {
        return true, 0;
      }
      if b < 0x20 {
        return false, 0;
      }
      if b != BACKSLASH {
        return true, 1;
      }
      ghost var m := Here();
      ok, b := Read();
      if !ok {
        return false, 0;
      }
      Join(old(Here()), m, 0, 0);
      if IsEscape(b) {
        return true, 2;
      }
      if b != SMALL_U {
        return false, 0;
      }
      m := Here();
      ok := UnicodeEscape();
      if ok {
        Join(old(Here()), m, 0, 0);
      }
      n := 6;
    }

    /** A string; with a limit, also its text as far as whole units fit, and whether units were cut. */
    method StringToken(bound: nat) returns (ok: bool, value: Text, cut: bool)
      requires Valid()
      modifies this`pos, this`output, this`truncated
      ensures ok <==> StringEnd(input, old(pos)).Some?
      ensures ok ==> Valid() && Moved(old(Here()), StringEnd(input, old(pos)).value, 0, old(State()))
      ensures ok && bound > 0 ==>
        value == env.unquote(Prefix(input, old(pos), bound)) && cut == Cut(input, old(pos), bound)
    {
      hide Follows, UnitAt, Tape.Sound, KeptEnd, StringBodyEnd;
      ok := Expect(QUOTE);
      value, cut := [], false;
      if !ok {
        return;
      }
      ghost var body := pos;
      ghost var kept := pos;
      var raw := if bound > 0 then [QUOTE] else [];
      while true
        invariant old(pos) < body == old(pos) + 1 <= kept <= pos <= |input| && input[old(pos)] == QUOTE
        invariant StringBodyEnd(input, pos) == StringBodyEnd(input, body)
        invariant Valid() && Moved(old(Here()), pos, 0, old(State()))
        invariant bound > 0 ==> raw == [QUOTE] + input[body..kept]
        invariant bound > 0 ==> KeptEnd(input, body, kept, bound) == KeptEnd(input, body, body, bound)
        invariant bound > 0 && !cut ==> kept == pos
        invariant bound > 0 && cut ==> KeptEnd(input, body, kept, bound) == kept && UnitAt(input, kept).Chunk?
        decreases |input| - pos
      {
        ghost var m := Here();
        var n;
        BoundedCapture.KeptStep(input, body, pos, bound);
        ok, n := StringAtom();
        if !ok {
          return;
        }
        Join(old(Here()), m, 0, 0);
        if n == 0 {
          break;
        }
        if bound > 0 && !cut {
          if |raw| + n > bound {
            cut := true;
          } else {
            assert input[body..pos] == input[body..m.pos] + input[m.pos..pos];
            raw := raw + input[pos - n..pos];
            kept := pos;
          }
        }
      }
      if bound > 0 {
        value := env.unquote(raw + [QUOTE]);
      }
    }

    // ----- values and containers -----

    /** Validate one value and drop it. */
    method Skip() returns (ok: bool)
      requires Valid()
      modifies this
      ensures ok <==> Fits(ValueAt(input, old(pos)), old(depth))
      ensures ok ==>
        var x := ValueAt(input, old(pos)).value;
        Valid() && Moved(old(Here()), x.end, x.height, old(State()))
      decreases |input| - pos, 2
    {
      hide Follows, ContainerAt, ContainerRun, SpaceEnd, StringEnd, NumberEnd, Tape.Sound;
      ok := Space();
      if !ok {
        return;
      }
      ghost var m := Here();
      var b := input[pos];
      if b == OPEN_OBJECT || b == OPEN_ARRAY {
        var item := if b == OPEN_OBJECT then AnyMember else AnyValue;
        PlainRun(env, input, pos, item, State());
        NoSpace(input, old(pos));
        ok := Container(item);
      } else if b == QUOTE {
        var text, cut;
        ok, text, cut := StringToken(0);
      } else if b == SMALL_T {
        ok := Literal(TRUE_WORD);
      } else if b == SMALL_F {
        ok := Literal(FALSE_WORD);
      } else if b == SMALL_N {
        ok := Literal(NULL_WORD);
      } else {
        ok := Number();
      }
      if ok {
        ghost var x := ValueAt(input, old(pos)).value;
        Join(old(Here()), m, 0, x.height);
      }
    }

    /** An object or array whose items are given to `item`; null is taken too. */
    method Container(item: Item) returns (ok: bool)
      requires Valid() && (capturing ==> item.AnyValue? || item.AnyMember?)
      modifies this
      ensures ok <==> StepFits(ContainerRun(env, input, old(pos), item, old(State())), old(depth))
      ensures ok ==>
        var st := ContainerRun(env, input, old(pos), item, old(State())).value;
        Valid() && Moved(old(Here()), st.end, st.height, st.f)
      decreases |input| - pos, 0
    {
      hide Follows, ContainerRun, Inside, SpaceEnd, At;
      ContainerInside(env, input, pos, item, State());
      ok := Space();
      if !ok {
        return;
      }
      ghost var m := Here();
      if Sees(SMALL_N) {
        ok := Literal(NULL_WORD);
        if ok {
          Join(old(Here()), m, 0, 0);
        }
        return;
      }
      ok := Expect(Opening(item.Keyed()));
      if !ok {
        return;
      }
      Join(old(Here()), m, 0, 0);
      m := Here();
      ok := Level(item);
      if ok {
        ghost var st := Inside(env, input, m.pos, item, old(State())).value;
        Join(old(Here()), m, 0, st.height);
      }
    }

    /** One more level of nesting, left again at the end. */
    method Level(item: Item) returns (ok: bool)
      requires Valid() && (capturing ==> item.AnyValue? || item.AnyMember?)
      modifies this
      ensures ok <==> StepFits(Inside(env, input, old(pos), item, old(State())), old(depth))
      ensures ok ==>
        var st := Inside(env, input, old(pos), item, old(State())).value;
        Valid() && Moved(old(Here()), st.end, st.height, st.f)
      decreases |input| - pos, 10
    {
      hide Follows, Inside;
      ok := Enter();
      if ok {
        ghost var m := Here();
        ok := Items(item);
        if ok {
          ghost var h := Inside(env, input, old(pos), item, old(State())).value.height - 1;
          Join(old(Here()), m, 0, h);
          FollowsDeeper(old(Recorded()), Recorded(), input, old(pos), pos, depth - 1, h);
        }
      }
      depth := depth - 1;
    }

    /** What follows the opening bracket, one level down. */
    method Items(item: Item) returns (ok: bool)
      requires Valid() && (capturing ==> item.AnyValue? || item.AnyMember?)
      requires 1 <= depth
      modifies this
      ensures ok <==> StepFits(Inside(env, input, old(pos), item, old(State())), old(depth) - 1)
      ensures ok ==>
        var st := Inside(env, input, old(pos), item, old(State())).value;
        Valid() && Moved(old(Here()), st.end, st.height - 1, st.f)
      decreases |input| - pos, 9
    {
      hide Follows, ItemsRun, SpaceEnd;
      ok := Space();
      if !ok {
        return;
      }
      if Sees(Closer(item.Keyed())) {
        ghost var m := Here();
        ok := Expect(Closer(item.Keyed()));
        Join(old(Here()), m, 0, 0);
        return;
      }
      ghost var m := Here();
      ok := Rest(item);
      if ok {
        ghost var st := Inside(env, input, old(pos), item, old(State())).value;
        Join(old(Here()), m, 0, st.height - 1);
      }
    }

    /** Items and what separates them, to the closing bracket. */
    method Rest(item: Item) returns (ok: bool)
      requires Valid() && (capturing ==> item.AnyValue? || item.AnyMember?)
      requires 1 <= depth
      modifies this
      ensures ok <==> StepFits(ItemsRun(env, input, old(pos), item, 0, old(State())), old(depth) - 1)
      ensures ok ==>
        var st := ItemsRun(env, input, old(pos), item, 0, old(State())).value;
        Valid() && Moved(old(Here()), st.end, st.height - 1, st.f)
      decreases |input| - pos, 8
    {
      hide Follows, Max, ItemsRun;
      Stay();
      ghost var acc, f0 := 0, State();
      while true
        invariant Valid() && capturing == old(capturing) && depth + acc <= MAX_DEPTH
        invariant Moved(old(Here()), pos, acc, State())
        invariant ItemsRun(env, input, old(pos), item, 0, f0) == ItemsRun(env, input, pos, item, acc, State())
        decreases |input| - pos
      {
        ghost var m := Here();
        var done;
        ghost var h;
        ok, done, h := Turn(item, acc);
        if !ok {
          return;
        }
        Join(old(Here()), m, acc, h);
        acc := Max(acc, h);
        if done {
          return;
        }
      }
    }

    /** One item, `h` high, and the separator after it; `acc` is the tallest item before. */
    method Turn(item: Item, ghost acc: nat) returns (ok: bool, done: bool, ghost h: nat)
      requires Valid() && (capturing ==> item.AnyValue? || item.AnyMember?)
      requires 1 <= depth && depth + acc <= MAX_DEPTH
      modifies this
      ensures !ok ==> !StepFits(ItemsRun(env, input, old(pos), item, acc, old(State())), old(depth) - 1)
      ensures ok ==> old(pos) < pos <= |input| && Valid() && Moved(old(Here()), pos, h, State()) && depth + Max(acc, h) <= MAX_DEPTH
      ensures ok ==>
        ItemsRun(env, input, old(pos), item, acc, old(State())) ==
          (if done then Some(Step(pos, 1 + Max(acc, h), State()))
           else ItemsRun(env, input, pos, item, Max(acc, h), State()))
      decreases |input| - pos, 7
    {
      hide Follows, ItemsRun, RunItem, SpaceEnd;
      RunStep(env, input, pos, item, acc, State());
      ghost var run := RunItem(env, input, pos, item, State());
      done, h := false, 0;
      ok := RunOne(item);
      if !ok {
        return;
      }
      ghost var m := Here();
      h := run.value.height;
      ok, done := Separator(Closer(item.Keyed()));
      if ok {
        Join(old(Here()), m, h, 0);
      }
    }

    /** What follows an item: the closing bracket, or a comma and more input. */
    method Separator(closer: byte) returns (ok: bool, done: bool)
      requires Valid() && closer != COMMA
      modifies this`pos, this`output, this`truncated
      ensures
        var a := SpaceEnd(input, old(pos));
        && (ok <==> a < |input| && (input[a] == closer || (input[a] == COMMA && SpaceEnd(input, a + 1) < |input|)))
        && (ok ==> Valid() && (done <==> input[a] == closer)
                   && Moved(old(Here()), if done then a + 1 else SpaceEnd(input, a + 1), 0, old(State())))
    {
      ok := Space();
      done := false;
      if !ok {
        return;
      }
      ghost var m := Here();
      var b;
      ok, b := Read();
      Join(old(Here()), m, 0, 0);
      if b == closer {
        return true, true;
      }
      if b != COMMA {
        return false, false;
      }
      m := Here();
      ok := Space();
      Join(old(Here()), m, 0, 0);
    }

    /** One item of a container. */
    method RunOne(item: Item) returns (ok: bool)
      requires Valid() && (capturing ==> item.AnyValue? || item.AnyMember?)
      modifies this
      ensures ok <==> StepFits(RunItem(env, input, old(pos), item, old(State())), old(depth))
      ensures ok ==>
        var st := RunItem(env, input, old(pos), item, old(State())).value;
        Valid() && Moved(old(Here()), st.end, st.height, st.f)
      decreases |input| - pos, 6
    {
      hide Follows, ValueAt, SpaceEnd, StringEnd, EntryAt, VersionAt, AddAction, Visit, KeptEnd;
      match item {
        case AnyValue =>
          ok := Skip();
        case EntryItem =>
          ok := Resource();
        case ActionItem(details) =>
          ok := Action(details);
        case _ =>
          ok := Member(item);
      }
    }

    /** A member of an object: its name, a colon, and its value given to the visitor. */
    method Member(item: Item) returns (ok: bool)
      requires Valid() && item.Keyed() && (capturing ==> item.AnyMember?)
      modifies this
      ensures ok <==> StepFits(RunItem(env, input, old(pos), item, old(State())), old(depth))
      ensures ok ==>
        var st := RunItem(env, input, old(pos), item, old(State())).value;
        Valid() && Moved(old(Here()), st.end, st.height, st.f)
      decreases |input| - pos, 5
    {
      hide Follows, ValueAt, SpaceEnd, StringEnd, Visit, KeptEnd, Prefix, Cut, Tape.Sound;
      var bound := if item.AnyMember? then 0 else NAME_BYTES;
      var key, cut;
      ok, key, cut := StringToken(bound);
      if !ok {
        return;
      }
      ghost var m := Here();
      ok := Space();
      if !ok {
        return;
      }
      Join(old(Here()), m, 0, 0);
      m := Here();
      ok := Expect(COLON);
      if !ok {
        return;
      }
      Join(old(Here()), m, 0, 0);
      m := Here();
      if item.AnyMember? {
        ok := Skip();
      } else {
        ok := VisitMember(item, if cut then [] else key);
      }
      if ok {
        ghost var st := RunItem(env, input, old(pos), item, old(State())).value;
        Join(old(Here()), m, 0, st.height);
      }
    }

    /** The visitors of the plan object, a resource and its change. */
    method VisitMember(item: Item, key: Text) returns (ok: bool)
      requires Valid() && !capturing && item.Keyed() && !item.AnyMember?
      modifies this
      ensures ok <==> StepFits(Visit(env, input, old(pos), item, key, old(State())), old(depth))
      ensures ok ==>
        var st := Visit(env, input, old(pos), item, key, old(State())).value;
        Valid() && Moved(old(Here()), st.end, st.height, st.f)
      decreases |input| - pos, 6
    {
      hide Follows, ValueAt, ContainerRun, SpaceEnd, FoldsTo, AddressAt, FieldAt, ActionsAt, VersionAt, SummaryAt;
      match item {
        case RootMember =>
          if IsFormatVersion(key) {
            var text;
            ok, text := Version();
            if ok && text.Some? {
              version := text.value;
            }
          } else if IsResourceChanges(key) {
            ok := Resources();
          } else {
            ok := Skip();
          }
        case EntryMember(details) =>
          if IsAddress(key) && details {
            ok := ResourceAddress();
          } else if IsChange(key) {
            ok := Container(ChangeMember(details));
          } else {
            ok := Skip();
          }
        case ChangeMember(details) =>
          if IsActions(key) {
            ok := ActionList(details);
          } else if details {
            ok := ResourceValue(key);
          } else {
            ok := Skip();
          }
        case SummaryMember =>
          ok := SummaryNumber(key);
      }
    }

    // ----- captured values -----

    /** Validate a value and capture its bytes if they fit the limits. */
    method DecodePreview(bytes: nat) returns (ok: bool, omitted: bool, raw: seq<byte>)
      requires Valid() && !capturing && bytes > 0
      modifies this
      ensures
        var c := CaptureAt(input, old(pos), bytes);
        && (ok <==> c.Some? && old(depth) + c.value.x.height <= MAX_DEPTH)
        && (ok ==> Valid() && Moved(old(Here()), c.value.x.end, c.value.x.height, old(State())) && !capturing
                   && omitted == c.value.omitted && (!omitted ==> raw == c.value.raw))
      decreases |input| - pos, 4
    {
      hide Follows, ValueAt, SpaceEnd, Tape.Sound;
      ValueSkipsSpace(input, pos);
      omitted, raw := false, [];
      ok := Space();
      if !ok {
        return;
      }
      ok, omitted, raw := Capture(bytes, PREVIEW_LEVELS);
      if ok {
        Off(old(Here()), CaptureAt(input, old(pos), bytes).value.x.height);
      }
    }

    /** Skip a value with the buffer on, for this many bytes and, unless 0, levels. */
    method Capture(bytes: nat, levels: nat) returns (ok: bool, cut: bool, raw: seq<byte>)
      requires Valid() && !capturing && bytes > 0
      modifies this
      ensures
        var x := ValueAt(input, old(pos));
        && (ok <==> Fits(x, old(depth)))
        && (ok ==> Valid() && Moved(old(Here()), x.value.end, x.value.height, old(State())) && !capturing
                   && (cut <==> x.value.end - old(pos) > bytes || (levels > 0 && x.value.height > levels))
                   && (!cut ==> raw == input[old(pos)..x.value.end]))
      decreases |input| - pos, 3
    {
      hide ValueAt;
      cut, raw := false, [];
      capturing, output, limit, truncated := true, [], bytes, false;
      outputDepth := if levels > 0 then depth + levels else 0;
      ok := Skip();
      capturing, limit, outputDepth := false, 0, 0;
      if ok {
        cut, raw := truncated, output;
        assert [] + input[old(pos)..pos] == input[old(pos)..pos];
      }
    }

    /** Validate a value and read it as a 64-bit integer of at most 32 bytes. */
    method Integer() returns (ok: bool, n: int)
      requires Valid() && !capturing && pos < |input| && !IsSpace(input[pos])
      modifies this
      ensures
        var x := ValueAt(input, old(pos));
        && (ok <==> Fits(x, old(depth)) && x.value.end - old(pos) <= INTEGER_BYTES
                    && IntegerOf(input[old(pos)..x.value.end]).Some?)
        && (ok ==> Valid() && Moved(old(Here()), x.value.end, x.value.height, old(State())) && !capturing
                   && n == IntegerOf(input[old(pos)..x.value.end]).value)
      decreases |input| - pos, 4
    {
      hide Follows, ValueAt, SpaceEnd, IntegerOf, Tape.Sound;
      n := 0;
      var cut, raw;
      ok, cut, raw := Capture(INTEGER_BYTES, 0);
      if ok && !cut {
        var read := IntegerOf(raw);
        n := read.GetOr(0);
        ok := read.Some?;
      } else {
        ok := false;
      }
    }

    /** One member of a summary. */
    method SummaryNumber(key: Text) returns (ok: bool)
      requires Valid() && !capturing
      modifies this
      ensures ok <==> StepFits(SummaryAt(input, old(pos), key, old(State())), old(depth))
      ensures ok ==>
        var st := SummaryAt(input, old(pos), key, old(State())).value;
        Valid() && Moved(old(Here()), st.end, st.height, st.f)
      decreases |input| - pos, 5
    {
      hide ValueAt, SpaceEnd, IntegerOf, Ascii;
      summary := summary.(seen := true);
      if key !in SUMMARY_NAMES {
        return false;
      }
      if SummaryValue(input, pos).Some? {
        SummarySkips(input, pos);
      }
      ValueSkipsSpace(input, pos);
      ok := Space();
      if !ok {
        return;
      }
      if Sees(SMALL_N) {
        summary := summary.(nulls := summary.nulls + {key});
        ok := Literal(NULL_WORD);
      } else {
        summary := summary.(nulls := summary.nulls - {key});
        var n;
        ok, n := Integer();
        summary := summary.(numbers := summary.numbers[key := n]);
      }
      if ok {
        Off(old(Here()), 0);
      }
    }

    method ResourceAddress() returns (ok: bool)
      requires Valid() && !capturing
      modifies this
      ensures ok <==> StepFits(AddressAt(env, input, old(pos), old(State())), old(depth))
      ensures ok ==>
        var st := AddressAt(env, input, old(pos), old(State())).value;
        Valid() && Moved(old(Here()), st.end, st.height, st.f)
      decreases |input| - pos, 5
    {
      hide Follows, CaptureAt, SpaceEnd;
      ok := Space();
      if !ok {
        return;
      }
      if Sees(SMALL_N) {
        ok := Literal(NULL_WORD);
        if ok {
          Off(old(Here()), 0);
        }
        return;
      }
      if !Sees(QUOTE) {
        return false;
      }
      var omitted, raw;
      ok, omitted, raw := DecodePreview(ADDRESS_BYTES);
      if !ok {
        return;
      }
      var text := OMITTED;
      if !omitted {
        var decoded := env.decodeText(raw);
        if decoded.None? {
          return false;
        }
        text := decoded.value;
      }
      entry := entry.(resource := entry.resource.Mark(Address, omitted).(address := text));
      Off(old(Here()), AddressAt(env, input, old(pos), old(State())).value.height);
    }

    method ResourceValue(key: Text) returns (ok: bool)
      requires Valid() && !capturing
      modifies this
      ensures
        var run := match ValueField(key)
          case None => Still(ValueAt(input, old(pos)), old(State()))
          case Some(field) => FieldAt(env, input, old(pos), field, old(State()));
        && (ok <==> StepFits(run, old(depth)))
        && (ok ==> Valid() && Moved(old(Here()), run.value.end, run.value.height, run.value.f))
      decreases |input| - pos, 5
    {
      hide Follows, CaptureAt, ValueAt, ValueField;
      var field := ValueField(key);
      if field.None? {
        ok := Skip();
        return;
      }
      var omitted, raw;
      ok, omitted, raw := DecodePreview(VALUE_BYTES);
      if !ok {
        return;
      }
      var v := Null;
      if !omitted {
        var decoded := env.decode(raw);
        if decoded.None? {
          return false;
        }
        v := decoded.value;
      }
      entry := entry.(resource := entry.resource.Mark(field.value, omitted).Set(field.value, v));
    }

    // ----- the plan -----

    /** A short string, or null, which leaves the target alone. */
    method Version() returns (ok: bool, text: Option<Text>)
      requires Valid() && !capturing
      modifies this`pos, this`output, this`truncated
      ensures
        var v := VersionAt(env, input, old(pos));
        && (ok <==> v.Some?)
        && (ok ==> Valid() && Moved(old(Here()), v.value.0, 0, old(State())) && text == v.value.1)
    {
      hide Follows, StringEnd, SpaceEnd, KeptEnd;
      text := None;
      ok := Space();
      if !ok {
        return;
      }
      if Sees(SMALL_N) {
        ok := Literal(NULL_WORD);
      } else {
        var value, cut;
        ok, value, cut := StringToken(NAME_BYTES);
        text := Some(value);
      }
      if ok {
        Off(old(Here()), 0);
      }
    }

    method Action(details: bool) returns (ok: bool)
      requires Valid() && !capturing
      modifies this
      ensures ok <==> StepFits(RunItem(env, input, old(pos), ActionItem(details), old(State())), old(depth))
      ensures ok ==>
        var st := RunItem(env, input, old(pos), ActionItem(details), old(State())).value;
        Valid() && Moved(old(Here()), st.end, st.height, st.f)
      decreases |input| - pos, 6
    {
      hide Follows, VersionAt, AddAction;
      var text;
      ok, text := Version();
      if ok {
        acts := AddAction(acts, text.GetOr([]), details);
      }
    }

    /** The actions of one resource, counted; with details, also listed. */
    method ActionList(details: bool) returns (ok: bool)
      requires Valid() && !capturing
      modifies this
      ensures ok <==> StepFits(ActionsAt(env, input, old(pos), details, old(State())), old(depth))
      ensures ok ==>
        var st := ActionsAt(env, input, old(pos), details, old(State())).value;
        Valid() && Moved(old(Here()), st.end, st.height, st.f)
      decreases |input| - pos, 4
    {
      hide Follows, ContainerRun, SpaceEnd;
      ok := Space();
      if !ok {
        return;
      }
      var list := if details && Sees(OPEN_ARRAY) then Some([]) else None;
      acts := PlanReview.ActionList(list, NO_COUNTS, true, false);
      ok := Container(ActionItem(details));
      if ok {
        var resource := entry.resource.(actions := acts.list).Mark(Actions, acts.omitted);
        entry := Entry(resource, acts.counts, !acts.valid);
        Off(old(Here()), ActionsAt(env, input, old(pos), details, old(State())).value.height);
      }
    }

    /** One resource: read it, then count it and keep or omit it. */
    method Resource() returns (ok: bool)
      requires Valid() && !capturing
      modifies this
      ensures ok <==> StepFits(EntryAt(env, input, old(pos), old(State())), old(depth))
      ensures ok ==>
        var st := EntryAt(env, input, old(pos), old(State())).value;
        Valid() && Moved(old(Here()), st.end, st.height, st.f)
      decreases |input| - pos, 5
    {
      hide Follows, ContainerRun, Tape.Sound, Preview.Fits, Preview.CanRetain, Preview.Keep, Preview.Omit, Counts.Plus;
      var details := env.render.Some? && preview.CanRetain(|review.changes|);
      entry := NO_ENTRY;
      ok := Container(EntryMember(details));
      if !ok {
        return;
      }
      review := review.(counts := review.counts.Plus(entry.counts), invalid := review.invalid || entry.invalid);
      if env.render.None? {
        return;
      }
      if !details {
        preview := preview.Omit();
        return;
      }
      var change := env.render.value(rendered, entry.resource);
      if change.None? {
        return false;
      }
      rendered := rendered + 1;
      if preview.Fits(change.value) {
        preview := preview.Keep(change.value);
        review := review.(changes := review.changes + [change.value]);
      } else {
        preview := preview.Omit();
      }
    }

    method Resources() returns (ok: bool)
      requires Valid() && !capturing
      modifies this
      ensures
        var run := ContainerRun(env, input, old(pos), EntryItem, old(State()).(review := NO_REVIEW, preview := NO_PREVIEW));
        && (ok <==> StepFits(run, old(depth)))
        && (ok ==> Valid() && Moved(old(Here()), run.value.end, run.value.height, run.value.f))
      decreases |input| - pos, 1
    {
      hide Follows, ContainerRun;
      review, preview := NO_REVIEW, NO_PREVIEW;
      ok := Container(EntryItem);
    }

    /** The Terraform pass over a fresh reader. */
    method TerraformPass() returns (ok: bool)
      requires Valid() && !capturing && pos == 0 && depth == 0 && State() == START
      modifies this
      ensures ok <==> Terraform(env, input).Some?
      ensures ok ==> Valid() && pos == Terraform(env, input).value.end && State() == Terraform(env, input).value.f
    {
      hide Follows, ContainerRun;
      ok := Container(RootMember);
      ok := ok && version != [] && !review.invalid && (env.render.None? || VersionOne(version));
    }

    /** The pass over a summary object with a fresh reader. */
    method SummarizePass() returns (ok: bool)
      requires Valid() && !capturing && pos == 0 && depth == 0 && State() == START
      modifies this
      ensures ok <==> SummaryPass(env, input).Some?
      ensures ok ==> Valid() && pos == SummaryPass(env, input).value.end && State() == SummaryPass(env, input).value.f
    {
      hide Follows, ContainerRun;
      ok := Container(SummaryMember);
      ok := ok && summary.Accepted();
    }

    /** Only white space is left. */
    method Finish() returns (ok: bool)
      requires Valid()
      modifies this`pos, this`output, this`truncated
      ensures ok <==> SpaceEnd(input, old(pos)) == |input|
    {
      hide Follows;
      var more := Space();
      ok := !more;
    }
  }

  /** The gate: the counts of a Terraform plan or of a summary, while validating all of it. */
  method ParseGateReview(env: Env, raw: seq<byte>, terraform: bool) returns (r: Option<Counts>)
    ensures r == if terraform then GateCounts(env, raw) else SummaryCounts(env, raw)
    ensures forall c :: r == Some(c) <==> PlanMeaning.Means(env, terraform, raw, c)
  {
    hide Terraform, SummaryPass, CountsOf, PlanMeaning.Means;
    forall c
      ensures (if terraform then GateCounts(env, raw) else SummaryCounts(env, raw)) == Some(c)
        <==> PlanMeaning.Means(env, terraform, raw, c)
    {
      PlanMeaning.GateAnswers(env, terraform, raw, c);
    }
    var ok, counts;
    if terraform {
      var s := new ReviewJSON(env.Counting(), raw);
      ok := s.TerraformPass();
      counts := s.review.counts;
      if ok {
        ok := s.Finish();
      }
    } else {
      var s := new ReviewJSON(env, raw);
      ok := s.SummarizePass();
      counts := NO_COUNTS;
      if ok {
        SummaryAccepted(env, raw);
        counts := CountsOf(s.summary);
        ok := s.Finish();
      }
    }
    r := if ok then Some(counts) else None;
  }

  lemma SummaryAccepted(env: Env, s: seq<byte>)
    ensures SummaryPass(env, s).Some? ==> SummaryPass(env, s).value.f.summary.Accepted()
  {
    hide ContainerRun;
  }

  /** The preview shown before a plan is approved. */
  method TerraformPreview(env: Env, raw: seq<byte>) returns (r: Option<Response>)
    requires env.render.Some?
    ensures r == PreviewResponse(env, raw)
    ensures r.Some? ==> PlanMeaning.Accounts(env, raw, r.value)
  {
    hide Terraform, PlanMeaning.Accounts;
    if PreviewResponse(env, raw).Some? {
      PlanMeaning.PreviewAccounts(env, raw);
    }
    var s := new ReviewJSON(env, raw);
    var ok := s.TerraformPass();
    var response := Response(s.review.changes, s.preview.truncated, s.preview.omitted);
    if ok {
      ok := s.Finish();
    }
    r := if ok then Some(response) else None;
  }
}
