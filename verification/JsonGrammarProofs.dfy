/**
 The scanner functions accept exactly the grammar. Completeness: bytes written
 by a tree are scanned to their end. Soundness: scanned bytes have a tree.
 */
module JsonGrammarProofs {
  import opened Common
  import opened JsonBytes
  import opened JsonScan
  import opened JsonGrammar

  /** `r` is exactly the bytes of `s` from `i` to `j`. */
  predicate Spans(s: seq<byte>, i: nat, j: nat, r: seq<byte>) {
    At(s, i, r) && j == i + |r|
  }

  // ----- runs of white space and digits -----

  lemma SpaceEndIs(s: seq<byte>, i: nat, w: seq<byte>)
    requires At(s, i, w) && IsBlank(w)
    requires i + |w| < |s| ==> !IsSpace(s[i + |w|])
    ensures SpaceEnd(s, i) == i + |w|
  {
    forall k | i <= k < i + |w| ensures IsSpace(s[k]) {
      assert s[i + (k - i)] == w[k - i];
    }
  }

  lemma DigitRunIs(s: seq<byte>, i: nat, d: seq<byte>)
    requires At(s, i, d) && IsDigits(d)
    requires i + |d| < |s| ==> !IsDigit(s[i + |d|])
    ensures DigitsEnd(s, i) == Some(i + |d|)
  {
    forall k | i <= k < i + |d| ensures IsDigit(s[k]) {
      assert s[i + (k - i)] == d[k - i];
    }
  }

  lemma FirstAt(s: seq<byte>, i: nat, r: seq<byte>)
    requires At(s, i, r) && |r| > 0
    ensures i < |s| && s[i] == r[0]
  {
    assert s[i + 0] == r[0];
  }

  lemma AtSliceOf(s: seq<byte>, i: nat, j: nat)
    requires i <= j <= |s|
    ensures Spans(s, i, j, s[i..j])
  {
  }

  lemma BlankSlice(s: seq<byte>, i: nat)
    requires i <= |s|
    ensures var w := s[i..SpaceEnd(s, i)]; IsBlank(w) && Spans(s, i, SpaceEnd(s, i), w)
  {
  }

  // ----- numbers -----

  function ExpBytes(e: Option<Exponent>): seq<byte> {
    if e.Some? then e.value.Render() else []
  }

  /** The byte at `j`, if any, does not go on from a numeral with exponent `e`. */
  predicate ExpStops(s: seq<byte>, j: nat, e: Option<Exponent>) {
    j < |s| ==> if e.Some? then !IsDigit(s[j]) else s[j] != SMALL_E && s[j] != BIG_E
  }

  lemma ExponentComplete(s: seq<byte>, i: nat, e: Option<Exponent>)
    requires At(s, i, ExpBytes(e)) && (e.Some? ==> e.value.WF())
    requires ExpStops(s, i + |ExpBytes(e)|, e)
    ensures ExponentEnd(s, i) == Some(i + |ExpBytes(e)|)
  {
    match e {
      case None =>
      case Some(x) =>
        var sign := if x.sign.Some? then [x.sign.value] else [];
        assert x.Render() == [x.e] + (sign + x.digits);
        AtSplit(s, i, [x.e], sign + x.digits);
        AtSplit(s, i + 1, sign, x.digits);
        FirstAt(s, i, [x.e]);
        FirstAt(s, i + 1 + |sign|, x.digits);
        if x.sign.Some? { FirstAt(s, i + 1, sign); }
        DigitRunIs(s, i + 1 + |sign|, x.digits);
    }
  }

  lemma NumberTailComplete(s: seq<byte>, i: nat, n: Numeral)
    requires n.WF() && At(s, i, n.Tail())
    requires var j := i + |n.Tail()|; j < |s| ==> !n.GoesOn(s[j])
    ensures NumberTailEnd(s, i) == Some(i + |n.Tail()|)
  {
    hide At, ExponentEnd;
    var frac := if n.frac.Some? then [POINT] + n.frac.value else [];
    AtSplit(s, i, frac, ExpBytes(n.exp));
    ExponentComplete(s, i + |frac|, n.exp);
    if n.frac.Some? {
      AtSplit(s, i, [POINT], n.frac.value);
      FirstAt(s, i, [POINT]);
      if n.exp.Some? { FirstAt(s, i + |frac|, ExpBytes(n.exp)); }
      DigitRunIs(s, i + 1, n.frac.value);
    } else if n.exp.Some? {
      FirstAt(s, i, ExpBytes(n.exp));
    }
  }

  lemma TailFirst(n: Numeral)
    requires n.WF()
    ensures |n.Tail()| == 0 <==> n.frac.None? && n.exp.None?
    ensures |n.Tail()| > 0 ==> var b := n.Tail()[0]; b == POINT || b == SMALL_E || b == BIG_E
  {
  }

  /** Digits of the integer part, then the tail. */
  lemma WholeComplete(s: seq<byte>, a: nat, n: Numeral)
    requires n.WF() && At(s, a, n.whole) && At(s, a + |n.whole|, n.Tail())
    requires var j := a + |n.whole| + |n.Tail()|; j < |s| ==> !n.GoesOn(s[j])
    ensures a < |s| && s[a] == n.whole[0]
    ensures s[a] == ZERO ==> NumberTailEnd(s, a + 1) == Some(a + |n.whole| + |n.Tail()|)
    ensures s[a] != ZERO ==>
      DigitsEnd(s, a) == Some(a + |n.whole|)
      && NumberTailEnd(s, a + |n.whole|) == Some(a + |n.whole| + |n.Tail()|)
  {
    hide At, ExponentEnd;
    FirstAt(s, a, n.whole);
    TailFirst(n);
    NumberTailComplete(s, a + |n.whole|, n);
    if n.whole[0] != ZERO {
      if |n.Tail()| > 0 {
        FirstAt(s, a + |n.whole|, n.Tail());
      }
      DigitRunIs(s, a, n.whole);
    }
  }

  lemma NumberComplete(s: seq<byte>, i: nat, n: Numeral)
    requires n.WF() && At(s, i, n.Render())
    requires Delimited(Number(n), s, i + |n.Render()|)
    ensures NumberEnd(s, i) == Some(i + |n.Render()|)
  {
    hide At, NumberTailEnd, DigitsEnd;
    var minus := if n.minus then [MINUS] else [];
    var a := i + |minus|;
    AtSplit(s, i, minus, n.whole + n.Tail());
    AtSplit(s, a, n.whole, n.Tail());
    if n.minus { FirstAt(s, i, minus); }
    WholeComplete(s, a, n);
  }

  lemma DigitsSound(s: seq<byte>, i: nat)
    requires i <= |s| && DigitsEnd(s, i).Some?
    ensures var j := DigitsEnd(s, i).value;
      IsDigits(s[i..j]) && Spans(s, i, j, s[i..j]) && (j < |s| ==> !IsDigit(s[j]))
  {
  }

  lemma ExponentSpan(s: seq<byte>, i: nat, x: Exponent, j: nat)
    requires i < |s| && s[i] == x.e
    requires x.sign.Some? ==> i + 1 < |s| && s[i + 1] == x.sign.value
    requires Spans(s, if x.sign.Some? then i + 2 else i + 1, j, x.digits)
    ensures Spans(s, i, j, x.Render())
  {
    hide At;
    AtOne(s, i, x.e);
    if x.sign.Some? {
      AtOne(s, i + 1, x.sign.value);
      AtSplit(s, i, [x.e], [x.sign.value]);
      AtSplit(s, i, [x.e] + [x.sign.value], x.digits);
    } else {
      assert [x.e] + [] == [x.e];
      AtSplit(s, i, [x.e], x.digits);
    }
  }

  lemma ExponentSound(s: seq<byte>, i: nat) returns (e: Option<Exponent>)
    requires i <= |s| && ExponentEnd(s, i).Some?
    ensures e.Some? ==> e.value.WF()
    ensures var j := ExponentEnd(s, i).value; Spans(s, i, j, ExpBytes(e)) && ExpStops(s, j, e)
  {
    hide At;
    var j := ExponentEnd(s, i).value;
    if i == |s| || (s[i] != SMALL_E && s[i] != BIG_E) {
      e := None;
      AtNone(s, i);
    } else {
      var signed := i + 1 < |s| && (s[i + 1] == PLUS || s[i + 1] == MINUS);
      var d := if signed then i + 2 else i + 1;
      DigitsSound(s, d);
      e := Some(Exponent(s[i], if signed then Some(s[i + 1]) else None, s[d..j]));
      ExponentSpan(s, i, e.value, j);
    }
  }

  lemma NumberTailSound(s: seq<byte>, i: nat, minus: bool, whole: seq<byte>) returns (n: Numeral)
    requires i <= |s| && NumberTailEnd(s, i).Some?
    requires IsDigits(whole) && (|whole| > 1 ==> whole[0] != ZERO)
    requires i < |s| ==> whole == [ZERO] || !IsDigit(s[i])
    ensures n.minus == minus && n.whole == whole && n.WF()
    ensures var j := NumberTailEnd(s, i).value; Spans(s, i, j, n.Tail()) && (j < |s| ==> !n.GoesOn(s[j]))
  {
    hide At, DigitsEnd;
    AtNone(s, i);
    AtOne(s, i, POINT);
    if i < |s| && s[i] == POINT {
      DigitsSound(s, i + 1);
      var k := DigitsEnd(s, i + 1).value;
      var e := ExponentSound(s, k);
      n := Numeral(minus, whole, Some(s[i + 1..k]), e);
      AtSplit(s, i, [POINT], s[i + 1..k]);
      AtSplit(s, i, [POINT] + s[i + 1..k], ExpBytes(e));
    } else {
      var e := ExponentSound(s, i);
      n := Numeral(minus, whole, None, e);
      AtSplit(s, i, [], ExpBytes(e));
    }
  }

  lemma NumberSound(s: seq<byte>, i: nat) returns (n: Numeral)
    requires i <= |s| && NumberEnd(s, i).Some?
    ensures n.WF()
    ensures var j := NumberEnd(s, i).value; Spans(s, i, j, n.Render()) && Delimited(Number(n), s, j)
  {
    hide At, NumberTailEnd;
    var minus := i < |s| && s[i] == MINUS;
    var a := if minus then i + 1 else i;
    var b := if s[a] == ZERO then a + 1 else DigitsEnd(s, a).value;
    if s[a] != ZERO { DigitsSound(s, a); }
    var whole := s[a..b];
    AtSliceOf(s, a, b);
    AtOne(s, i, MINUS);
    AtNone(s, i);
    n := NumberTailSound(s, b, minus, whole);
    AtSplit(s, a, whole, n.Tail());
    AtSplit(s, i, if minus then [MINUS] else [], whole + n.Tail());
  }

  // ----- strings -----

  lemma UnitComplete(s: seq<byte>, i: nat, a: Atom)
    requires a.WF() && At(s, i, a.Render())
    ensures UnitAt(s, i) == Chunk(|a.Render()|)
  {
    var r := a.Render();
    assert s[i + 0] == r[0];
    if !a.Plain? {
      assert s[i + 1] == r[1];
    }
    if a.Unicode? {
      forall k | i + 2 <= k < i + 6 ensures IsHex(s[k]) {
        assert s[i + (k - i)] == r[k - i] == a.hex[k - i - 2];
      }
    }
  }

  lemma UnitSound(s: seq<byte>, i: nat) returns (a: Atom)
    requires i <= |s| && UnitAt(s, i).Chunk?
    ensures a.WF() && Spans(s, i, i + UnitAt(s, i).n, a.Render())
  {
    match UnitAt(s, i).n {
      case 1 => a := Plain(s[i]);
      case 2 => a := Escape(s[i + 1]);
      case _ => a := Unicode(s[i + 2..i + 6]);
    }
  }

  lemma {:induction false} StringBodyComplete(s: seq<byte>, i: nat, atoms: seq<Atom>)
    requires AtomsWF(atoms) && At(s, i, RenderAtoms(atoms) + [QUOTE])
    ensures StringBodyEnd(s, i) == Some(i + |RenderAtoms(atoms)| + 1)
    decreases |atoms|
  {
    if atoms == [] {
      FirstAt(s, i, RenderAtoms(atoms) + [QUOTE]);
    } else {
      var r := atoms[0].Render();
      var rest := RenderAtoms(atoms[1..]) + [QUOTE];
      assert RenderAtoms(atoms) + [QUOTE] == r + rest;
      AtSplit(s, i, r, rest);
      UnitComplete(s, i, atoms[0]);
      StringBodyComplete(s, i + |r|, atoms[1..]);
    }
  }

  lemma StringComplete(s: seq<byte>, i: nat, atoms: seq<Atom>)
    requires AtomsWF(atoms) && At(s, i, RenderString(atoms))
    ensures StringEnd(s, i) == Some(i + |RenderString(atoms)|)
  {
    assert RenderString(atoms) == [QUOTE] + (RenderAtoms(atoms) + [QUOTE]);
    AtSplit(s, i, [QUOTE], RenderAtoms(atoms) + [QUOTE]);
    FirstAt(s, i, [QUOTE]);
    StringBodyComplete(s, i + 1, atoms);
  }

  lemma {:induction false} StringBodySound(s: seq<byte>, i: nat) returns (atoms: seq<Atom>)
    requires i <= |s| && StringBodyEnd(s, i).Some?
    ensures AtomsWF(atoms) && Spans(s, i, StringBodyEnd(s, i).value, RenderAtoms(atoms) + [QUOTE])
    decreases |s| - i
  {
    hide At, UnitAt;
    match UnitAt(s, i) {
      case Closing =>
        atoms := [];
        AtOne(s, i, QUOTE);
        assert RenderAtoms(atoms) + [QUOTE] == [QUOTE];
      case Chunk(n) =>
        var first := UnitSound(s, i);
        var rest := StringBodySound(s, i + n);
        atoms := [first] + rest;
        assert atoms[1..] == rest;
        AtSplit(s, i, first.Render(), RenderAtoms(rest) + [QUOTE]);
        assert RenderAtoms(atoms) + [QUOTE] == first.Render() + (RenderAtoms(rest) + [QUOTE]);
    }
  }

  lemma StringSound(s: seq<byte>, i: nat) returns (atoms: seq<Atom>)
    requires i <= |s| && StringEnd(s, i).Some?
    ensures AtomsWF(atoms) && Spans(s, i, StringEnd(s, i).value, RenderString(atoms))
  {
    hide At, StringBodyEnd;
    atoms := StringBodySound(s, i + 1);
    AtOne(s, i, QUOTE);
    AtSplit(s, i, [QUOTE], RenderAtoms(atoms) + [QUOTE]);
    assert RenderString(atoms) == [QUOTE] + (RenderAtoms(atoms) + [QUOTE]);
  }

  // ----- completeness for values -----

  /** A rendered value starts with a byte that is neither white space nor punctuation. */
  lemma ValueFirst(v: Value)
    requires ValueWF(v)
    ensures |Render(v)| > 0
    ensures var b := Render(v)[0];
      !IsSpace(b) && b != CLOSE_ARRAY && b != CLOSE_OBJECT && b != COMMA
    ensures v.Number? ==> var b := Render(v)[0]; b == MINUS || IsDigit(b)
  {
    match v {
      case Number(n) =>
        if !n.minus { assert n.Render()[0] == n.whole[0]; }
      case _ =>
    }
  }

  /** So the scanner finds the value without moving. */
  lemma ValueLead(s: seq<byte>, i: nat, v: Value)
    requires ValueWF(v) && At(s, i, Render(v))
    ensures i < |s| && s[i] == Render(v)[0] && SpaceEnd(s, i) == i
  {
    ValueFirst(v);
    FirstAt(s, i, Render(v));
    SpaceEndIs(s, i, []);
  }

  lemma ValueSkipsSpace(s: seq<byte>, i: nat)
    requires i <= |s|
    ensures ValueAt(s, i) == ValueAt(s, SpaceEnd(s, i))
  {
    SpaceEndIs(s, SpaceEnd(s, i), []);
  }

  lemma FlatComplete(s: seq<byte>, i: nat, v: Value)
    requires ValueWF(v) && At(s, i, Render(v)) && !v.Hollow? && !v.Full?
    requires Delimited(v, s, i + |Render(v)|)
    ensures ValueAt(s, i) == Some(Extent(i + |Render(v)|, 0))
  {
    hide At, NumberEnd, StringEnd, SpaceEnd;
    ValueFirst(v);
    ValueLead(s, i, v);
    match v {
      case Number(n) => NumberComplete(s, i, n);
      case String(atoms) => StringComplete(s, i, atoms);
      case _ =>
    }
  }

  lemma HollowComplete(s: seq<byte>, i: nat, keyed: bool, gap: seq<byte>)
    requires IsBlank(gap) && At(s, i, Render(Hollow(keyed, gap)))
    ensures ValueAt(s, i) == Some(Extent(i + |gap| + 2, 1))
  {
    hide At;
    AtSplit(s, i, [Opening(keyed)], gap + [Closer(keyed)]);
    AtSplit(s, i + 1, gap, [Closer(keyed)]);
    FirstAt(s, i, [Opening(keyed)]);
    FirstAt(s, i + 1 + |gap|, [Closer(keyed)]);
    SpaceEndIs(s, i, []);
    SpaceEndIs(s, i + 1, gap);
  }

  /** The start of a container that is not empty: the items decide. */
  lemma OpenComplete(s: seq<byte>, i: nat, keyed: bool, b: nat)
    requires i < |s| && s[i] == Opening(keyed)
    requires SpaceEnd(s, i + 1) == b < |s| && s[b] != Closer(keyed)
    ensures ValueAt(s, i) == ItemsAt(s, b, keyed, 0)
  {
    hide ItemsAt, SpaceEnd;
    SpaceEndIs(s, i, []);
  }

  lemma {:induction false} ValueComplete(s: seq<byte>, i: nat, v: Value)
    requires ValueWF(v) && At(s, i, Render(v))
    requires Delimited(v, s, i + |Render(v)|)
    ensures ValueAt(s, i) == Some(Extent(i + |Render(v)|, Height(v)))
    decreases v, 0
  {
    hide At, ValueAt, ItemsAt, SpaceEnd, RenderEntries;
    match v {
      case Hollow(keyed, gap) => HollowComplete(s, i, keyed, gap);
      case Full(keyed, es) =>
        AtSplit(s, i, [Opening(keyed)], RenderEntries(es) + [Closer(keyed)]);
        FirstAt(s, i, [Opening(keyed)]);
        EntriesLead(s, i + 1, es, keyed);
        OpenComplete(s, i, keyed, i + 1 + |es.e.before|);
        EntriesComplete(s, i + 1, es, keyed, 0);
      case _ => FlatComplete(s, i, v);
    }
  }

  lemma EntryFirst(e: Entry, keyed: bool)
    requires EntryWF(e, keyed)
    ensures |RenderEntry(e)| > 0
    ensures var b := RenderEntry(e)[0]; !IsSpace(b) && b != Closer(keyed) && b != COMMA
  {
    ValueFirst(e.v);
    if keyed {
      assert RenderString(e.name.value.atoms)[0] == QUOTE;
    }
  }

  /** What follows the first entry, up to and including the closing bracket. */
  function AfterEntry(es: Entries, keyed: bool): (r: seq<byte>)
    ensures |r| > 0 && (r[0] == COMMA || r[0] == Closer(keyed))
  {
    if es.More? then [COMMA] + (RenderEntries(es.rest) + [Closer(keyed)]) else [Closer(keyed)]
  }

  lemma EntriesShape(es: Entries, keyed: bool)
    ensures RenderEntries(es) + [Closer(keyed)] == es.e.before + (RenderEntry(es.e) + AfterEntry(es, keyed))
  {
  }

  lemma EntriesParts(s: seq<byte>, i: nat, es: Entries, keyed: bool)
    requires At(s, i, RenderEntries(es) + [Closer(keyed)])
    ensures At(s, i, es.e.before)
    ensures At(s, i + |es.e.before|, RenderEntry(es.e))
    ensures At(s, i + |es.e.before| + |RenderEntry(es.e)|, AfterEntry(es, keyed))
  {
    EntriesShape(es, keyed);
    AtSplit(s, i, es.e.before, RenderEntry(es.e) + AfterEntry(es, keyed));
    AtSplit(s, i + |es.e.before|, RenderEntry(es.e), AfterEntry(es, keyed));
  }

  /** White space before the first entry is skipped and the container is not closed there. */
  lemma EntriesLead(s: seq<byte>, i: nat, es: Entries, keyed: bool)
    requires EntriesWF(es, keyed) && At(s, i, RenderEntries(es) + [Closer(keyed)])
    ensures var b := i + |es.e.before|; SpaceEnd(s, i) == b && b < |s| && s[b] != Closer(keyed)
  {
    EntriesParts(s, i, es, keyed);
    EntryFirst(es.e, keyed);
    FirstAt(s, i + |es.e.before|, RenderEntry(es.e));
    SpaceEndIs(s, i, es.e.before);
  }

  lemma NameComplete(s: seq<byte>, i: nat, n: Name, v: Value)
    requires AtomsWF(n.atoms) && IsBlank(n.before) && IsBlank(n.after) && ValueWF(v)
    requires At(s, i, RenderName(Some(n)))
    requires At(s, i + |RenderName(Some(n))|, Render(v))
    ensures MemberAt(s, i) == ValueAt(s, i + |RenderName(Some(n))|)
  {
    hide At, ValueAt, SpaceEnd, StringEnd, Render;
    var str := RenderString(n.atoms);
    var k := i + |RenderName(Some(n))|;
    AtSplit(s, i, str, n.before + ([COLON] + n.after));
    AtSplit(s, i + |str|, n.before, [COLON] + n.after);
    AtSplit(s, i + |str| + |n.before|, [COLON], n.after);
    StringComplete(s, i, n.atoms);
    FirstAt(s, i + |str| + |n.before|, [COLON]);
    SpaceEndIs(s, i + |str|, n.before);
    ValueFirst(v);
    ValueLead(s, k, v);
    SpaceEndIs(s, k - |n.after|, n.after);
    ValueSkipsSpace(s, k - |n.after|);
  }

  /** One entry is scanned to the end of its value; the white space after it leads to the next mark. */
  lemma {:induction false} EntryComplete(s: seq<byte>, i: nat, e: Entry, keyed: bool)
    requires EntryWF(e, keyed) && At(s, i, RenderEntry(e))
    requires var j := i + |RenderEntry(e)|; j < |s| && (s[j] == COMMA || s[j] == Closer(keyed))
    ensures
      var x := ItemAt(s, i, keyed);
      x == Some(Extent(i + |RenderEntry(e)| - |e.after|, Height(e.v)))
      && SpaceEnd(s, x.value.end) == i + |RenderEntry(e)|
    decreases e, 1
  {
    hide At, ValueAt, SpaceEnd, Render, MemberAt;
    var k := i + |RenderName(e.name)|;
    AtSplit(s, i, RenderName(e.name), Render(e.v) + e.after);
    AtSplit(s, k, Render(e.v), e.after);
    if |e.after| > 0 { FirstAt(s, k + |Render(e.v)|, e.after); }
    ValueComplete(s, k, e.v);
    SpaceEndIs(s, k + |Render(e.v)|, e.after);
    if keyed {
      NameComplete(s, i, e.name.value, e.v);
    }
  }

  function ItemAt(s: seq<byte>, i: nat, keyed: bool): Option<Extent>
    requires i <= |s|
  {
    if keyed then MemberAt(s, i) else ValueAt(s, i)
  }

  /** One turn of the item loop. */
  lemma ItemsStep(s: seq<byte>, i: nat, keyed: bool, acc: nat)
    requires i <= |s| && ItemAt(s, i, keyed).Some?
    ensures
      var x := ItemAt(s, i, keyed).value;
      var a := SpaceEnd(s, x.end);
      ItemsAt(s, i, keyed, acc) ==
        if a == |s| then None
        else if s[a] == Closer(keyed) then Some(Extent(a + 1, 1 + Max(acc, x.height)))
        else if s[a] != COMMA || SpaceEnd(s, a + 1) == |s| then None
        else ItemsAt(s, SpaceEnd(s, a + 1), keyed, Max(acc, x.height))
  {
    hide ValueAt, MemberAt, SpaceEnd, Max;
  }

  lemma ItemsSome(s: seq<byte>, i: nat, keyed: bool, acc: nat)
    requires i <= |s| && ItemsAt(s, i, keyed, acc).Some?
    ensures ItemAt(s, i, keyed).Some?
  {
  }

  lemma {:induction false} EntriesComplete(s: seq<byte>, i: nat, es: Entries, keyed: bool, acc: nat)
    requires EntriesWF(es, keyed) && At(s, i, RenderEntries(es) + [Closer(keyed)])
    ensures i + |es.e.before| <= |s|
    ensures ItemsAt(s, i + |es.e.before|, keyed, acc)
      == Some(Extent(i + |RenderEntries(es)| + 1, 1 + Max(acc, Tallest(es))))
    decreases es, 2
  {
    hide At, ValueAt, MemberAt, ItemsAt, SpaceEnd, Render, RenderEntry, RenderEntries;
    EntriesParts(s, i, es, keyed);
    EntriesShape(es, keyed);
    var b := i + |es.e.before|;
    var j := b + |RenderEntry(es.e)|;
    FirstAt(s, j, AfterEntry(es, keyed));
    EntryComplete(s, b, es.e, keyed);
    ItemsStep(s, b, keyed, acc);
    if es.More? {
      AtSplit(s, j, [COMMA], RenderEntries(es.rest) + [Closer(keyed)]);
      EntriesLead(s, j + 1, es.rest, keyed);
      EntriesComplete(s, j + 1, es.rest, keyed, Max(acc, Height(es.e.v)));
    }
  }

  // ----- soundness for values -----

  lemma {:induction false} ValueSound(s: seq<byte>, i: nat) returns (v: Value)
    requires i <= |s| && ValueAt(s, i).Some?
    ensures ValueWF(v) && Height(v) == ValueAt(s, i).value.height
    ensures var j := ValueAt(s, i).value.end; Spans(s, SpaceEnd(s, i), j, Render(v)) && Delimited(v, s, j)
    decreases |s| - i, 2
  {
    var a := SpaceEnd(s, i);
    if s[a] == OPEN_OBJECT {
      v := ContainerSound(s, a, true);
    } else if s[a] == OPEN_ARRAY {
      v := ContainerSound(s, a, false);
    } else if s[a] == QUOTE {
      var atoms := StringSound(s, a);
      v := String(atoms);
    } else if s[a] == SMALL_T {
      v := TrueLiteral;
    } else if s[a] == SMALL_F {
      v := FalseLiteral;
    } else if s[a] == SMALL_N {
      v := NullLiteral;
    } else {
      var n := NumberSound(s, a);
      v := Number(n);
    }
  }

  lemma {:induction false} ContainerSound(s: seq<byte>, i: nat, keyed: bool) returns (v: Value)
    requires i < |s| && s[i] == Opening(keyed) && ContainerAt(s, i, keyed).Some?
    ensures ValueWF(v) && !v.Number? && Height(v) == ContainerAt(s, i, keyed).value.height
    ensures Spans(s, i, ContainerAt(s, i, keyed).value.end, Render(v))
    decreases |s| - i, 1
  {
    hide At, ItemsAt, SpaceEnd, RenderEntries;
    SpaceEndIs(s, i, []);
    var b := SpaceEnd(s, i + 1);
    var gap := s[i + 1..b];
    BlankSlice(s, i + 1);
    AtOne(s, i, Opening(keyed));
    AtOne(s, b, Closer(keyed));
    if s[b] == Closer(keyed) {
      v := Hollow(keyed, gap);
      AtSplit(s, i + 1, gap, [Closer(keyed)]);
      AtSplit(s, i, [Opening(keyed)], gap + [Closer(keyed)]);
    } else {
      var es := ItemsSound(s, b, keyed, 0, i + 1);
      v := Full(keyed, es);
      AtSplit(s, i, [Opening(keyed)], RenderEntries(es) + [Closer(keyed)]);
    }
  }

  /** Items from `i`, with the white space from `g` to `i` before the first. */
  lemma {:induction false} ItemsSound(s: seq<byte>, i: nat, keyed: bool, acc: nat, g: nat) returns (es: Entries)
    requires g <= i <= |s| && ItemsAt(s, i, keyed, acc).Some? && SpaceEnd(s, g) == i
    ensures EntriesWF(es, keyed) && ItemsAt(s, i, keyed, acc).value.height == 1 + Max(acc, Tallest(es))
    ensures Spans(s, g, ItemsAt(s, i, keyed, acc).value.end, RenderEntries(es) + [Closer(keyed)])
    decreases |s| - i, 4
  {
    hide At, ItemsAt, ValueAt, MemberAt, SpaceEnd, Render, RenderEntry, ItemAt;
    BlankSlice(s, g);
    AtNone(s, i);
    SpaceEndIs(s, i, []);
    ItemsSome(s, i, keyed, acc);
    ItemsStep(s, i, keyed, acc);
    var x := ItemAt(s, i, keyed).value;
    var e0 := EntrySound(s, i, keyed);
    var a := SpaceEnd(s, x.end);
    var e := PadEntry(s, g, i, e0, x.end, keyed);
    AtOne(s, a, s[a]);
    if s[a] == Closer(keyed) {
      es := Last(e);
    } else {
      var b := SpaceEnd(s, a + 1);
      var rest := ItemsSound(s, b, keyed, Max(acc, x.height), a + 1);
      es := More(e, rest);
      AtSplit(s, a, [COMMA], RenderEntries(rest) + [Closer(keyed)]);
    }
    EntriesShape(es, keyed);
    AtSplit(s, i, RenderEntry(e), AfterEntry(es, keyed));
    AtSplit(s, g, e.before, RenderEntry(e) + AfterEntry(es, keyed));
  }

  /** Add to a bare entry the white space found on both sides. */
  lemma PadEntry(s: seq<byte>, g: nat, i: nat, bare: Entry, j: nat, keyed: bool) returns (e: Entry)
    requires g <= i <= j <= |s| && SpaceEnd(s, g) == i
    requires EntryWF(bare, keyed) && bare.after == [] && Spans(s, i, j, RenderEntry(bare))
    ensures EntryWF(e, keyed) && e.v == bare.v
    ensures Spans(s, g, i, e.before) && Spans(s, i, SpaceEnd(s, j), RenderEntry(e))
  {
    hide At, SpaceEnd, Render, RenderName;
    BlankSlice(s, g);
    BlankSlice(s, j);
    var after := s[j..SpaceEnd(s, j)];
    e := bare.(before := s[g..i], after := after);
    assert RenderEntry(e) == RenderEntry(bare) + after;
    AtSplit(s, i, RenderEntry(bare), after);
  }

  lemma {:induction false} EntrySound(s: seq<byte>, i: nat, keyed: bool) returns (e: Entry)
    requires i <= |s| && SpaceEnd(s, i) == i
    requires ItemAt(s, i, keyed).Some?
    ensures EntryWF(e, keyed) && e.before == [] && e.after == []
    ensures var x := ItemAt(s, i, keyed).value;
      Height(e.v) == x.height && Spans(s, i, x.end, RenderEntry(e))
    decreases |s| - i, 3
  {
    hide At, ValueAt, SpaceEnd, Render, StringEnd;
    if keyed {
      var k := StringEnd(s, i).value;
      var a := SpaceEnd(s, k);
      var b := SpaceEnd(s, a + 1);
      var atoms := StringSound(s, i);
      var v := ValueSound(s, a + 1);
      BlankSlice(s, k);
      BlankSlice(s, a + 1);
      AtOne(s, a, COLON);
      var n := Name(atoms, s[k..a], s[a + 1..b]);
      e := Entry([], Some(n), v, []);
      AtSplit(s, a, [COLON], n.after);
      AtSplit(s, k, n.before, [COLON] + n.after);
      AtSplit(s, i, RenderString(atoms), n.before + ([COLON] + n.after));
      assert Render(v) + [] == Render(v);
      AtSplit(s, i, RenderName(Some(n)), Render(v));
    } else {
      var v := ValueSound(s, i);
      e := Entry([], None, v, []);
      assert RenderEntry(e) == Render(v);
    }
  }

  // ----- the theorems -----

  /**
   From any offset the scanner takes a value exactly when the bytes after the
   white space are a well-formed value that no longer number continues; the
   value then is the whole token and the nesting is that of the tree.
   */
  lemma ScanIsGrammar(s: seq<byte>, i: nat, x: Extent)
    requires i <= |s|
    ensures ValueAt(s, i) == Some(x) <==>
      exists v :: ValueWF(v) && At(s, SpaceEnd(s, i), Render(v))
        && x == Extent(SpaceEnd(s, i) + |Render(v)|, Height(v)) && Delimited(v, s, x.end)
  {
    hide ValueAt, SpaceEnd, Render;
    var a := SpaceEnd(s, i);
    if ValueAt(s, i) == Some(x) {
      var v := ValueSound(s, i);
      assert At(s, a, Render(v));
    }
    forall v | ValueWF(v) && At(s, a, Render(v)) && x == Extent(a + |Render(v)|, Height(v)) && Delimited(v, s, x.end)
      ensures ValueAt(s, i) == Some(x)
    {
      ValueComplete(s, a, v);
      ValueSkipsSpace(s, i);
    }
  }

  /** Without the condition on what follows, starting with an RFC 8259 value is not enough: `1.x`. */
  lemma NumberPrefixRefused()
    ensures
      var s := [49, POINT, 120];
      var one := Number(Numeral(false, [49], None, None));
      ValueWF(one) && At(s, 0, Render(one)) && ValueAt(s, 0) == None
  {
    var s: seq<byte> := [49, POINT, 120];
    SpaceEndIs(s, 0, []);
    DigitRunIs(s, 0, [49]);
    assert DigitsEnd(s, 2) == None;
    assert NumberTailEnd(s, 1) == None;
    assert NumberEnd(s, 0) == None;
  }

  /** A whole input, as the scanner followed by the end check takes it. */
  predicate AcceptsDocument(s: seq<byte>) {
    var r := ValueAt(s, 0);
    r.Some? && r.value.height <= MAX_DEPTH && SpaceEnd(s, r.value.end) == |s|
  }

  /** Whole inputs need no side condition: exactly the JSON texts nested at most 10000 deep. */
  lemma DocumentIsGrammar(s: seq<byte>)
    ensures AcceptsDocument(s) <==>
      exists d: Document :: d.WF() && d.Bytes() == s && Height(d.v) <= 10000
  {
    if AcceptsDocument(s) {
      var d := DocumentSound(s);
      assert d.WF() && d.Bytes() == s;
    }
    forall d: Document | d.WF() && d.Bytes() == s && Height(d.v) <= MAX_DEPTH
      ensures AcceptsDocument(s)
    {
      DocumentComplete(s, d);
    }
  }

  lemma DocumentSound(s: seq<byte>) returns (d: Document)
    requires AcceptsDocument(s)
    ensures d.WF() && d.Bytes() == s && Height(d.v) <= MAX_DEPTH
  {
    hide At, ValueAt, SpaceEnd, Render;
    var x := ValueAt(s, 0).value;
    var a := SpaceEnd(s, 0);
    var v := ValueSound(s, 0);
    BlankSlice(s, 0);
    BlankSlice(s, x.end);
    d := Document(s[..a], v, s[x.end..]);
    AtIsSlice(s, a, Render(v));
  }

  lemma DocumentComplete(s: seq<byte>, d: Document)
    requires d.WF() && d.Bytes() == s
    ensures ValueAt(s, 0) == Some(Extent(|s| - |d.after|, Height(d.v)))
    ensures SpaceEnd(s, |s| - |d.after|) == |s|
  {
    hide At, ValueAt, SpaceEnd, Render;
    var r := Render(d.v);
    var a := |d.before|;
    AtSliceOf(s, 0, |s|);
    assert s[0..|s|] == s;
    AtSplit(s, 0, d.before, r + d.after);
    AtSplit(s, a, r, d.after);
    ValueFirst(d.v);
    ValueLead(s, a, d.v);
    SpaceEndIs(s, 0, d.before);
    if |d.after| > 0 { FirstAt(s, a + |r|, d.after); }
    ValueComplete(s, a, d.v);
    ValueSkipsSpace(s, 0);
    SpaceEndIs(s, a + |r|, d.after);
  }
}
