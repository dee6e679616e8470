/** What the two bounded readers keep: values for the preview, and prefixes of names. */
module BoundedCapture {
  import opened Common
  import opened JsonBytes
  import opened JsonScan
  import opened JsonGrammar
  import opened JsonGrammarProofs
  import opened PlanReview

  /**
   A captured value is exactly one grammar value of the input; it is omitted
   exactly when that value is longer than the limit or nests too deeply.
   */
  lemma CaptureExact(s: seq<byte>, i: nat, limit: nat) returns (v: Value)
    requires i <= |s| && CaptureAt(s, i, limit).Some?
    ensures
      var c := CaptureAt(s, i, limit).value;
      && ValueWF(v) && At(s, SpaceEnd(s, i), Render(v)) && c.raw == Render(v)
      && c.x == Extent(SpaceEnd(s, i) + |Render(v)|, Height(v)) && Delimited(v, s, c.x.end)
      && (c.omitted <==> |Render(v)| > limit || Height(v) > PREVIEW_LEVELS)
  {
    hide ValueAt, SpaceEnd, Render, At;
    var a := SpaceEnd(s, i);
    var x := ValueAt(s, a).value;
    ValueSkipsSpace(s, i);
    ScanIsGrammar(s, i, x);
    v :| ValueWF(v) && At(s, a, Render(v)) && x == Extent(a + |Render(v)|, Height(v)) && Delimited(v, s, x.end);
    AtIsSlice(s, a, Render(v));
  }

  /**
   A bounded string keeps the longest prefix of whole characters and escapes
   that fits the limit, closing quote aside, so what is kept is a string again;
   the cut is reported exactly when some character was left out.
   */
  lemma PrefixLongest(s: seq<byte>, i: nat, limit: nat) returns (atoms: seq<Atom>, n: nat)
    requires i <= |s| && StringEnd(s, i).Some? && limit > 0
    ensures AtomsWF(atoms) && Spans(s, i, StringEnd(s, i).value, RenderString(atoms))
    ensures n <= |atoms| && Prefix(s, i, limit) == RenderString(atoms[..n])
    ensures |Prefix(s, i, limit)| <= limit + 1
    ensures Cut(s, i, limit) <==> n < |atoms|
    ensures n < |atoms| ==> |RenderString(atoms[..n + 1])| > limit + 1
  {
    hide At, UnitAt, KeptEnd, StringBodyEnd;
    atoms, n := KeptLongest(s, i + 1, i + 1, limit);
    AtOne(s, i, QUOTE);
    AtSplit(s, i, [QUOTE], RenderAtoms(atoms) + [QUOTE]);
    assert RenderString(atoms) == [QUOTE] + (RenderAtoms(atoms) + [QUOTE]);
  }

  lemma {:induction false} KeptLongest(s: seq<byte>, b: nat, j: nat, limit: nat) returns (atoms: seq<Atom>, n: nat)
    requires b <= j <= |s| && StringBodyEnd(s, j).Some? && 1 + (j - b) <= limit
    ensures AtomsWF(atoms) && Spans(s, j, StringBodyEnd(s, j).value, RenderAtoms(atoms) + [QUOTE])
    ensures n <= |atoms| && s[j..KeptEnd(s, b, j, limit)] == RenderAtoms(atoms[..n])
    ensures 1 + (KeptEnd(s, b, j, limit) - b) <= limit
    ensures UnitAt(s, KeptEnd(s, b, j, limit)).Chunk? <==> n < |atoms|
    ensures n < |atoms| ==> 1 + (j - b) + |RenderAtoms(atoms[..n + 1])| > limit
    decreases |s| - j
  {
    hide At, UnitAt, KeptEnd, StringBodyEnd, Atom.WF, Atom.Render, RenderAtoms;
    KeptStep(s, b, j, limit);
    assert RenderAtoms([]) == [] by { NoAtoms(); }
    var u := UnitAt(s, j);
    if u.Closing? {
      atoms, n := [], 0;
      AtOne(s, j, QUOTE);
      assert RenderAtoms(atoms) + [QUOTE] == [QUOTE];
    } else if 1 + (j - b) + u.n <= limit {
      var first := UnitSound(s, j);
      var rest, m := KeptLongest(s, b, j + u.n, limit);
      atoms, n := [first] + rest, m + 1;
      Prepend(s, j, first, rest, m);
      var k := KeptEnd(s, b, j + u.n, limit);
      assert s[j..k] == s[j..j + u.n] + s[j + u.n..k];
      AtIsSlice(s, j, first.Render());
      if n < |atoms| {
        Prepend(s, j, first, rest, m + 1);
      }
    } else {
      var first := UnitSound(s, j);
      var rest := StringBodySound(s, j + u.n);
      atoms, n := [first] + rest, 0;
      Prepend(s, j, first, rest, 0);
      assert RenderAtoms(atoms[..1]) == first.Render();
    }
  }

  lemma KeptStep(s: seq<byte>, b: nat, j: nat, limit: nat)
    requires b <= j <= |s|
    ensures
      var u := UnitAt(s, j);
      && KeptEnd(s, b, j, limit) == (if u.Chunk? && 1 + (j - b) + u.n <= limit then KeptEnd(s, b, j + u.n, limit) else j)
      && StringBodyEnd(s, j) ==
         match u
         case Malformed => None
         case Closing => Some(j + 1)
         case Chunk(n) => StringBodyEnd(s, j + n)
  {
    hide UnitAt;
  }

  lemma NoAtoms()
    ensures RenderAtoms([]) == []
  {
  }

  lemma Prepend(s: seq<byte>, j: nat, first: Atom, rest: seq<Atom>, m: nat)
    requires m <= |rest|
    ensures
      var atoms := [first] + rest;
      && RenderAtoms(atoms[..m + 1]) == first.Render() + RenderAtoms(rest[..m])
      && (At(s, j, RenderAtoms(atoms) + [QUOTE]) <==>
            At(s, j, first.Render()) && At(s, j + |first.Render()|, RenderAtoms(rest) + [QUOTE]))
      && |RenderAtoms(atoms)| == |first.Render()| + |RenderAtoms(rest)|
      && (first.WF() && AtomsWF(rest) ==> AtomsWF(atoms))
  {
    hide At;
    var atoms := [first] + rest;
    assert atoms[1..] == rest;
    assert atoms[..m + 1][1..] == rest[..m];
    assert RenderAtoms(atoms) + [QUOTE] == first.Render() + (RenderAtoms(rest) + [QUOTE]);
    AtSplit(s, j, first.Render(), RenderAtoms(rest) + [QUOTE]);
  }
}
