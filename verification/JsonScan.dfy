/**
 What the hand-written scanner accepts, as pure functions from an offset to the
 offset just after the token. The reader class is proved against these
 functions, and these functions are proved against the grammar of RFC 8259.
 */
module JsonScan {
  import opened Common
  import opened JsonBytes

  /** The nesting ceiling of the scanner. */
  const MAX_DEPTH: nat := 10000

  function SpaceEnd(s: seq<byte>, i: nat): (j: nat)
    requires i <= |s|
    ensures i <= j <= |s|
    ensures forall k :: i <= k < j ==> IsSpace(s[k])
    ensures j < |s| ==> !IsSpace(s[j])
    decreases |s| - i
  {
    if i < |s| && IsSpace(s[i]) then SpaceEnd(s, i + 1) else i
  }

  function LiteralEnd(s: seq<byte>, i: nat, word: seq<byte>): (r: Option<nat>)
    requires i <= |s|
    ensures r.Some? <==> At(s, i, word)
    ensures r.Some? ==> r.value == i + |word|
  {
    if At(s, i, word) then Some(i + |word|) else None
  }

  /** End of the maximal run of digits from `i`. */
  function DigitRun(s: seq<byte>, i: nat): (j: nat)
    requires i <= |s|
    ensures i <= j <= |s|
    ensures forall k :: i <= k < j ==> IsDigit(s[k])
    ensures j < |s| ==> !IsDigit(s[j])
    decreases |s| - i
  {
    if i < |s| && IsDigit(s[i]) then DigitRun(s, i + 1) else i
  }

  function DigitsEnd(s: seq<byte>, i: nat): (r: Option<nat>)
    requires i <= |s|
    ensures r.Some? ==> i < r.value <= |s|
  {
    if i < |s| && IsDigit(s[i]) then Some(DigitRun(s, i)) else None
  }

  function ExponentEnd(s: seq<byte>, i: nat): (r: Option<nat>)
    requires i <= |s|
    ensures r.Some? ==> i <= r.value <= |s|
  {
    if i == |s| || (s[i] != SMALL_E && s[i] != BIG_E) then Some(i)
    else if i + 1 < |s| && (s[i + 1] == PLUS || s[i + 1] == MINUS) then DigitsEnd(s, i + 2)
    else DigitsEnd(s, i + 1)
  }

  function NumberTailEnd(s: seq<byte>, i: nat): (r: Option<nat>)
    requires i <= |s|
    ensures r.Some? ==> i <= r.value <= |s|
  {
    if i == |s| then Some(i)
    else if s[i] == POINT then
      match DigitsEnd(s, i + 1)
      case None => None
      case Some(j) => ExponentEnd(s, j)
    else ExponentEnd(s, i)
  }

  function NumberEnd(s: seq<byte>, i: nat): (r: Option<nat>)
    requires i <= |s|
    ensures r.Some? ==> i < r.value <= |s|
  {
    var a := if i < |s| && s[i] == MINUS then i + 1 else i;
    if a == |s| then None
    else if s[a] == ZERO then NumberTailEnd(s, a + 1)
    else
      match DigitsEnd(s, a)
      case None => None
      case Some(j) => NumberTailEnd(s, j)
  }

  /** One unit of a string body: the closing quote, a unit of `n` bytes, or an error. */
  datatype Unit = Malformed | Closing | Chunk(n: nat)

  function UnitAt(s: seq<byte>, i: nat): (u: Unit)
    requires i <= |s|
    ensures u.Closing? ==> i < |s| && s[i] == QUOTE
    ensures u.Chunk? ==> 1 <= u.n <= 6 && i + u.n <= |s|
  {
    if i == |s| then Malformed
    else if s[i] == QUOTE then Closing
    else if s[i] < 0x20 then Malformed
    else if s[i] != BACKSLASH then Chunk(1)
    else if i + 1 == |s| then Malformed
    else if IsEscape(s[i + 1]) then Chunk(2)
    else if s[i + 1] == SMALL_U && i + 6 <= |s| && forall k :: i + 2 <= k < i + 6 ==> IsHex(s[k]) then Chunk(6)
    else Malformed
  }

  function StringBodyEnd(s: seq<byte>, i: nat): (r: Option<nat>)
    requires i <= |s|
    ensures r.Some? ==> i < r.value <= |s|
    decreases |s| - i
  {
    match UnitAt(s, i)
    case Malformed => None
    case Closing => Some(i + 1)
    case Chunk(n) => StringBodyEnd(s, i + n)
  }

  function StringEnd(s: seq<byte>, i: nat): (r: Option<nat>)
    requires i <= |s|
    ensures r.Some? ==> i < r.value <= |s|
  {
    if i < |s| && s[i] == QUOTE then StringBodyEnd(s, i + 1) else None
  }

  /** Where a value ends and how deeply its containers nest. */
  datatype Extent = Extent(end: nat, height: nat)

  /** A value with optional leading white space. */
  function ValueAt(s: seq<byte>, i: nat): (r: Option<Extent>)
    requires i <= |s|
    ensures r.Some? ==> i < r.value.end <= |s|
    decreases |s| - i, 2
  {
    var j := SpaceEnd(s, i);
    if j == |s| then None
    else if s[j] == OPEN_OBJECT then ContainerAt(s, j, true)
    else if s[j] == OPEN_ARRAY then ContainerAt(s, j, false)
    else if s[j] == QUOTE then Flat(StringEnd(s, j))
    else if s[j] == SMALL_T then Flat(LiteralEnd(s, j, TRUE_WORD))
    else if s[j] == SMALL_F then Flat(LiteralEnd(s, j, FALSE_WORD))
    else if s[j] == SMALL_N then Flat(LiteralEnd(s, j, NULL_WORD))
    else Flat(NumberEnd(s, j))
  }

  function Flat(end: Option<nat>): Option<Extent> {
    match end
    case None => None
    case Some(j) => Some(Extent(j, 0))
  }

  /** An object or array; like the source it also takes the word null. */
  function ContainerAt(s: seq<byte>, i: nat, keyed: bool): (r: Option<Extent>)
    requires i <= |s|
    ensures r.Some? ==> i < r.value.end <= |s|
    decreases |s| - i, 1
  {
    var a := SpaceEnd(s, i);
    if a == |s| then None
    else if s[a] == SMALL_N then Flat(LiteralEnd(s, a, NULL_WORD))
    else if s[a] != Opening(keyed) then None
    else
      var b := SpaceEnd(s, a + 1);
      if b == |s| then None
      else if s[b] == Closer(keyed) then Some(Extent(b + 1, 1))
      else ItemsAt(s, b, keyed, 0)
  }

  /** The rest of a container from the start of an item; `acc` is the tallest item so far. */
  function ItemsAt(s: seq<byte>, i: nat, keyed: bool, acc: nat): (r: Option<Extent>)
    requires i <= |s|
    ensures r.Some? ==> i < r.value.end <= |s| && acc < r.value.height
    decreases |s| - i, 4
  {
    match if keyed then MemberAt(s, i) else ValueAt(s, i)
    case None => None
    case Some(x) =>
      var a := SpaceEnd(s, x.end);
      if a == |s| then None
      else if s[a] == Closer(keyed) then Some(Extent(a + 1, 1 + Max(acc, x.height)))
      else if s[a] != COMMA then None
      else
        var b := SpaceEnd(s, a + 1);
        if b == |s| then None else ItemsAt(s, b, keyed, Max(acc, x.height))
  }

  function MemberAt(s: seq<byte>, i: nat): (r: Option<Extent>)
    requires i <= |s|
    ensures r.Some? ==> i < r.value.end <= |s|
    decreases |s| - i, 3
  {
    match StringEnd(s, i)
    case None => None
    case Some(k) =>
      var a := SpaceEnd(s, k);
      if a == |s| || s[a] != COLON then None else ValueAt(s, a + 1)
  }
}
