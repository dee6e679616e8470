/**
 The JSON grammar of RFC 8259, sections 2 to 7, as concrete syntax trees: a
 well-formed tree and the bytes it stands for. Nothing here mentions the scanner.
 Section 7 speaks of characters; here, as in the scanner, a string unit of 0x80
 or above is a single unchecked byte.
 */
module JsonGrammar {
  import opened Common
  import opened JsonBytes

  /** section 7: one unit of a string */
  datatype Atom = Plain(b: byte) | Escape(b: byte) | Unicode(hex: seq<byte>) {
    predicate WF() {
      match this
      case Plain(b) => b >= 0x20 && b != QUOTE && b != BACKSLASH
      case Escape(b) => IsEscape(b)
      case Unicode(hex) => |hex| == 4 && forall k :: 0 <= k < 4 ==> IsHex(hex[k])
    }

    function Render(): seq<byte> {
      match this
      case Plain(b) => [b]
      case Escape(b) => [BACKSLASH, b]
      case Unicode(hex) => [BACKSLASH, SMALL_U] + hex
    }
  }

  predicate AtomsWF(atoms: seq<Atom>) {
    forall k :: 0 <= k < |atoms| ==> atoms[k].WF()
  }

  function RenderAtoms(atoms: seq<Atom>): seq<byte> {
    if atoms == [] then [] else atoms[0].Render() + RenderAtoms(atoms[1..])
  }

  function RenderString(atoms: seq<Atom>): seq<byte> {
    [QUOTE] + RenderAtoms(atoms) + [QUOTE]
  }

  /** section 6: exp = e [ minus / plus ] 1*DIGIT */
  datatype Exponent = Exponent(e: byte, sign: Option<byte>, digits: seq<byte>) {
    predicate WF() {
      (e == SMALL_E || e == BIG_E)
      && (sign.Some? ==> sign.value == PLUS || sign.value == MINUS)
      && IsDigits(digits)
    }

    function Render(): seq<byte> {
      [e] + (if sign.Some? then [sign.value] else []) + digits
    }
  }

  predicate IsDigits(d: seq<byte>) {
    |d| > 0 && forall k :: 0 <= k < |d| ==> IsDigit(d[k])
  }

  predicate IsBlank(w: seq<byte>) {
    forall k :: 0 <= k < |w| ==> IsSpace(w[k])
  }

  /** section 6: number = [ minus ] int [ frac ] [ exp ] */
  datatype Numeral = Numeral(minus: bool, whole: seq<byte>, frac: Option<seq<byte>>, exp: Option<Exponent>) {
    predicate WF() {
      IsDigits(whole) && (|whole| > 1 ==> whole[0] != ZERO)
      && (frac.Some? ==> IsDigits(frac.value))
      && (exp.Some? ==> exp.value.WF())
    }

    function Tail(): seq<byte> {
      (if frac.Some? then [POINT] + frac.value else [])
      + (if exp.Some? then exp.value.Render() else [])
    }

    function Render(): seq<byte> {
      (if minus then [MINUS] else []) + (whole + Tail())
    }

    /** The byte `b` after this number could still be read as part of a number. */
    predicate GoesOn(b: byte) {
      if exp.Some? then IsDigit(b)
      else if frac.Some? then IsDigit(b) || b == SMALL_E || b == BIG_E
      else (IsDigit(b) && whole != [ZERO]) || b == POINT || b == SMALL_E || b == BIG_E
    }
  }

  /** section 3: values; sections 4 and 5: objects and arrays, both as entries between brackets */
  datatype Value =
    | NullLiteral
    | TrueLiteral
    | FalseLiteral
    | Number(n: Numeral)
    | String(atoms: seq<Atom>)
    | Hollow(keyed: bool, gap: seq<byte>)
    | Full(keyed: bool, entries: Entries)

  /** section 4: the name of a member and the white space around its colon */
  datatype Name = Name(atoms: seq<Atom>, before: seq<byte>, after: seq<byte>)

  datatype Entry = Entry(before: seq<byte>, name: Option<Name>, v: Value, after: seq<byte>)

  datatype Entries = Last(e: Entry) | More(e: Entry, rest: Entries)

  predicate ValueWF(v: Value) {
    match v
    case Number(n) => n.WF()
    case String(atoms) => AtomsWF(atoms)
    case Hollow(_, gap) => IsBlank(gap)
    case Full(keyed, entries) => EntriesWF(entries, keyed)
    case _ => true
  }

  predicate EntryWF(e: Entry, keyed: bool) {
    IsBlank(e.before) && IsBlank(e.after) && ValueWF(e.v)
    && (e.name.Some? <==> keyed)
    && (e.name.Some? ==> AtomsWF(e.name.value.atoms) && IsBlank(e.name.value.before) && IsBlank(e.name.value.after))
  }

  predicate EntriesWF(es: Entries, keyed: bool) {
    EntryWF(es.e, keyed) && (es.More? ==> EntriesWF(es.rest, keyed))
  }

  function Render(v: Value): seq<byte> {
    match v
    case NullLiteral => NULL_WORD
    case TrueLiteral => TRUE_WORD
    case FalseLiteral => FALSE_WORD
    case Number(n) => n.Render()
    case String(atoms) => RenderString(atoms)
    case Hollow(keyed, gap) => [Opening(keyed)] + (gap + [Closer(keyed)])
    case Full(keyed, entries) => [Opening(keyed)] + (RenderEntries(entries) + [Closer(keyed)])
  }

  function RenderName(name: Option<Name>): seq<byte> {
    match name
    case None => []
    case Some(n) => RenderString(n.atoms) + (n.before + ([COLON] + n.after))
  }

  /** An entry without the white space before it. */
  function RenderEntry(e: Entry): seq<byte> {
    RenderName(e.name) + (Render(e.v) + e.after)
  }

  function RenderEntries(es: Entries): seq<byte> {
    match es
    case Last(e) => e.before + RenderEntry(e)
    case More(e, rest) => e.before + (RenderEntry(e) + ([COMMA] + RenderEntries(rest)))
  }

  /** How many containers are open at the innermost point. */
  function Height(v: Value): nat {
    match v
    case Hollow(_, _) => 1
    case Full(_, entries) => 1 + Tallest(entries)
    case _ => 0
  }

  function Tallest(es: Entries): nat {
    match es
    case Last(e) => Height(e.v)
    case More(e, rest) => Max(Height(e.v), Tallest(rest))
  }

  /** section 2: JSON-text = ws value ws */
  datatype Document = Document(before: seq<byte>, v: Value, after: seq<byte>) {
    predicate WF() {
      IsBlank(before) && IsBlank(after) && ValueWF(v)
    }

    function Bytes(): seq<byte> {
      before + (Render(v) + after)
    }
  }

  /** A value that ends at `j` in `s` and is not the start of a longer number. */
  predicate Delimited(v: Value, s: seq<byte>, j: nat) {
    v.Number? && j < |s| ==> !v.n.GoesOn(s[j])
  }
}
