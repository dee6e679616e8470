/** The bytes of RFC 8259 that carry structure, and its classes of bytes. */
module JsonBytes {
  import opened Common

  const TAB: byte := 9
  const LINE_FEED: byte := 10
  const CARRIAGE_RETURN: byte := 13
  const SPACE: byte := 32
  const QUOTE: byte := 34
  const PLUS: byte := 43
  const COMMA: byte := 44
  const MINUS: byte := 45
  const POINT: byte := 46
  const SLASH: byte := 47
  const ZERO: byte := 48
  const NINE: byte := 57
  const COLON: byte := 58
  const BIG_E: byte := 69
  const OPEN_ARRAY: byte := 91
  const BACKSLASH: byte := 92
  const CLOSE_ARRAY: byte := 93
  const SMALL_E: byte := 101
  const SMALL_N: byte := 110
  const SMALL_T: byte := 116
  const SMALL_F: byte := 102
  const SMALL_U: byte := 117
  const OPEN_OBJECT: byte := 123
  const CLOSE_OBJECT: byte := 125

  const NULL_WORD: seq<byte> := [110, 117, 108, 108]
  const TRUE_WORD: seq<byte> := [116, 114, 117, 101]
  const FALSE_WORD: seq<byte> := [102, 97, 108, 115, 101]

  predicate IsSpace(b: byte) {
    b == SPACE || b == TAB || b == CARRIAGE_RETURN || b == LINE_FEED
  }

  predicate IsDigit(b: byte) {
    ZERO <= b <= NINE
  }

  predicate IsHex(b: byte) {
    IsDigit(b) || 97 <= b <= 102 || 65 <= b <= 70
  }

  predicate IsEscape(b: byte) {
    b == QUOTE || b == BACKSLASH || b == SLASH || b == 98 || b == 102
    || b == 110 || b == 114 || b == 116
  }

  function Opening(keyed: bool): byte {
    if keyed then OPEN_OBJECT else OPEN_ARRAY
  }

  function Closer(keyed: bool): byte {
    if keyed then CLOSE_OBJECT else CLOSE_ARRAY
  }
}
