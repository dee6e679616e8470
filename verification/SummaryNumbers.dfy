/** The numbers of a summary: decimal literals of 64-bit integers, read for what they write. */
module SummaryNumbers {
  import opened Common
  import opened JsonBytes
  import opened JsonGrammarProofs
  import opened PlanReview
  import opened PlanReviewProofs
  import opened PlanTree
  import G = JsonGrammar

  /** The decimal digits of a number, most significant first. */
  function Digits(n: nat): (d: seq<byte>)
    ensures AllDigits(d) && (n > 0 ==> d[0] != ZERO)
  {
    if n < 10 then [(48 + n) as byte] else Digits(n / 10) + [(48 + n % 10) as byte]
  }

  /** How an integer is written in JSON. */
  function Literal(n: int): seq<byte> {
    if n < 0 then [MINUS] + Digits(-n) else Digits(n)
  }

  predicate InRange(n: int) {
    -9223372036854775808 <= n <= 9223372036854775807
  }

  lemma {:induction false} DecimalOfDigits(n: nat)
    ensures Decimal(Digits(n)) == n
  {
    var d := Digits(n);
    if n < 10 {
      assert d[..0] == [];
    } else {
      DecimalOfDigits(n / 10);
      assert d[..|d| - 1] == Digits(n / 10);
    }
  }

  lemma {:induction false} DigitsOfDecimal(d: seq<byte>)
    requires AllDigits(d) && (|d| > 1 ==> d[0] != ZERO)
    ensures Digits(Decimal(d)) == d
    ensures |d| > 1 ==> Decimal(d) >= 10
    decreases |d|
  {
    var init, last := d[..|d| - 1], d[|d| - 1];
    assert d == init + [last];
    if init != [] {
      assert IsDigit(d[0]) && forall k :: 0 <= k < |init| ==> init[k] == d[k] && IsDigit(d[k]);
      DigitsOfDecimal(init);
      if |init| == 1 {
        assert init[..0] == [];
        assert Decimal(init) == init[0] as int - 48;
      }
      assert IsDigit(last);
      assert Decimal(d) == 10 * Decimal(init) + (last as int - 48);
    } else {
      assert IsDigit(last) && Decimal([]) == 0;
    }
  }

  function Power(k: nat): nat {
    if k == 0 then 1 else 10 * Power(k - 1)
  }

  lemma {:induction false} DigitsShort(n: nat, k: nat)
    requires n < Power(k) && k > 0
    ensures |Digits(n)| <= k
  {
    if n >= 10 {
      DigitsShort(n / 10, k - 1);
    }
  }

  lemma NineteenDigits()
    ensures Power(19) == 10000000000000000000
  {
    assert Power(4) == 10000;
    assert Power(8) == 100000000;
    assert Power(12) == 1000000000000;
    assert Power(16) == 10000000000000000;
  }

  /** Every 64-bit integer is read back from its literal. */
  lemma LiteralsReadBack(n: int)
    requires InRange(n)
    ensures IntegerOf(Literal(n)) == Some(n) && |Literal(n)| <= 20
  {
    hide Digits, Decimal, Power;
    DecimalOfDigits(if n < 0 then -n else n);
    NineteenDigits();
    DigitsShort(if n < 0 then -n else n, 19);
    var raw := Literal(n);
    if n < 0 {
      assert raw[1..] == Digits(-n);
    } else {
      assert IsDigit(Digits(n)[0]);
    }
  }

  /** Without a sign, and leading zeros, which JSON forbids, nothing else reads as this integer; and minus zero reads as 0. */
  lemma ReadFromLiterals(raw: seq<byte>, n: int)
    requires IntegerOf(raw) == Some(n)
    requires var d := if raw != [] && raw[0] == MINUS then raw[1..] else raw; |d| > 1 ==> d[0] != ZERO
    ensures InRange(n) && (raw == Literal(n) || (n == 0 && raw == [MINUS, ZERO]))
  {
    hide Digits, Decimal;
    var minus := raw != [] && raw[0] == MINUS;
    var d := if minus then raw[1..] else raw;
    IntegerParts(raw, n);
    DigitsOfDecimal(d);
    if minus {
      assert raw == [MINUS] + d;
      if n == 0 { ZeroDigits(); }
    }
  }

  lemma ZeroDigits()
    ensures Digits(0) == [ZERO]
  {
  }

  lemma IntegerParts(raw: seq<byte>, n: int)
    requires IntegerOf(raw) == Some(n)
    ensures
      var minus := raw != [] && raw[0] == MINUS;
      var d := if minus then raw[1..] else raw;
      AllDigits(d) && n == (if minus then -1 else 1) * Decimal(d) && InRange(n)
  {
    hide Decimal;
  }

  /** A member of a summary reads as this number exactly when it is written as this number. */
  lemma NumbersExactly(v: G.Value, n: int)
    requires G.ValueWF(v)
    ensures TreeNumber(v) == Some(Some(n)) <==>
      InRange(n) && (G.Render(v) == Literal(n) || (n == 0 && G.Render(v) == [MINUS, ZERO]))
  {
    hide Digits, Decimal, G.Render, IntegerOf, Literal;
    var raw := G.Render(v);
    if TreeNumber(v) == Some(Some(n)) {
      IntegerStarts(raw);
      NumbersHaveNoZeros(v);
      ReadFromLiterals(raw, n);
    }
    if InRange(n) && (raw == Literal(n) || (n == 0 && raw == [MINUS, ZERO])) {
      LiteralsReadBack(n);
      MinusZero();
      IntegerStarts(raw);
      FirstByte(v);
    }
  }

  lemma MinusZero()
    ensures IntegerOf([MINUS, ZERO]) == Some(0)
  {
    assert [MINUS, ZERO][1..] == [ZERO] && [ZERO][..0] == [];
    assert Decimal([ZERO]) == 0;
  }

  /** A value that reads as an integer is a number, and so has no leading zeros. */
  lemma NumbersHaveNoZeros(v: G.Value)
    requires G.ValueWF(v) && IntegerOf(G.Render(v)).Some?
    ensures
      var raw := G.Render(v);
      var d := if raw != [] && raw[0] == MINUS then raw[1..] else raw;
      |d| > 1 ==> d[0] != ZERO
  {
    hide IntegerOf, Decimal;
    var raw := G.Render(v);
    IntegerStarts(raw);
    IntegerParts(raw, IntegerOf(raw).value);
    ValueFirst(v);
    match v {
      case Number(num) =>
        var d := if raw[0] == MINUS then raw[1..] else raw;
        assert IsDigit(num.whole[0]);
        assert d == num.whole + num.Tail();
        TailBreaks(num.whole, num.Tail());
      case _ =>
    }
  }

  lemma TailBreaks(w: seq<byte>, t: seq<byte>)
    ensures t != [] && !IsDigit(t[0]) ==> !AllDigits(w + t)
  {
    if t != [] {
      assert (w + t)[|w|] == t[0];
    }
  }
}
