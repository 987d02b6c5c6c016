/**
 * The double items of the reply grammar with the conversion that the reader
 * uses: the text is converted as a whole, and out of range numbers are refused.
 */
module DoubleItems {
  import opened Bytes
  import opened Decimal
  import opened Binary64
  import opened Rounding
  import opened NumberString
  import opened Conversion
  import opened Resp
  import NumberText
  import ReplyText

  /** General format, a leading plus allowed, and a point. */
  const OPTIONS := Options(true, true, false, true, false, 46)

  const SIGN_BIT: nat := 0x8000_0000_0000_0000

  lemma ReadNonNegative(l: Layout)
    requires WellFormed(l)
    ensures AsRead(l) >= 0.0
  {
    hide DecimalValue, Value;
    DecimalLinear(Value(AllDigitsOf(l)), ParsedPlace(l));
  }

  /** The bits of the double that a text is converted to, unless it is refused. */
  function BitsOf(s: seq<Byte>): Option<nat> {
    if s == [] then None
    else
      match LayoutOf(s, OPTIONS)
      case Err(_) => None
      case Ok(l) =>
        ReadNonNegative(l);
        var word := Rounded(AsRead(l));
        if l.end != |s| || word == INFINITY || (word == 0 && Value(AllDigitsOf(l)) != 0) then None
        else Some(if l.negative then SIGN_BIT + word else word)
  }

  /** `ffc_from_chars_double_options` and what the reader makes of it. */
  method DoubleBits(s: seq<Byte>) returns (bits: Option<nat>)
    ensures bits == BitsOf(s)
  {
    hide LayoutOf, AsRead, Denoted, BothOut, ExactExponent, RoundsTo, Value, Rounded;
    if s == [] {
      return None;
    }
    var res := FromChars(s, OPTIONS);
    if res.Err? {
      return None;
    }
    ghost var l := LayoutOf(s, OPTIONS).value;
    assert WellFormed(l);
    ReadNonNegative(l);
    RoundingUnique(AsRead(l), res.value.am.Word(), Rounded(AsRead(l)));
    if res.value.outOfRange || res.value.end != |s| {
      return None;
    }
    var word := res.value.am.Word();
    bits := Some(if res.value.negative then SIGN_BIT + word else word);
  }

  /** The digits of a number string are bytes of it. */
  lemma FewDigits(s: seq<Byte>, o: Options)
    requires s != [] && LayoutOf(s, o).Ok?
    ensures |AllDigitsOf(LayoutOf(s, o).value)| <= |s|
  {
    hide ExponentAt, DigitRun, StartOf, IntFault, FractionFault;
  }

  /** A finite double of a reply has the text's sign, is not infinite, and is correctly rounded: always for what is read, and
      exactly if the exponent is not cut or this does not matter for what is written, as in every text below 2^27 bytes. */
  lemma FiniteIsRounded(maxElements: int, s: seq<Byte>, bits: nat)
    requires LineValue(Limits(maxElements, BitsOf), Double, s) == Ok(DoubleReply(Finite(bits), s))
    ensures s != [] && LayoutOf(s, OPTIONS).Ok?
    ensures var l := LayoutOf(s, OPTIONS).value;
      && l.end == |s| && (l.negative <==> bits >= SIGN_BIT)
      && var word := if l.negative then bits - SIGN_BIT else bits;
      && word < INFINITY && RoundsTo(AsRead(l), word)
      && (RoundsTo(Denoted(l), word) <==> ExactExponent(l) || BothOut(l))
      && (|s| < 0x800_0000 ==> RoundsTo(Denoted(l), word))
  {
    hide LayoutOf, AsRead, Denoted, BothOut, ExactExponent, RoundsTo, Value, Rounded;
    var l := LayoutOf(s, OPTIONS).value;
    assert WellFormed(l);
    ReadNonNegative(l);
    RightForDenoted(l, Rounded(AsRead(l)));
    FewDigits(s, OPTIONS);
    if !ExactExponent(l) && |s| < 0x800_0000 {
      FarOut(l);
    }
  }

  /** A complete number string is refused exactly if it is read as a number that rounds to infinity, or to zero though it is not zero. */
  lemma RefusedExactly(s: seq<Byte>)
    requires s != [] && LayoutOf(s, OPTIONS).Ok? && LayoutOf(s, OPTIONS).value.end == |s|
    ensures var l := LayoutOf(s, OPTIONS).value;
      BitsOf(s) == None <==> Huge(AsRead(l)) || (Negligible(AsRead(l)) && Value(AllDigitsOf(l)) != 0)
  {
    hide LayoutOf, AsRead, RoundsTo, Value, Rounded, Huge, Negligible;
    var l := LayoutOf(s, OPTIONS).value;
    assert WellFormed(l);
    ReadNonNegative(l);
    var x := AsRead(l);
    HugeRounds(x);
    NegligibleRounds(x);
    if Huge(x) {
      RoundingUnique(x, INFINITY, Rounded(x));
    }
    if Negligible(x) {
      RoundingUnique(x, 0, Rounded(x));
    }
  }

  /** The bits are those of the finite double nearest to x, with a sign. */
  predicate Nearest(x: real, negative: bool, bits: nat) {
    if negative then SIGN_BIT <= bits < SIGN_BIT + INFINITY && RoundsTo(x, bits - SIGN_BIT)
    else bits < INFINITY && RoundsTo(x, bits)
  }

  /** A number that is too large, or too small without being zero. */
  predicate Beyond(n: NumberText.Numeral)
    requires n.Valid()
  {
    Huge(Written(n)) || (Negligible(Written(n)) && Value(n.Digits()) != 0)
  }

  /** The text of a number is converted to the double nearest to it, with its sign; refused is exactly what is out of range. */
  lemma NumberConverted(n: NumberText.Numeral)
    requires n.Valid() && n.Moderate()
    ensures match BitsOf(n.Text('.' as int))
      case None => Beyond(n)
      case Some(bits) => !Beyond(n) && Nearest(Written(n), n.sign.Minus?, bits)
  {
    hide BitsOf, LayoutOf, AsRead, RoundsTo, Value, Rounded, Huge, Negligible, Written;
    hide NumberText.Numeral.Text, NumberText.Numeral.Digits, NumberText.Numeral.Moderate;
    NumberText.TextParts(n, OPTIONS);
    var l := n.Parts(46);
    assert WellFormed(l);
    ReadNonNegative(l);
    BitsOfLayout(n.Text(46), l);
    var word := Rounded(AsRead(l));
    NumeralRead(n, OPTIONS, word);
    DigitsSame(n);
    EndOfRange(Written(n), word);
  }

  lemma BitsOfLayout(s: seq<Byte>, l: Layout)
    requires s != [] && LayoutOf(s, OPTIONS) == Ok(l) && l.end == |s| && WellFormed(l) && AsRead(l) >= 0.0
    ensures var word := Rounded(AsRead(l));
      BitsOf(s) == if word == INFINITY || (word == 0 && Value(AllDigitsOf(l)) != 0) then None
                   else Some(if l.negative then SIGN_BIT + word else word)
  {
    hide LayoutOf, AsRead, Value, Rounded;
  }

  lemma EndOfRange(x: real, word: nat)
    requires RoundsTo(x, word)
    ensures (word == INFINITY <==> Huge(x)) && (word == 0 <==> Negligible(x)) && word <= INFINITY
  {
    hide RoundsTo, Huge, Negligible;
    HugeRounds(x);
    NegligibleRounds(x);
    if Huge(x) {
      RoundingUnique(x, INFINITY, word);
    }
    if Negligible(x) {
      RoundingUnique(x, 0, word);
    }
    WordInRange(x, word);
  }

  lemma WordInRange(x: real, word: nat)
    requires RoundsTo(x, word)
    ensures word <= INFINITY
  {
  }

  lemma DigitsSame(n: NumberText.Numeral)
    requires n.Valid()
    ensures AllDigitsOf(n.Parts(46)) == n.Digits()
  {
  }

  /** Nothing but the text of a number is converted. */
  lemma OnlyNumbers(s: seq<Byte>) returns (n: NumberText.Numeral)
    requires BitsOf(s).Some?
    ensures n.Valid() && s == n.Text('.' as int)
  {
    n := NumberText.OnlyTexts(s, OPTIONS);
  }

  /** A double item on the wire: a comma, the text of a number and CRLF are a reply with the double that the text is converted to. */
  lemma DoubleItem(maxElements: int, n: NumberText.Numeral, bits: nat)
    requires n.Valid() && BitsOf(n.Text('.' as int)) == Some(bits)
    ensures var text := n.Text('.' as int);
      ReplyText.Encodes(Limits(maxElements, BitsOf), DoubleReply(Finite(bits), text), Ascii(",") + text + CRLF)
  {
    hide BitsOf, NumberText.Numeral.Text;
    var lim, text := Limits(maxElements, BitsOf), n.Text(46);
    PlainNumber(n);
    assert ReplyText.LineOf(lim, ',', text, DoubleReply(Finite(bits), text));
    assert ReplyText.Line(',', text) == Ascii(",") + text + CRLF;
  }

  /** The text of a number is one line, and not the name of a double. */
  lemma PlainNumber(n: NumberText.Numeral)
    requires n.Valid()
    ensures var s := n.Text(46);
      && ReplyText.OneLine(s)
      && !ReplyText.AnyCase(s, "inf") && !ReplyText.Signed(s, "inf") && !ReplyText.AnyCase(s, "nan") && !ReplyText.Signed(s, "nan")
  {
    var s := n.Text(46);
    NumberText.TextBytes(n, 46);
    hide NumberText.Numeral.Text;
    assert |s| == 3 ==> NumberText.NumberByte(s[0], 46) && NumberText.NumberByte(s[1], 46);
    assert |s| == 4 ==> NumberText.NumberByte(s[1], 46) && NumberText.NumberByte(s[2], 46) && s[1..][0] == s[1] && s[1..][1] == s[2];
  }
}
