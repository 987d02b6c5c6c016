/**
 * Number strings by their texts: sign, digits, point and exponent written
 * one after the other, and that exactly these are taken apart again.
 */
module NumberText {
  import opened Bytes
  import opened Decimal
  import opened SlowPath
  import opened NumberString

  datatype Sign = NoSign | Plus | Minus

  datatype Exponent = NoExponent | Exponent(upper: bool, sign: Sign, digits: seq<Byte>)

  /** A number as it is written: at least one digit, and at least one in an exponent. */
  datatype Numeral = Numeral(sign: Sign, intPart: seq<Byte>, fraction: Option<seq<Byte>>, exponent: Exponent)
  {
    predicate Valid() {
      && AllDigits(intPart) && (fraction.Some? ==> AllDigits(fraction.value))
      && (intPart != [] || (fraction.Some? && fraction.value != []))
      && (exponent.Exponent? ==> exponent.digits != [] && AllDigits(exponent.digits))
    }

    /** All digits before the exponent. */
    function Digits(): (s: seq<Byte>)
      requires Valid()
      ensures AllDigits(s)
    {
      intPart + if fraction.Some? then fraction.value else []
    }

    /** The digits of the exponent; none if there is no exponent. */
    function ExponentDigits(): (s: seq<Byte>)
      requires Valid()
      ensures AllDigits(s)
    {
      if exponent.Exponent? then exponent.digits else []
    }

    /** The power of ten that one unit of the last digit stands for. */
    function Place(): int
      requires Valid()
    {
      var e: int := Value(ExponentDigits());
      (if exponent.Exponent? && exponent.sign.Minus? then -e else e) - if fraction.Some? then |fraction.value| else 0
    }

    /** The exponent is small enough to be read as written, or else there are too few digits for it to matter. */
    predicate Moderate()
      requires Valid()
    {
      Value(ExponentDigits()) / 10 < 0x1000_0000 || |Digits()| < 0x800_0000
    }

    /** Under these options, such a number is accepted. */
    predicate Takes(o: Options)
      requires Valid()
    {
      && (sign.Plus? ==> o.leadingPlus && !o.json)
      && (exponent.Exponent? ==> o.scientific) && (exponent.NoExponent? && o.scientific ==> o.fixed)
      && (o.json ==> intPart != [] && (intPart[0] == '0' as int ==> |intPart| == 1) && fraction != Some([]))
      && !IsDigit(o.point) && o.point !in Ascii("+-eE")
    }

    function Text(point: Byte): seq<Byte> {
      SignText(sign) + intPart + FractionText(fraction, point) + ExponentText(exponent)
    }

    /** Its parts, where the parser should find them. */
    function Parts(point: Byte): Layout
      requires Valid()
    {
      Layout(sign.Minus?, intPart, fraction,
             ExponentDigits(), exponent.Exponent? && exponent.sign.Minus?, |Text(point)|)
    }
  }

  function SignText(sign: Sign): seq<Byte> {
    match sign
    case NoSign => []
    case Plus => Ascii("+")
    case Minus => Ascii("-")
  }

  function FractionText(fraction: Option<seq<Byte>>, point: Byte): seq<Byte> {
    if fraction.Some? then [point] + fraction.value else []
  }

  function ExponentText(x: Exponent): seq<Byte> {
    if x.NoExponent? then [] else Ascii(if x.upper then "E" else "e") + SignText(x.sign) + x.digits
  }

  /** A run of digits that ends where no digit follows. */
  lemma RunIs(s: seq<Byte>, p: nat, q: nat)
    requires p <= q <= |s| && AllDigits(s[p..q]) && !DigitAt(s, q)
    ensures DigitRun(s, p) == q
  {
    hide DigitRun;
    assert p <= DigitRun(s, p) < q ==> s[p..q][DigitRun(s, p) - p] == s[DigitRun(s, p)];
  }

  lemma Segment(a: seq<Byte>, b: seq<Byte>, c: seq<Byte>)
    ensures var s := a + b + c;
      && s[|a|..|a| + |b|] == b && s[|a| + |b|..] == c
      && forall k :: 0 <= k < |c| ==> s[|a| + |b| + k] == c[k]
  {
  }

  /** The exponent's letter, sign and digits, place by place. */
  lemma ExponentShape(u: seq<Byte>, x: Exponent)
    requires x.Exponent? && x.digits != []
    ensures var s, e, d := u + ExponentText(x), |u|, |u| + 1 + |SignText(x.sign)|;
      && d < |s| && s[e] == (if x.upper then 'E' as int else 'e' as int)
      && (if x.sign.NoSign? then d == e + 1 else d == e + 2 && s[e + 1] == if x.sign.Minus? then '-' as int else '+' as int)
      && s[d..] == x.digits
  {
    var w, letter, sign := ExponentText(x), Ascii(if x.upper then "E" else "e"), SignText(x.sign);
    Segment(letter, sign, x.digits);
    DropMore(u, w, 1 + |sign|);
    assert sign != [] ==> w[1] == sign[0];
  }

  lemma DropMore(u: seq<Byte>, w: seq<Byte>, k: nat)
    requires k <= |w|
    ensures (u + w)[|u| + k..] == w[k..] && forall i :: 0 <= i < |w| ==> (u + w)[|u| + i] == w[i]
  {
  }

  lemma ExponentFound(u: seq<Byte>, x: Exponent, o: Options)
    requires x.Exponent? ==> x.digits != [] && AllDigits(x.digits) && o.scientific
    requires x.NoExponent? && o.scientific ==> o.fixed
    ensures var s := u + ExponentText(x);
      ExponentAt(s, |u|, o) == if x.NoExponent? then Ok(([], false, |s|)) else Ok((x.digits, x.sign.Minus?, |s|))
  {
    var s := u + ExponentText(x);
    if x.Exponent? {
      ExponentShape(u, x);
      hide ExponentText, ExponentAt;
      ExponentIs(s, |u|, x, o);
    }
  }

  lemma ExponentIs(s: seq<Byte>, e: nat, x: Exponent, o: Options)
    requires x.Exponent? && x.digits != [] && AllDigits(x.digits) && o.scientific
    requires var d := e + 1 + |SignText(x.sign)|;
      && d < |s| && s[e] == (if x.upper then 'E' as int else 'e' as int)
      && (if x.sign.NoSign? then d == e + 1 else d == e + 2 && s[e + 1] == if x.sign.Minus? then '-' as int else '+' as int)
      && s[d..] == x.digits
    ensures ExponentAt(s, e, o) == Ok((x.digits, x.sign.Minus?, |s|))
  {
    var d := e + 1 + |SignText(x.sign)|;
    DigitsFrom(s, d);
    hide DigitRun, AllDigits;
  }

  lemma DigitsFrom(s: seq<Byte>, d: nat)
    requires d < |s| && AllDigits(s[d..])
    ensures DigitAt(s, d) && DigitRun(s, d) == |s| && s[d..DigitRun(s, d)] == s[d..]
  {
    assert s[d..|s|] == s[d..] && s[d] == s[d..][0];
    RunIs(s, d, |s|);
  }

  /** The text of a number, place by place: the sign, the digits in front, and what comes after each part. */
  predicate Shape(n: Numeral, o: Options, s: seq<Byte>, a: nat, b: nat, c: nat) {
    && a <= b <= c <= |s| && s != []
    && a == (if n.sign.NoSign? then 0 else 1) && (a == 1 ==> s[0] == if n.sign.Minus? then '-' as int else '+' as int)
    && s[a..b] == n.intPart
    && (if n.fraction.Some? then b < c && s[b] == o.point && s[b + 1..c] == n.fraction.value else c == b)
    && (c < |s| ==> s[c] == 'e' as int || s[c] == 'E' as int)
  }

  lemma TextShape(n: Numeral, o: Options)
    requires n.Valid()
    ensures var a, b := |SignText(n.sign)|, |SignText(n.sign)| + |n.intPart|;
      Shape(n, o, n.Text(o.point), a, b, b + |FractionText(n.fraction, o.point)|)
  {
    var a, f, x := SignText(n.sign), FractionText(n.fraction, o.point), ExponentText(n.exponent);
    Regroup(a + n.intPart, f, x);
    Segment(a, n.intPart, f + x);
    Segment(a + n.intPart, f, x);
    FractionShape(n, o, n.Text(o.point), |a| + |n.intPart|);
    SignShape(n, o);
  }

  lemma FractionShape(n: Numeral, o: Options, s: seq<Byte>, b: nat)
    requires var f := FractionText(n.fraction, o.point); b + |f| <= |s| && s[b..b + |f|] == f
    ensures n.fraction.Some? ==> b < |s| && s[b] == o.point && s[b + 1..b + 1 + |n.fraction.value|] == n.fraction.value
  {
    if n.fraction.Some? {
      var f := FractionText(n.fraction, o.point);
      assert s[b] == f[0] && f[1..] == n.fraction.value && s[b + 1..b + |f|] == s[b..b + |f|][1..];
    }
  }

  lemma SignShape(n: Numeral, o: Options)
    requires n.Valid()
    ensures n.Text(o.point) != []
    ensures !n.sign.NoSign? ==> n.Text(o.point)[0] == if n.sign.Minus? then '-' as int else '+' as int
  {
  }

  lemma StartFound(n: Numeral, o: Options, s: seq<Byte>, a: nat, b: nat, c: nat)
    requires n.Valid() && n.Takes(o) && Shape(n, o, s, a, b, c)
    ensures StartOf(s, o) == Ok(a) && (s[0] == MINUS <==> n.sign.Minus?)
  {
    assert a < |s|;
    if n.intPart != [] {
      assert s[a] == n.intPart[0];
    } else {
      assert s[a] == o.point;
    }
    assert Ascii("+-eE") == [43, 45, 101, 69];
  }

  lemma RunsFound(n: Numeral, o: Options, s: seq<Byte>, a: nat, b: nat, c: nat)
    requires n.Valid() && n.Takes(o) && Shape(n, o, s, a, b, c)
    ensures DigitRun(s, a) == b && (At(s, b) == o.point <==> n.fraction.Some?)
    ensures n.fraction.Some? ==> b < |s| && DigitRun(s, b + 1) == c
  {
    hide DigitRun, AllDigits;
    assert Ascii("+-eE") == [43, 45, 101, 69];
    RunIs(s, a, b);
    if n.fraction.Some? {
      RunIs(s, b + 1, c);
    }
  }

  lemma DigitsFound(n: Numeral, o: Options, s: seq<Byte>, a: nat, b: nat, c: nat)
    requires n.Valid() && n.Takes(o) && Shape(n, o, s, a, b, c)
    ensures DigitsOf(s, o) == Ok(Digits(a, b, c, n.intPart, n.fraction))
  {
    StartFound(n, o, s, a, b, c);
    RunsFound(n, o, s, a, b, c);
    hide DigitRun, AllDigits, StartOf;
    assert o.json ==> s[a] == n.intPart[0];
  }

  /** The parts of a number's text are found again. */
  lemma TextParts(n: Numeral, o: Options)
    requires n.Valid() && n.Takes(o)
    ensures n.Text(o.point) != [] && LayoutOf(n.Text(o.point), o) == Ok(n.Parts(o.point))
  {
    hide DigitsOf, ExponentAt, ExponentText, FractionText, SignText;
    var u, s := SignText(n.sign) + n.intPart + FractionText(n.fraction, o.point), n.Text(o.point);
    var a, b := |SignText(n.sign)|, |SignText(n.sign)| + |n.intPart|;
    TextShape(n, o);
    StartFound(n, o, s, a, b, |u|);
    DigitsFound(n, o, s, a, b, |u|);
    ExponentFound(u, n.exponent, o);
  }

  /** The exponent that a string ends with. */
  lemma ExponentWritten(s: seq<Byte>, e: nat, o: Options) returns (x: Exponent)
    requires e <= |s| && !o.fortran && ExponentAt(s, e, o).Ok? && ExponentAt(s, e, o).value.2 == |s|
    ensures s[e..] == ExponentText(x)
    ensures x.Exponent? ==> x.digits != [] && AllDigits(x.digits) && o.scientific
    ensures x.NoExponent? && o.scientific ==> o.fixed
  {
    if e == |s| {
      NoneEnds(s, o);
      x := NoExponent;
    } else {
      hide ExponentAt, DigitRun, AllDigits, ExponentText, SignText, Ascii;
      var sign := SignAt(s, e + 1);
      var d := e + 1 + |SignText(sign)|;
      ExponentEnds(s, e, o);
      x := Exponent(s[e] == 'E' as int, sign, s[d..]);
      Rest(s, e, sign, d);
    }
  }

  lemma NoneEnds(s: seq<Byte>, o: Options)
    requires ExponentAt(s, |s|, o).Ok?
    ensures o.scientific ==> o.fixed
  {
  }

  function SignAt(s: seq<Byte>, p: nat): Sign {
    if At(s, p) == '-' as int then Minus else if At(s, p) == '+' as int then Plus else NoSign
  }

  lemma ExponentEnds(s: seq<Byte>, e: nat, o: Options)
    requires e < |s| && !o.fortran && ExponentAt(s, e, o).Ok? && ExponentAt(s, e, o).value.2 == |s|
    ensures var d := e + 1 + |SignText(SignAt(s, e + 1))|;
      && o.scientific && (s[e] == 'e' as int || s[e] == 'E' as int)
      && d < |s| && AllDigits(s[d..])
  {
    hide DigitRun, AllDigits;
    var d := e + 1 + |SignText(SignAt(s, e + 1))|;
    assert StartsExponent(o, s[e]) && DigitAt(s, d) && DigitRun(s, d) == |s|;
    assert s[d..] == s[d..DigitRun(s, d)];
  }

  lemma Rest(s: seq<Byte>, e: nat, sign: Sign, d: nat)
    requires e < |s| && (s[e] == 'e' as int || s[e] == 'E' as int) && sign == SignAt(s, e + 1)
    requires d == e + 1 + |SignText(sign)| <= |s|
    ensures s[e..] == ExponentText(Exponent(s[e] == 'E' as int, sign, s[d..]))
  {
    assert s[e..] == [s[e]] + s[e + 1..d] + s[d..];
    assert s[e + 1..d] == SignText(sign);
    assert [s[e]] == Ascii(if s[e] == 'E' as int then "E" else "e");
  }

  /** Only the texts of numbers are taken apart to their end, except for the further exponents of Fortran. */
  lemma OnlyTexts(s: seq<Byte>, o: Options) returns (n: Numeral)
    requires s != [] && !o.fortran && !IsDigit(o.point) && o.point !in Ascii("+-eE")
    requires LayoutOf(s, o).Ok? && LayoutOf(s, o).value.end == |s|
    ensures n.Valid() && n.Takes(o) && s == n.Text(o.point)
  {
    hide DigitRun, ExponentAt, DigitsOf;
    var d := DigitsOf(s, o).value;
    DigitsWritten(s, o);
    var x := ExponentWritten(s, d.fracEnd, o);
    var sign := if s[0] == MINUS then Minus else if Signed(s, o) then Plus else NoSign;
    n := Numeral(sign, d.intPart, d.fraction, x);
    hide ExponentText, FractionText, SignText, AllDigits, Ascii;
    FourSlices(s, d.start, d.intEnd, d.fracEnd);
  }

  lemma FourSlices(s: seq<Byte>, a: nat, b: nat, c: nat)
    requires a <= b <= c <= |s|
    ensures s == s[..a] + s[a..b] + s[b..c] + s[c..]
  {
  }

  lemma DigitsWritten(s: seq<Byte>, o: Options)
    requires s != [] && DigitsOf(s, o).Ok?
    ensures var d, sign := DigitsOf(s, o).value, if s[0] == MINUS then Minus else if Signed(s, o) then Plus else NoSign;
      && d.start <= d.intEnd <= d.fracEnd <= |s|
      && s[..d.start] == SignText(sign) && s[d.start..d.intEnd] == d.intPart
      && s[d.intEnd..d.fracEnd] == FractionText(d.fraction, o.point)
      && (d.intPart != [] || (d.fraction.Some? && d.fraction.value != []))
      && (o.json ==> d.intPart != [] && (d.intPart[0] == '0' as int ==> |d.intPart| == 1) && d.fraction != Some([]))
      && (sign.Plus? ==> o.leadingPlus && !o.json)
  {
    hide DigitRun;
    var d := DigitsOf(s, o).value;
    if d.fraction.Some? {
      assert s[d.intEnd..d.fracEnd] == [s[d.intEnd]] + s[d.intEnd + 1..d.fracEnd];
    }
    assert d.start < d.intEnd ==> s[d.start] == d.intPart[0];
    assert s[..1] == [s[0]];
  }

  /** The bytes of a number's text. */
  predicate NumberByte(b: Byte, point: Byte) {
    IsDigit(b) || b == point || b in [43, 45, 69, 101]
  }

  lemma TextBytes(n: Numeral, point: Byte)
    requires n.Valid()
    ensures forall i :: 0 <= i < |n.Text(point)| ==> NumberByte(n.Text(point)[i], point)
  {
  }
}
