/**
 * Eight characters at a time: the digit test and the digit parser that work on
 * one 64-bit word loaded from eight bytes, lowest address in the lowest byte.
 */
module Swar {
  import opened Bytes
  import opened Decimal

  /** The word loaded from a run of bytes. */
  function Word(s: seq<Byte>): nat {
    if s == [] then 0 else s[0] + 256 * Word(s[1..])
  }

  /** A word of `n` bytes all equal to `b`. */
  function Repeat(b: nat, n: nat): nat {
    if n == 0 then 0 else b + 256 * Repeat(b, n - 1)
  }

  function Size(n: nat): (m: nat)
    ensures m > 0
  {
    if n == 0 then 1 else 256 * Size(n - 1)
  }

  /** Whether masking with 0x80 in each of `n` bytes gives zero. */
  predicate TopBitsClear(v: nat, n: nat) {
    n == 0 || (v % 256 < 128 && TopBitsClear(v / 256, n - 1))
  }

  /** The digit test on a word of `n` bytes, with its additions modulo 256^n. */
  predicate MadeOfDigits(v: nat, n: nat) {
    TopBitsClear((v + Repeat(0x46, n)) % Size(n), n) && TopBitsClear((v - Repeat(0x30, n)) % Size(n), n)
  }

  predicate IsMadeOfEightDigitsFast(val: nat) {
    MadeOfDigits(val, 8)
  }

  /** Splitting the lowest byte off a sum taken modulo a power of 256. */
  lemma LowByte(a: int, b: int, m: nat)
    requires m > 0
    ensures ((a + 256 * b) % (256 * m)) % 256 == a % 256
    ensures ((a + 256 * b) % (256 * m)) / 256 == (b + a / 256) % m
  {
    var low, high := a % 256, b + a / 256;
    var q, r := high / m, high % m;
    assert a + 256 * b == low + 256 * high && high == q * m + r;
    assert 256 * (q * m) == q * (256 * m);
    ModUnique(a + 256 * b, q, low + 256 * r, 256 * m);
  }

  lemma ModUnique(x: int, q: int, r: int, m: int)
    requires 0 <= r < m && x == q * m + r
    ensures x % m == r && x / m == q
  {
    var p, s := x / m, x % m;
    Euclid(x, m);
    SmallMultiple(q - p, m, s - r);
  }

  lemma Euclid(x: int, m: int)
    requires m > 0
    ensures x == (x / m) * m + x % m && 0 <= x % m < m
  {
  }

  lemma AtLeast(k: int, m: int)
    requires k >= 1 && m > 0
    ensures k * m >= m && (-k) * m <= -m
  {
    assert (k - 1) * m >= 0;
  }

  lemma SmallMultiple(k: int, m: int, d: int)
    requires -m < d < m && k * m == d
    ensures k == 0
  {
    if k >= 1 {
      AtLeast(k, m);
    } else if k <= -1 {
      AtLeast(-k, m);
    }
  }

  lemma DigitByte(b: Byte)
    ensures IsDigit(b) <==> (b + 0x46) % 256 < 128 && (b - 0x30) % 256 < 128
    ensures IsDigit(b) ==> (b + 0x46) / 256 == 0 && (b - 0x30) / 256 == 0
  {
  }

  /** The test's lowest byte, and the carry or borrow it passes on. */
  lemma TestStep(a: int, b: int, m: nat, n: nat)
    requires m > 0 && n > 0
    ensures TopBitsClear((a + 256 * b) % (256 * m), n) <==>
      a % 256 < 128 && TopBitsClear((b + a / 256) % m, n - 1)
  {
    LowByte(a, b, m);
  }

  /** The bytewise test accepts exactly the runs of decimal digits. */
  lemma {:induction false} DigitTest(s: seq<Byte>)
    ensures MadeOfDigits(Word(s), |s|) <==> AllDigits(s)
  {
    var n := |s|;
    if n > 0 {
      hide TopBitsClear, Word, Repeat, Size, AllDigits, IsDigit;
      var rest, m, up, down := s[1..], Size(n - 1), Repeat(0x46, n - 1), Repeat(0x30, n - 1);
      DigitTest(rest);
      assert MadeOfDigits(Word(rest), n - 1) <==>
        TopBitsClear((Word(rest) + up) % m, n - 1) && TopBitsClear((Word(rest) - down) % m, n - 1);
      hide MadeOfDigits;
      DigitByte(s[0]);
      var c: int := s[0];
      TestStep(c + 0x46, Word(rest) + up, m, n);
      TestStep(c - 0x30, Word(rest) - down, m, n);
      AllSplit(s);
      Assemble(s, n, m, up, down);
    } else {
      assert s == [];
    }
  }

  lemma Assemble(s: seq<Byte>, n: nat, m: nat, up: nat, down: nat)
    requires n == |s| > 0 && m == Size(n - 1) && up == Repeat(0x46, n - 1) && down == Repeat(0x30, n - 1)
    ensures var w := Word(s[1..]);
      MadeOfDigits(Word(s), n) <==>
        && TopBitsClear((s[0] + 0x46 + 256 * (w + up)) % (256 * m), n)
        && TopBitsClear((s[0] - 0x30 + 256 * (w - down)) % (256 * m), n)
  {
    hide TopBitsClear;
    assert Word(s) + Repeat(0x46, n) == s[0] + 0x46 + 256 * (Word(s[1..]) + up);
    assert Word(s) - Repeat(0x30, n) == s[0] - 0x30 + 256 * (Word(s[1..]) - down);
  }

  lemma AllSplit(s: seq<Byte>)
    requires s != []
    ensures AllDigits(s) <==> IsDigit(s[0]) && AllDigits(s[1..])
  {
    assert s == [s[0]] + s[1..];
  }

  lemma EightDigitTest(s: seq<Byte>)
    requires |s| == 8
    ensures IsMadeOfEightDigitsFast(Word(s)) <==> AllDigits(s)
  {
    hide MadeOfDigits;
    DigitTest(s);
  }

  function Wrap64(v: int): int {
    v % 0x1_0000_0000_0000_0000
  }

  /** The word masked with 0x000000FF000000FF. */
  function EveryFourth(v: nat): nat {
    v % 256 + 0x1_0000_0000 * ((v / 0x1_0000_0000) % 256)
  }

  /** The value of eight digits, by three multiplications that add neighbours in parallel. */
  function ParseEightDigitsUnrolledSwar(val: nat): nat {
    var v1 := Wrap64(val - 0x3030_3030_3030_3030);
    var v2 := Wrap64(Wrap64(v1 * 10) + v1 / 256);
    var v3 := Wrap64(Wrap64(EveryFourth(v2) * 0x000F_4240_0000_0064) + Wrap64(EveryFourth(v2 / 0x1_0000) * 0x0000_2710_0000_0001));
    (v3 / 0x1_0000_0000) % 0x1_0000_0000
  }

  /** Four bytes as one number. */
  function Quad(a: nat, b: nat, c: nat, d: nat): nat {
    a + 0x100 * b + 0x1_0000 * c + 0x100_0000 * d
  }

  /** The multiplications by 10 and shift leave the value of a digit pair in each byte. */
  lemma Pairs(d0: nat, d1: nat, d2: nat, d3: nat, d4: nat, d5: nat, d6: nat, d7: nat)
    requires d0 < 10 && d1 < 10 && d2 < 10 && d3 < 10 && d4 < 10 && d5 < 10 && d6 < 10 && d7 < 10
    ensures var v1 := Quad(d0, d1, d2, d3) + 0x1_0000_0000 * Quad(d4, d5, d6, d7);
      Wrap64(Wrap64(v1 * 10) + v1 / 256) ==
        Quad(10 * d0 + d1, 10 * d1 + d2, 10 * d2 + d3, 10 * d3 + d4)
        + 0x1_0000_0000 * Quad(10 * d4 + d5, 10 * d5 + d6, 10 * d6 + d7, 10 * d7)
  {
    hide Wrap64, Quad;
    var v1 := Quad(d0, d1, d2, d3) + 0x1_0000_0000 * Quad(d4, d5, d6, d7);
    var rest := Quad(d1, d2, d3, d4) + 0x1_0000_0000 * Quad(d5, d6, d7, 0);
    QuadBound(d0, d1, d2, d3);
    QuadBound(d4, d5, d6, d7);
    QuadBound(d1, d2, d3, d4);
    QuadBound(d5, d6, d7, 0);
    ShiftQuad(d0, d1, d2, d3, d4);
    ShiftQuad(d4, d5, d6, d7, 0);
    DropByte(d0, rest);
    WrapSmall(v1 * 10);
    WrapSmall(v1 * 10 + rest);
    PairQuad(d0, d1, d2, d3, d4);
    PairQuad(d4, d5, d6, d7, 0);
  }

  lemma QuadBound(a: nat, b: nat, c: nat, d: nat)
    requires a < 10 && b < 10 && c < 10 && d < 10
    ensures Quad(a, b, c, d) <= 0x909_0909
  {
  }

  lemma ShiftQuad(a: nat, b: nat, c: nat, d: nat, e: nat)
    ensures Quad(a, b, c, d) + 0x1_0000_0000 * e == a + 256 * Quad(b, c, d, e)
  {
  }

  lemma PairQuad(a: nat, b: nat, c: nat, d: nat, e: nat)
    ensures 10 * Quad(a, b, c, d) + Quad(b, c, d, e) == Quad(10 * a + b, 10 * b + c, 10 * c + d, 10 * d + e)
  {
  }

  lemma DropByte(low: nat, rest: nat)
    requires low < 256
    ensures (low + 256 * rest) / 256 == rest
  {
  }

  lemma Masks(e0: nat, e1: nat, e2: nat, e3: nat, e4: nat, e5: nat, e6: nat, e7: nat)
    requires e0 < 256 && e1 < 256 && e2 < 256 && e3 < 256 && e4 < 256 && e5 < 256 && e6 < 256 && e7 < 256
    ensures var v := Quad(e0, e1, e2, e3) + 0x1_0000_0000 * Quad(e4, e5, e6, e7);
      EveryFourth(v) == e0 + 0x1_0000_0000 * e4 && EveryFourth(v / 0x1_0000) == e2 + 0x1_0000_0000 * e6
  {
    var v := Quad(e0, e1, e2, e3) + 0x1_0000_0000 * Quad(e4, e5, e6, e7);
    var w := Quad(e2, e3, e4, e5) + 0x1_0000_0000 * (e6 + 0x100 * e7);
    DropHalf(e0 + 0x100 * e1, w);
    MaskOne(e0, e1 + 0x100 * e2 + 0x1_0000 * e3, e4, e5 + 0x100 * e6 + 0x1_0000 * e7);
    MaskOne(e2, e3 + 0x100 * e4 + 0x1_0000 * e5, e6, e7);
  }

  lemma DropHalf(low: nat, rest: nat)
    requires low < 0x1_0000
    ensures (low + 0x1_0000 * rest) / 0x1_0000 == rest
  {
  }

  lemma MaskOne(a: nat, low: nat, b: nat, high: nat)
    requires a < 256 && low < 0x100_0000 && b < 256
    ensures EveryFourth(a + 256 * low + 0x1_0000_0000 * (b + 256 * high)) == a + 0x1_0000_0000 * b
  {
    LowPart(a, low + 0x100_0000 * (b + 256 * high));
    DropWord(a + 256 * low, b + 256 * high);
    LowPart(b, high);
  }

  lemma LowPart(low: nat, rest: nat)
    requires low < 256
    ensures (low + 256 * rest) % 256 == low
  {
  }

  lemma DropWord(low: nat, rest: nat)
    requires low < 0x1_0000_0000
    ensures (low + 0x1_0000_0000 * rest) / 0x1_0000_0000 == rest
  {
  }

  /** The last multiplications gather the four pairs into bits 32 to 63. */
  lemma Gather(p: nat, q: nat, r: nat, t: nat)
    requires p < 100 && q < 100 && r < 100 && t < 100
    ensures var x := Wrap64((p + 0x1_0000_0000 * r) * 0x000F_4240_0000_0064);
      var y := Wrap64((q + 0x1_0000_0000 * t) * 0x0000_2710_0000_0001);
      (Wrap64(x + y) / 0x1_0000_0000) % 0x1_0000_0000 == 1000000 * p + 10000 * q + 100 * r + t
  {
    assert (p + 0x1_0000_0000 * r) * 0x000F_4240_0000_0064 ==
      100 * p + 0x1_0000_0000 * (1000000 * p + 100 * r) + 0x1_0000_0000_0000_0000 * (1000000 * r);
    assert (q + 0x1_0000_0000 * t) * 0x0000_2710_0000_0001 ==
      q + 0x1_0000_0000 * (10000 * q + t) + 0x1_0000_0000_0000_0000 * (10000 * t);
    hide Wrap64;
    WrapOff(100 * p + 0x1_0000_0000 * (1000000 * p + 100 * r), 1000000 * r);
    WrapOff(q + 0x1_0000_0000 * (10000 * q + t), 10000 * t);
    var sum := 1000000 * p + 10000 * q + 100 * r + t;
    WrapSmall(100 * p + q + 0x1_0000_0000 * sum);
    UpperHalf(100 * p + q, sum);
  }

  lemma UpperHalf(low: nat, high: nat)
    requires low < 0x1_0000_0000 && high < 0x1_0000_0000
    ensures ((low + 0x1_0000_0000 * high) / 0x1_0000_0000) % 0x1_0000_0000 == high
  {
  }

  lemma WrapOff(low: nat, high: nat)
    requires low < 0x1_0000_0000_0000_0000
    ensures Wrap64(low + 0x1_0000_0000_0000_0000 * high) == low
  {
  }

  lemma WordOfEight(s: seq<Byte>)
    requires |s| == 8
    ensures Word(s) == Quad(s[0], s[1], s[2], s[3]) + 0x1_0000_0000 * Quad(s[4], s[5], s[6], s[7])
  {
    assert s[4..] == [s[4], s[5], s[6], s[7]];
    WordOfFour(s);
    WordOfFour(s[4..]);
  }

  lemma WordOfFour(s: seq<Byte>)
    requires |s| >= 4
    ensures Word(s) == Quad(s[0], s[1], s[2], s[3]) + 0x1_0000_0000 * Word(s[4..])
  {
    assert s[1..][1..] == s[2..] && s[2..][1..] == s[3..] && s[3..][1..] == s[4..];
  }

  lemma ValueOfEight(s: seq<Byte>)
    requires |s| == 8 && AllDigits(s)
    ensures Value(s) == 10000000 * (s[0] - ZERO) + 1000000 * (s[1] - ZERO) + 100000 * (s[2] - ZERO)
      + 10000 * (s[3] - ZERO) + 1000 * (s[4] - ZERO) + 100 * (s[5] - ZERO) + 10 * (s[6] - ZERO) + (s[7] - ZERO)
  {
    hide Value, AllDigits;
    ValueEmpty(s, 0);
    assert s[0..0] == s[..0] && s[..8] == s;
    ValueFour(s, 0);
    var half := Value(s[..4]);
    assert half == 1000 * (s[0] - ZERO) + 100 * (s[1] - ZERO) + 10 * (s[2] - ZERO) + (s[3] - ZERO);
    ValueFour(s, 4);
  }

  lemma ValueFour(s: seq<Byte>, i: nat)
    requires i + 4 <= |s| && AllDigits(s)
    ensures AllDigits(s[..i]) && AllDigits(s[..i + 4])
    ensures Value(s[..i + 4]) == 10000 * Value(s[..i]) + 1000 * (s[i] - ZERO) + 100 * (s[i + 1] - ZERO)
      + 10 * (s[i + 2] - ZERO) + (s[i + 3] - ZERO)
  {
    hide Value;
    NextDigit(s, 0, i);
    NextDigit(s, 0, i + 1);
    NextDigit(s, 0, i + 2);
    NextDigit(s, 0, i + 3);
  }

  lemma ValueEmpty(s: seq<Byte>, p: nat)
    requires p <= |s|
    ensures s[p..p] == [] && Value(s[p..p]) == 0
  {
  }

  /** The parallel parser computes the digits' decimal value. */
  lemma ParseEightIsValue(s: seq<Byte>)
    requires |s| == 8 && AllDigits(s)
    ensures ParseEightDigitsUnrolledSwar(Word(s)) == Value(s) < 100000000
  {
    hide Value, Word, ParseEightDigitsUnrolledSwar;
    WordOfEight(s);
    ValueOfEight(s);
    assert IsDigit(s[0]) && IsDigit(s[1]) && IsDigit(s[2]) && IsDigit(s[3]);
    assert IsDigit(s[4]) && IsDigit(s[5]) && IsDigit(s[6]) && IsDigit(s[7]);
    EightDigits(s[0] - ZERO, s[1] - ZERO, s[2] - ZERO, s[3] - ZERO, s[4] - ZERO, s[5] - ZERO, s[6] - ZERO, s[7] - ZERO);
  }

  lemma EightDigits(d0: nat, d1: nat, d2: nat, d3: nat, d4: nat, d5: nat, d6: nat, d7: nat)
    requires d0 < 10 && d1 < 10 && d2 < 10 && d3 < 10 && d4 < 10 && d5 < 10 && d6 < 10 && d7 < 10
    ensures ParseEightDigitsUnrolledSwar(
        Quad(d0 + 48, d1 + 48, d2 + 48, d3 + 48) + 0x1_0000_0000 * Quad(d4 + 48, d5 + 48, d6 + 48, d7 + 48)) ==
      10000000 * d0 + 1000000 * d1 + 100000 * d2 + 10000 * d3 + 1000 * d4 + 100 * d5 + 10 * d6 + d7
  {
    hide Quad, ParseEightDigitsUnrolledSwar, Wrap64, EveryFourth;
    var v1 := Quad(d0, d1, d2, d3) + 0x1_0000_0000 * Quad(d4, d5, d6, d7);
    var v2 := Quad(10 * d0 + d1, 10 * d1 + d2, 10 * d2 + d3, 10 * d3 + d4)
      + 0x1_0000_0000 * Quad(10 * d4 + d5, 10 * d5 + d6, 10 * d6 + d7, 10 * d7);
    Pairs(d0, d1, d2, d3, d4, d5, d6, d7);
    QuadBound(d0, d1, d2, d3);
    QuadBound(d4, d5, d6, d7);
    WrapSmall(v1);
    Masks(10 * d0 + d1, 10 * d1 + d2, 10 * d2 + d3, 10 * d3 + d4,
          10 * d4 + d5, 10 * d5 + d6, 10 * d6 + d7, 10 * d7);
    Gather(10 * d0 + d1, 10 * d2 + d3, 10 * d4 + d5, 10 * d6 + d7);
    Stages(v1, v2, 10 * d0 + d1, 10 * d2 + d3, 10 * d4 + d5, 10 * d6 + d7);
    AsciiZeros(d0, d1, d2, d3);
    AsciiZeros(d4, d5, d6, d7);
  }

  lemma AsciiZeros(a: nat, b: nat, c: nat, d: nat)
    ensures Quad(a + 48, b + 48, c + 48, d + 48) == Quad(a, b, c, d) + 0x3030_3030
  {
  }

  lemma Stages(v1: nat, v2: nat, p: nat, q: nat, r: nat, t: nat)
    requires Wrap64(v1) == v1 && Wrap64(Wrap64(v1 * 10) + v1 / 256) == v2
    requires EveryFourth(v2) == p + 0x1_0000_0000 * r && EveryFourth(v2 / 0x1_0000) == q + 0x1_0000_0000 * t
    ensures ParseEightDigitsUnrolledSwar(v1 + 0x3030_3030_3030_3030) ==
      (Wrap64(Wrap64((p + 0x1_0000_0000 * r) * 0x000F_4240_0000_0064)
              + Wrap64((q + 0x1_0000_0000 * t) * 0x0000_2710_0000_0001)) / 0x1_0000_0000) % 0x1_0000_0000
  {
    hide Wrap64, EveryFourth;
  }

  lemma WrapSmall(v: int)
    requires 0 <= v < 0x1_0000_0000_0000_0000
    ensures Wrap64(v) == v
  {
  }
}
