/** In-place integer printing of src/sds.c, two digits at a time from the right. */
module IntPrinter {
  import opened Bytes
  import opened Decimal
  import opened Powers
  import opened Bits
  import opened Command

  lemma {:induction false} LengthBetween(v: nat, d: nat)
    requires d > 0 && v < Pow(10, d) && (d == 1 || Pow(10, d - 1) <= v)
    ensures |NatText(v)| == d
  {
    if d > 1 {
      LengthBetween(v / 10, d - 1);
    }
  }

  lemma Tens()
    ensures Pow(10, 1) == 10 && Pow(10, 2) == 100 && Pow(10, 3) == 1000 && Pow(10, 4) == 10000 && Pow(10, 5) == 100000 && Pow(10, 6) == 1000000
    ensures Pow(10, 7) == 10000000 && Pow(10, 8) == 100000000 && Pow(10, 9) == 1000000000 && Pow(10, 10) == 10000000000
    ensures Pow(10, 11) == 100000000000 && Pow(10, 12) == 1000000000000
  {
  }

  /** `digits10`: the decision tree computes the length of the decimal text. */
  function Digits10(v: nat): (n: nat)
    ensures n == |NatText(v)|
  {
    Tens();
    if v < 1000000000000 then
      var n :=
        if v < 10 then 1
        else if v < 100 then 2
        else if v < 1000 then 3
        else if v < 100000000 then
          if v < 1000000 then
            if v < 10000 then 4 else 5 + Bit(v >= 100000)
          else 7 + Bit(v >= 10000000)
        else if v < 10000000000 then 9 + Bit(v >= 1000000000)
        else 11 + Bit(v >= 100000000000);
      LengthBetween(v, n);
      n
    else
      DigitsPerDivision(v, 1000000000000);
      12 + Digits10(v / 1000000000000)
  }

  /** The table of two-digit numbers. */
  const DIGITS: seq<Byte> := seq(200, i requires 0 <= i < 200 => ZERO + if i % 2 == 0 then i / 20 else i / 2 % 10)

  lemma SplitDigits(v: nat)
    ensures v / 10 / 10 == v / 100 && v % 100 == v / 10 % 10 * 10 + v % 10
  {
  }

  lemma TablePair(a: nat, b: nat)
    requires a < 10 && b < 10
    ensures DIGITS[(a * 10 + b) * 2] == ZERO + a && DIGITS[(a * 10 + b) * 2 + 1] == ZERO + b
  {
    var i := (a * 10 + b) * 2;
    assert i == 20 * a + 2 * b;
    assert i % 2 == 0 && i / 20 == a;
    assert (i + 1) % 2 == 1 && (i + 1) / 2 == a * 10 + b;
  }

  lemma TwoDigits(v: nat)
    requires v >= 10
    ensures var i := v % 100 * 2;
            NatText(v) == (if v >= 100 then NatText(v / 100) else []) + [DIGITS[i], DIGITS[i + 1]]
  {
    SplitDigits(v);
    TablePair(v / 10 % 10, v % 10);
    var front := if v >= 100 then NatText(v / 100) else [];
    assert NatText(v / 10) == front + [ZERO + v / 10 % 10];
    assert NatText(v) == NatText(v / 10) + [ZERO + v % 10];
  }

  /** A number is printed but for its first `k` digits, those of `v`. */
  ghost predicate Split(value0: nat, v: nat, tail: seq<Byte>, k: nat) {
    if k == 0 then v == 0 && NatText(value0) == tail
    else |NatText(v)| == k && NatText(value0) == NatText(v) + tail
  }

  /** Moving two digits from the number to the text behind it. */
  lemma MoveTwo(value0: nat, v: nat, tail: seq<Byte>, k: nat)
    requires k >= 2 && Split(value0, v, tail, k)
    ensures var i := v % 100 * 2; Split(value0, v / 100, [DIGITS[i], DIGITS[i + 1]] + tail, k - 2)
  {
    var i := v % 100 * 2;
    TwoDigits(v);
    var front := if v >= 100 then NatText(v / 100) else [];
    Regroup(front, [DIGITS[i], DIGITS[i + 1]], tail);
  }

  lemma AllLeft(v: nat)
    ensures Split(v, v, [], |NatText(v)|)
  {
    assert NatText(v) + [] == NatText(v);
  }

  lemma LastDigit(value0: nat, v: nat, tail: seq<Byte>)
    requires Split(value0, v, tail, 1)
    ensures v < 10 && NatText(value0) == [ZERO + v] + tail
  {
  }

  lemma NoDigit(value0: nat, v: nat, tail: seq<Byte>)
    requires Split(value0, v, tail, 0)
    ensures NatText(value0) == tail
  {
  }

  method StorePair(dst: array<Byte>, pos: nat, a: Byte, b: Byte, ghost lo: nat, ghost hi: nat)
    requires lo <= pos && pos + 2 <= hi < dst.Length
    modifies dst
    ensures dst[pos..hi] == [a, b] + old(dst[pos + 2..hi])
    ensures dst[..lo] == old(dst[..lo]) && dst[hi] == old(dst[hi])
  {
    dst[pos + 1] := b;
    dst[pos] := a;
  }

  /** The loop of `ull2string`: two digits at a time, from the right. */
  method PrintPairs(dst: array<Byte>, off: nat, length: nat, value0: nat) returns (next: int, value: nat, ghost tail: seq<Byte>)
    requires off + length < dst.Length && length == |NatText(value0)|
    modifies dst
    ensures next in {-1, 0} && Split(value0, value, tail, next + 1)
    ensures next < length && dst[off + next + 1..off + length] == tail
    ensures dst[..off] == old(dst[..off]) && dst[off + length] == old(dst[off + length])
  {
    hide NatText, AllDigits, Split;
    next, value, tail := length - 1, value0, [];
    AllLeft(value0);
    while next >= 1
      invariant -1 <= next < length && dst[..off] == old(dst[..off]) && dst[off + length] == old(dst[off + length])
      invariant dst[off + next + 1..off + length] == tail
      invariant Split(value0, value, tail, next + 1)
    {
      var i := value % 100 * 2;
      MoveTwo(value0, value, tail, next + 1);
      value, tail := value / 100, [DIGITS[i], DIGITS[i + 1]] + tail;
      StorePair(dst, off + next - 1, DIGITS[i], DIGITS[i + 1], off, off + length);
      next := next - 2;
    }
  }

  /** `ull2string` into dst[off..off + dstlen]: the text and a terminator if it fits, otherwise 0
      and an empty string. */
  method Ull2String(dst: array<Byte>, off: nat, dstlen: nat, value0: nat) returns (n: nat)
    requires off + dstlen <= dst.Length
    modifies dst
    ensures if |NatText(value0)| < dstlen
            then n == |NatText(value0)| && dst[off..off + n] == NatText(value0) && dst[off + n] == 0
            else n == 0 && (dstlen > 0 ==> dst[off] == 0)
    ensures dst[..off] == old(dst[..off])
  {
    var length := Digits10(value0);
    hide NatText, AllDigits, Split, Digits10;
    if length >= dstlen {
      if dstlen > 0 {
        dst[off] := 0;
      }
      return 0;
    }
    dst[off + length] := 0;
    var next, value; ghost var tail;
    next, value, tail := PrintPairs(dst, off, length, value0);
    if next == 0 {
      LastDigit(value0, value, tail);
      dst[off] := ZERO + value;
      assert dst[off..off + length] == [ZERO + value] + tail;
    } else {
      NoDigit(value0, value, tail);
    }
    n := length;
  }

  /** `ll2string`: the canonical text of a 64-bit integer, which the strict parser reads back. */
  method Ll2String(dst: array<Byte>, dstlen: nat, svalue: int) returns (n: nat)
    requires dstlen <= dst.Length && Int64(svalue)
    modifies dst
    ensures if |IntText(svalue)| < dstlen
            then n == |IntText(svalue)| && dst[..n] == IntText(svalue) && dst[n] == 0 && ParseInt(dst[..n]) == Some(svalue)
            else n == 0
  {
    var value, negative := svalue, 0;
    if svalue < 0 {
      value := if svalue != LLONG_MIN then -svalue else LLONG_MAX + 1;
      if dstlen < 2 {
        if dstlen > 0 {
          dst[0] := 0;
        }
        return 0;
      }
      negative := 1;
      dst[0] := MINUS;
    }
    var length := Ull2String(dst, negative, dstlen - negative, value);
    if length == 0 {
      return 0;
    }
    n := length + negative;
    assert dst[..n] == dst[..negative] + dst[negative..negative + length];
    ParseIntOfText(svalue);
  }
}
