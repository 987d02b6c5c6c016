/**
 * The product of a normalized significand and a normalized power of five: its
 * upper word is always exact to 55 bits, although the power is cut at 128 bits.
 */
module Product {
  import opened Powers
  import opened Limbs
  import opened PowersOfFive

  /** A multiple of an isolated entry by a word is never less than 2^64 below a multiple of 2^137: the pair of
      coefficients is a combination of the two neighbouring fractions, and one that lies closer has too large a denominator. */
  lemma Apart(t: nat, w: nat, n: nat)
    requires Isolated(t) && w < 0x1_0000_0000_0000_0000 && n * SLOT > w * t
    ensures n * SLOT - w * t >= 0x1_0000_0000_0000_0000
  {
    var a: nat, above: nat, b: nat, below: nat :| Certificate(t, a, above, b, below);
    var x, y := n * below - w * b, w * a - n * above;
    PositiveBelow(a, above, b, below);
    FareyParts(w, n, a, above, b, below);
    Combine(x, y, a, above, b, below, t, w, n);
    FareyGap(x, y, above, below, a * SLOT - above * t, b * SLOT - below * t, w, n * SLOT - w * t);
  }

  lemma PositiveBelow(a: nat, above: nat, b: nat, below: nat)
    requires a * below == b * above + 1
    ensures below > 0
  {
    MulMonotone(0, b, 0, above);
  }

  lemma FareyParts(w: int, n: int, a: int, above: int, b: int, below: int)
    requires a * below == b * above + 1
    ensures (n * below - w * b) * above + (w * a - n * above) * below == w
    ensures (n * below - w * b) * a + (w * a - n * above) * b == n
  {
    assert (n * below - w * b) * above + (w * a - n * above) * below == w * (a * below - b * above);
    assert (n * below - w * b) * a + (w * a - n * above) * b == n * (a * below - b * above);
  }

  lemma Combine(x: int, y: int, a: int, above: int, b: int, below: int, t: int, w: int, n: int)
    requires x * above + y * below == w && x * a + y * b == n
    ensures x * (a * SLOT - above * t) + y * (b * SLOT - below * t) == n * SLOT - w * t
  {
    var s := SLOT;
    assert x * (a * s - above * t) + y * (b * s - below * t) == (x * a + y * b) * s - (x * above + y * below) * t;
  }

  lemma FareyGap(x: int, y: int, above: nat, below: nat, up: int, down: int, w: nat, d: int)
    requires above + below >= 0x1_0000_0000_0000_0000 && below > 0 && up >= 0x1_0000_0000_0000_0000 && down <= 0
    requires x * above + y * below == w < 0x1_0000_0000_0000_0000 && x * up + y * down == d > 0
    ensures d >= 0x1_0000_0000_0000_0000
  {
    if x <= 0 {
      NotPositive(x, up);
      if y >= 0 {
        NotPositive(-y, -down);
      } else {
        NotPositive(x, above);
        AtLeast(-y, below);
      }
    } else if y >= 1 {
      AtLeast(x, above);
      AtLeast(y, below);
    } else {
      AtLeast(x, up);
      NotPositive(-y, down);
    }
  }

  lemma NotPositive(x: int, y: int)
    requires (x <= 0 && y >= 0) || (x >= 0 && y <= 0)
    ensures x * y <= 0
  {
  }

  lemma AtLeast(x: int, y: nat)
    requires x >= 1
    ensures x * y >= y
  {
  }

  /** The portable 64x64-bit multiplication, from four 32-bit products. */
  method MulU64(a: Limb, b: Limb) returns (low: Limb, high: Limb)
    ensures low + 0x1_0000_0000_0000_0000 * high == a * b
  {
    var a0, a1 := a % 0x1_0000_0000, a / 0x1_0000_0000;
    var b0, b1 := b % 0x1_0000_0000, b / 0x1_0000_0000;
    HalfProduct(a0, b0);
    HalfProduct(a1, b0);
    HalfProduct(a0, b1);
    HalfProduct(a1, b1);
    var w0: Limb := a0 * b0;
    var t: Limb := a1 * b0 + w0 / 0x1_0000_0000;
    var w1: Limb := t % 0x1_0000_0000;
    var w2: Limb := t / 0x1_0000_0000;
    w1 := w1 + a0 * b1;
    SchoolProduct(a0, a1, b0, b1, a0 * b0, a1 * b0, a0 * b1, a1 * b1);
    low := Low(a * b);
    high := a1 * b1 + w2 + w1 / 0x1_0000_0000;
  }

  lemma HalfProduct(x: nat, y: nat)
    requires x < 0x1_0000_0000 && y < 0x1_0000_0000
    ensures 0 <= x * y <= 0xFFFF_FFFE_0000_0001
  {
    MulMonotone(x, 0xFFFF_FFFF, y, 0xFFFF_FFFF);
  }

  /** The four partial products and their carries add up to the product, without overflow. */
  lemma SchoolProduct(a0: nat, a1: nat, b0: nat, b1: nat, p00: nat, p10: nat, p01: nat, p11: nat)
    requires p00 == a0 * b0 && p10 == a1 * b0 && p01 == a0 * b1 && p11 == a1 * b1
    requires p00 <= 0xFFFF_FFFE_0000_0001 && p10 <= 0xFFFF_FFFE_0000_0001
    requires p01 <= 0xFFFF_FFFE_0000_0001 && p11 <= 0xFFFF_FFFE_0000_0001
    ensures var t := p10 + p00 / 0x1_0000_0000;
      var w1 := t % 0x1_0000_0000 + p01;
      var high := p11 + t / 0x1_0000_0000 + w1 / 0x1_0000_0000;
      var product := (a0 + 0x1_0000_0000 * a1) * (b0 + 0x1_0000_0000 * b1);
      && t < 0x1_0000_0000_0000_0000 && w1 < 0x1_0000_0000_0000_0000 && high < 0x1_0000_0000_0000_0000
      && Low(product) + 0x1_0000_0000_0000_0000 * high == product
  {
    FourProducts(a0, a1, b0, b1);
    CarryProduct(p00, p10, p01, p11);
  }

  lemma FourProducts(a0: nat, a1: nat, b0: nat, b1: nat)
    ensures (a0 + 0x1_0000_0000 * a1) * (b0 + 0x1_0000_0000 * b1) ==
      a0 * b0 + 0x1_0000_0000 * (a1 * b0 + a0 * b1) + 0x1_0000_0000_0000_0000 * (a1 * b1)
  {
    var c := 0x1_0000_0000;
    assert (a0 + c * a1) * (b0 + c * b1) == a0 * b0 + c * (a1 * b0) + c * (a0 * b1) + (c * c) * (a1 * b1);
  }

  lemma CarryProduct(p00: nat, p10: nat, p01: nat, p11: nat)
    requires p00 <= 0xFFFF_FFFE_0000_0001 && p10 <= 0xFFFF_FFFE_0000_0001
    requires p01 <= 0xFFFF_FFFE_0000_0001 && p11 <= 0xFFFF_FFFE_0000_0001
    ensures var t := p10 + p00 / 0x1_0000_0000;
      var w1 := t % 0x1_0000_0000 + p01;
      var high := p11 + t / 0x1_0000_0000 + w1 / 0x1_0000_0000;
      var product := p00 + 0x1_0000_0000 * (p10 + p01) + 0x1_0000_0000_0000_0000 * p11;
      && t < 0x1_0000_0000_0000_0000 && w1 < 0x1_0000_0000_0000_0000
      && high < 0x1_0000_0000_0000_0000 && Low(product) + 0x1_0000_0000_0000_0000 * high == product
  {
    var t := p10 + p00 / 0x1_0000_0000;
    var w1 := t % 0x1_0000_0000 + p01;
    var high := p11 + t / 0x1_0000_0000 + w1 / 0x1_0000_0000;
    LowOf(high, 0x1_0000_0000 * (w1 % 0x1_0000_0000) + p00 % 0x1_0000_0000);
  }

  /** Whether the upper word of the first product may still change. */
  predicate Uncertain(t: nat, w: nat) {
    (w * (t / 0x1_0000_0000_0000_0000) / 0x1_0000_0000_0000_0000) % 0x200 == 0x1FF
  }

  /** Two words of the product: from the first word of the entry, or from both where that is not enough. */
  predicate Approximates(t: nat, w: nat, low: Limb, high: Limb) {
    low + 0x1_0000_0000_0000_0000 * high ==
      if Uncertain(t, w) then w * t / 0x1_0000_0000_0000_0000 else w * (t / 0x1_0000_0000_0000_0000)
  }

  lemma BothWords(w: nat, t: nat)
    ensures var hi, lo := t / 0x1_0000_0000_0000_0000, t % 0x1_0000_0000_0000_0000;
      w * t / 0x1_0000_0000_0000_0000 == w * hi + w * lo / 0x1_0000_0000_0000_0000
  {
    var hi, lo := t / 0x1_0000_0000_0000_0000, t % 0x1_0000_0000_0000_0000;
    Expand(w, hi, lo, t);
  }

  lemma Expand(w: nat, hi: nat, lo: nat, t: nat)
    requires t == hi * 0x1_0000_0000_0000_0000 + lo
    ensures w * t == (w * hi) * 0x1_0000_0000_0000_0000 + w * lo
  {
    var c := 0x1_0000_0000_0000_0000;
    assert w * (hi * c + lo) == (w * hi) * c + w * lo;
  }

  /** The upper word of a product of words is at most 2^64 - 2. */
  lemma UpperWord(x: Limb, y: Limb, low: Limb, high: Limb)
    requires low + 0x1_0000_0000_0000_0000 * high == x * y
    ensures high < 0xFFFF_FFFF_FFFF_FFFF
  {
    MulMonotone(x, 0xFFFF_FFFF_FFFF_FFFF, y, 0xFFFF_FFFF_FFFF_FFFF);
  }

  lemma FirstWords(t: nat)
    requires 0x8000_0000_0000_0000_0000_0000_0000_0000 <= t < 0x1_0000_0000_0000_0000_0000_0000_0000_0000
    ensures 0x8000_0000_0000_0000 <= t / 0x1_0000_0000_0000_0000 < 0x1_0000_0000_0000_0000
  {
  }

  lemma NormalEntry(q: int, t: nat)
    requires Good(q, t)
    ensures 0x8000_0000_0000_0000_0000_0000_0000_0000 <= t < 0x1_0000_0000_0000_0000_0000_0000_0000_0000
  {
  }

  lemma FirstHigh(z: nat, low: Limb, high: Limb)
    requires low + 0x1_0000_0000_0000_0000 * high == z
    ensures z / 0x1_0000_0000_0000_0000 == high && z % 0x1_0000_0000_0000_0000 == low
  {
  }

  lemma Carry(sum: nat, low: Limb)
    requires sum < 0x2_0000_0000_0000_0000 && low == Low(sum)
    ensures low == if sum < 0x1_0000_0000_0000_0000 then sum else sum - 0x1_0000_0000_0000_0000
  {
  }

  /** The first product, when its low bits leave room for what it omits. */
  lemma FirstWindow(w: Limb, t: nat, low: Limb, high: Limb)
    requires low + 0x1_0000_0000_0000_0000 * high == w * (t / 0x1_0000_0000_0000_0000) && high % 0x200 != 0x1FF
    ensures (high / 0x200) * 0x200_0000_0000_0000_0000_0000_0000_0000_0000 <= w * (t - t % 0x1_0000_0000_0000_0000) <= w * t
    ensures w * (t + 1) <= (high / 0x200 + 1) * 0x200_0000_0000_0000_0000_0000_0000_0000_0000
  {
    var hi, lo := t / 0x1_0000_0000_0000_0000, t % 0x1_0000_0000_0000_0000;
    Expand(w, hi, lo, t);
    Expand(w, hi, 0, t - lo);
    MulMonotone(w, 0x1_0000_0000_0000_0000, lo + 1, 0x1_0000_0000_0000_0000);
    MoreOf(w, t);
    MoreOf(w, lo);
  }

  lemma MoreOf(w: nat, t: nat)
    ensures w * (t + 1) == w * t + w
  {
  }

  /** The whole product, cut at 128 bits. */
  lemma SecondWindow(w: Limb, t: nat, low: Limb, high: Limb)
    requires low + 0x1_0000_0000_0000_0000 * high == w * t / 0x1_0000_0000_0000_0000
    ensures (high / 0x200) * 0x200_0000_0000_0000_0000_0000_0000_0000_0000 <= w * t
    ensures w * t < (high / 0x200 + 1) * 0x200_0000_0000_0000_0000_0000_0000_0000_0000
  {
    CutWindow(w * t, low, high);
  }

  lemma CutWindow(z: nat, low: Limb, high: Limb)
    requires low + 0x1_0000_0000_0000_0000 * high == z / 0x1_0000_0000_0000_0000
    ensures (high / 0x200) * 0x200_0000_0000_0000_0000_0000_0000_0000_0000 <= z
    ensures z < (high / 0x200 + 1) * 0x200_0000_0000_0000_0000_0000_0000_0000_0000
  {
  }

  /** How the two words stand to the entry's multiple, by the slots of 2^137. */
  lemma Slots(t: nat, w: Limb, low: Limb, high: Limb)
    requires Approximates(t, w, low, high)
    ensures var n := high / 0x200;
      && n * SLOT <= w * t
      && if Uncertain(t, w) then w * t < (n + 1) * SLOT else w * (t + 1) <= (n + 1) * SLOT
  {
    if Uncertain(t, w) {
      SecondWindow(w, t, low, high);
    } else {
      FirstHigh(w * (t / 0x1_0000_0000_0000_0000), low, high);
      FirstWindow(w, t, low, high);
      MoreOf(w, t);
    }
  }

  /** The number of whole slots below w * 5^q, scaled like the table. */
  ghost predicate WholeSlots(q: int, w: nat, n: nat) {
    (n * SLOT) * Den(q) <= w * Num(q) < ((n + 1) * SLOT) * Den(q)
  }

  lemma Between(w: nat, x: nat, y: nat, num: nat, den: nat, lo: nat, hi: nat)
    requires w > 0 && lo <= w * x && w * y <= hi && x * den <= num < y * den
    ensures lo * den <= w * num < hi * den
  {
    MulMonotone(lo, w * x, den, den);
    MulMonotone(w * y, hi, den, den);
    MulMonotone(w, w, x * den, num);
    MulLess(num, y * den, w, w);
    Associate(w, x, den);
    Associate(w, y, den);
  }

  lemma Exactly(w: nat, t: nat, num: nat, den: nat, lo: nat, hi: nat)
    requires den > 0 && lo <= w * t < hi && num == t * den
    ensures lo * den <= w * num < hi * den
  {
    MulMonotone(lo, w * t, den, den);
    MulLess(w * t, hi, den, den);
    Associate(w, t, den);
  }

  /** A power of five from 1 to 27, and the power of two that goes with it. */
  lemma SmallDivisor(q: int) returns (j: nat)
    requires -27 <= q < 0
    ensures Num(q) == j * 0x4_0000_0000_0000_0000_0000_0000_0000_0000 && Den(q) < 0x8000_0000_0000_0000
  {
    FiveTwentySeven();
    PowMonotone(5, -q, 27);
    var l := -Log2Five(q);
    assert l >= 3 && Pow(2, l) == 2 * Pow(2, l - 1) && Pow(2, l - 1) == 2 * Pow(2, l - 2);
    j := Pow(2, l - 3);
  }

  lemma FiveTwentySeven()
    ensures Pow(5, 27) < 0x8000_0000_0000_0000
  {
    PowMultiply(5, 9, 3);
    assert Pow(5, 9) == 1953125 && Pow(1953125, 3) == 7450580596923828125;
  }

  /** An entry rounded up by less than one unit: no multiple of it gets past a slot, because a slot is far from any fraction. */
  lemma UpperSlot(w: nat, t: nat, num: nat, den: nat, j: nat, n: nat)
    requires num == j * 0x4_0000_0000_0000_0000_0000_0000_0000_0000 && 0 < den < 0x8000_0000_0000_0000
    requires 0 < w < 0x1_0000_0000_0000_0000 && t > 0 && (t - 1) * den < num && n * SLOT <= w * t
    ensures (n * SLOT) * den <= w * num
  {
    var c := 0x4_0000_0000_0000_0000_0000_0000_0000_0000;
    var gap := 128 * (n * den) - w * j;
    assert (n * SLOT) * den == (128 * (n * den)) * c;
    assert w * (j * c) == (w * j) * c;
    assert (n * SLOT) * den - w * num == gap * c;
    if gap > 0 {
      AtLeast(gap, c);
      MulMonotone(n * SLOT, w * t, den, den);
      Associate(w, t, den);
      UnitBelow(t, den);
      MulMonotone(w, w, t * den - den, num);
      assert w * (t * den - den) == w * (t * den) - w * den;
      MulLess(w, 0x1_0000_0000_0000_0000, den, 0x8000_0000_0000_0000);
    }
  }

  lemma UnitBelow(t: nat, den: nat)
    requires t > 0
    ensures (t - 1) * den == t * den - den
  {
  }

  /** The upper 55 bits of the product's upper word are those of the exact product, for every entry and every word. */
  lemma UpperBitsExact(q: int, t: nat, w: Limb, low: Limb, high: Limb)
    requires Good(q, t) && w >= 0x8000_0000_0000_0000 && Approximates(t, w, low, high)
    ensures WholeSlots(q, w, high / 0x200)
  {
    hide Num, Den, Isolated, Approximates, Uncertain;
    Slots(t, w, low, high);
    var n := high / 0x200;
    if 0 <= q <= 27 {
      MoreOf(w, t);
      Exactly(w, t, Num(q), Den(q), n * SLOT, (n + 1) * SLOT);
    } else if -27 <= q < 0 {
      RoundedUp(q, t, w, n);
    } else {
      if Uncertain(t, w) {
        Apart(t, w, n + 1);
      }
      MoreOf(w, t);
      Between(w, t, t + 1, Num(q), Den(q), n * SLOT, (n + 1) * SLOT);
    }
  }

  lemma RoundedUp(q: int, t: nat, w: Limb, n: nat)
    requires -27 <= q < 0 && t > 0 && (t - 1) * Den(q) < Num(q) < t * Den(q) && w > 0
    requires n * SLOT <= w * t && w * t <= (n + 1) * SLOT
    ensures WholeSlots(q, w, n)
  {
    hide Num, Den;
    var j := SmallDivisor(q);
    UpperSlot(w, t, Num(q), Den(q), j, n);
    Between(w, t - 1, t, Num(q), Den(q), 0, (n + 1) * SLOT);
  }

  /** The product of the normalized significand and the normalized power of five, to 128 bits where that matters. */
  method ComputeProductApproximation(q: int, w: Limb) returns (low: Limb, high: Limb, ghost entry: nat)
    requires -342 <= q <= 308 && w >= 0x8000_0000_0000_0000
    ensures Good(q, entry) && Approximates(entry, w, low, high)
    ensures WholeSlots(q, w, high / 0x200)
  {
    hide PowerOfFive, Good, WholeSlots;
    var t := PowerOfFive(q);
    entry := t;
    NormalEntry(q, t);
    FirstWords(t);
    var hi: Limb, lo: Limb := t / 0x1_0000_0000_0000_0000, t % 0x1_0000_0000_0000_0000;
    low, high := MulU64(w, hi);
    UpperWord(w, hi, low, high);
    FirstHigh(w * hi, low, high);
    if high % 0x200 == 0x1FF {
      var secondLow, secondHigh := MulU64(w, lo);
      FirstHigh(w * lo, secondLow, secondHigh);
      BothWords(w, t);
      ghost var sum := low + secondHigh;
      low := Low(low + secondHigh);
      if secondHigh > low {
        high := high + 1;
      }
      Carry(sum, low);
    }
    UpperBitsExact(q, t, w, low, high);
  }

  // ------------------------------------------------------------------ ties

  /** An odd factor of a multiple of a power of two divides the other factor. */
  lemma {:induction false} OddFactor(d: nat, x: nat, m: nat, t: nat) returns (y: nat)
    requires d % 2 == 1 && d * x == m * Pow(2, t)
    ensures d * y == m
    decreases t
  {
    if t == 0 {
      y := x;
    } else {
      var p := Pow(2, t - 1);
      assert m * (2 * p) == 2 * (m * p);
      EvenFactor(d, x, m * p);
      y := OddFactor(d, x / 2, m, t - 1);
    }
  }

  lemma EvenFactor(d: nat, x: nat, z: nat)
    requires d % 2 == 1 && d * x == 2 * z
    ensures x % 2 == 0 && d * (x / 2) == z
  {
    if x % 2 == 1 {
      OddProduct(d, x, d / 2, x / 2);
    } else {
      Associate(2, d, x / 2);
    }
  }

  lemma OddProduct(d: nat, x: nat, e: nat, h: nat)
    requires d == 2 * e + 1 && x == 2 * h + 1
    ensures d * x == 2 * (2 * (e * h) + e + h) + 1
  {
  }

  lemma {:induction false} OddPower(q: nat)
    ensures Pow(5, q) % 2 == 1
  {
    if q > 0 {
      OddPower(q - 1);
    }
  }

  /** 5^24 > 2^54, so from q = 24 no 54-bit number times a power of two is a multiple of 5^q. */
  lemma NoTies(q: nat, x: nat, m: nat, t: nat)
    requires q >= 24 && 0 < m < 0x40_0000_0000_0000
    ensures Pow(5, q) * x != m * Pow(2, t)
  {
    hide Pow;
    if Pow(5, q) * x == m * Pow(2, t) {
      OddPower(q);
      var y := OddFactor(Pow(5, q), x, m, t);
      FiveTwentyFour();
      PowMonotone(5, 24, q);
      NoSmallMultiple(Pow(5, q), y, m);
    }
  }

  lemma NoSmallMultiple(d: nat, y: nat, m: nat)
    requires d > m > 0
    ensures d * y != m
  {
    if y >= 1 {
      MulMonotone(d, d, 1, y);
    }
  }

  lemma FiveTwentyFour()
    ensures Pow(5, 24) > 0x40_0000_0000_0000
  {
    PowMultiply(5, 4, 6);
    assert Pow(5, 4) == 625;
    assert Pow(625, 6) == 59604644775390625;
  }

  /** The product is a multiple of a slot, or of two: the number is exactly m units. */
  ghost predicate OnPoint(q: int, w: nat, m: nat, unit: nat) {
    w * Num(q) == (m * unit) * Den(q)
  }

  /** The slots below a 54-bit significand, and the shift that leaves it. */
  predicate Unit(s: nat, unit: nat) {
    unit == Pow(2, s + 128) && ((s == 9 && unit == SLOT) || (s == 10 && unit == 2 * SLOT))
  }

  /** From 5^24 on, a 54-bit significand is never hit. */
  lemma NeverAbove(q: int, w: nat, m: nat, s: nat, unit: nat)
    requires q >= 24 && 0 < m < 0x40_0000_0000_0000 && Unit(s, unit)
    ensures !OnPoint(q, w, m, unit)
  {
    hide Pow;
    if OnPoint(q, w, m, unit) && Log2Five(q) >= 0 {
      var f, l := Pow(5, q), Log2Five(q);
      PowAdd(2, s + 128, l);
      Associate(m, unit, Pow(2, l));
      assert w * (f * TOP) == f * (w * TOP);
      NoTies(q, w * TOP, m, s + 128 + l);
    }
  }

  /** From 5^-5 down, an odd 54-bit significand is never hit by a word. */
  lemma NeverBelow(q: int, w: Limb, m: nat, s: nat, unit: nat)
    requires q <= -5 && w > 0 && m >= 0x20_0000_0000_0000 && m % 2 == 1 && Unit(s, unit) && Log2Five(q) <= 0
    ensures !OnPoint(q, w, m, unit)
  {
    hide Pow;
    if OnPoint(q, w, m, unit) {
      var f, l := Pow(5, -q), -Log2Five(q);
      TopIsPower();
      PowAdd(2, l, 127);
      OddPower(-q);
      OddTimes(m, f);
      assert (m * unit) * f == (m * f) * unit;
      var y := OddFactor(m * f, unit, w, l + 127);
      FiveFive(-q);
      MulMonotone(0x20_0000_0000_0000, m, 3125, f);
      if y >= 1 {
        MulMonotone(m * f, m * f, 1, y);
      }
    }
  }

  lemma OddTimes(x: nat, y: nat)
    requires x % 2 == 1 && y % 2 == 1
    ensures (x * y) % 2 == 1
  {
    OddProduct(x, y, x / 2, y / 2);
  }

  lemma TopIsPower()
    ensures Pow(2, 127) == TOP
  {
    Pow2Word();
    PowAdd(2, 64, 64);
    assert Pow(2, 128) == 2 * Pow(2, 127);
  }

  lemma FiveFive(k: nat)
    requires k >= 5
    ensures Pow(5, k) >= 3125
  {
    PowMonotone(5, 5, k);
    assert Pow(5, 5) == 3125;
  }

  /** The words that show a number to be exactly m units. */
  predicate Shows(low: Limb, high: Limb, m: nat, s: nat) {
    low <= 1 && high == m * Pow(2, s)
  }

  lemma UnitWords(s: nat, unit: nat, m: nat)
    requires Unit(s, unit)
    ensures m * unit == (m * Pow(2, s)) * 0x1_0000_0000_0000_0000 * 0x1_0000_0000_0000_0000
    ensures (m * Pow(2, s)) % 0x200 == 0
  {
    assert Pow(2, 9) == 512 && Pow(2, 10) == 1024;
  }

  /** Where the entry is exact, an even product shows it directly. */
  lemma TieExact(q: int, t: nat, w: Limb, low: Limb, high: Limb, m: nat, s: nat, unit: nat)
    requires 0 <= q <= 27 && Good(q, t) && Approximates(t, w, low, high) && Unit(s, unit)
    ensures OnPoint(q, w, m, unit) <==> Shows(low, high, m, s)
  {
    hide Num, Den, Pow, Approximates, Good;
    ExactEntry(q, t);
    UnitWords(s, unit, m);
    ExactWords(t, w, low, high);
    ExactCore(w, t, t / 0x1_0000_0000_0000_0000, Num(q), Den(q), low, high, m * Pow(2, s), m * unit);
  }

  lemma ExactEntry(q: int, t: nat)
    requires 0 <= q <= 27 && Good(q, t)
    ensures t * Den(q) == Num(q) && t % 0x1_0000_0000_0000_0000 == 0 && (t / 0x1_0000_0000_0000_0000) % 2 == 0
  {
    hide Num, Den;
    EvenWord(t);
  }

  lemma EvenWord(t: nat)
    requires t % 0x2_0000_0000_0000_0000 == 0
    ensures t % 0x1_0000_0000_0000_0000 == 0 && (t / 0x1_0000_0000_0000_0000) % 2 == 0
  {
    var k := t / 0x2_0000_0000_0000_0000;
    assert t == 0x1_0000_0000_0000_0000 * (2 * k);
    assert t / 0x1_0000_0000_0000_0000 == 2 * k;
  }

  lemma ExactCore(w: nat, t: nat, hi: nat, num: nat, den: nat, low: Limb, high: Limb, a: nat, n: nat)
    requires den > 0 && t * den == num && hi % 2 == 0
    requires low + 0x1_0000_0000_0000_0000 * high == w * hi && w * t == (w * hi) * 0x1_0000_0000_0000_0000
    requires n == a * 0x1_0000_0000_0000_0000 * 0x1_0000_0000_0000_0000
    ensures w * num == n * den <==> low <= 1 && high == a
  {
    EvenProduct(w, hi, low, high);
    ExactShows(w * t, w * hi, low, high, a, n);
    Associate(w, t, den);
    CancelOrder(w * t, n, den);
  }

  lemma ExactWords(t: nat, w: Limb, low: Limb, high: Limb)
    requires t % 0x1_0000_0000_0000_0000 == 0 && Approximates(t, w, low, high)
    ensures var hi := t / 0x1_0000_0000_0000_0000;
      low + 0x1_0000_0000_0000_0000 * high == w * hi && w * t == (w * hi) * 0x1_0000_0000_0000_0000
  {
    Expand(w, t / 0x1_0000_0000_0000_0000, 0, t);
  }

  lemma ExactShows(z: nat, first: nat, low: Limb, high: Limb, a: nat, n: nat)
    requires z == first * 0x1_0000_0000_0000_0000 && low + 0x1_0000_0000_0000_0000 * high == first && low % 2 == 0
    requires n == a * 0x1_0000_0000_0000_0000 * 0x1_0000_0000_0000_0000
    ensures z == n <==> low <= 1 && high == a
  {
  }

  lemma EvenProduct(w: nat, f: nat, low: nat, high: nat)
    requires f % 2 == 0 && low + 0x1_0000_0000_0000_0000 * high == w * f
    ensures low % 2 == 0
  {
    var p := w * (f / 2);
    Associate(w, 2, f / 2);
    assert low == 2 * (p - 0x8000_0000_0000_0000 * high);
  }

  /** Where the entry is rounded up, a number that is exactly m units makes the second product necessary, and the cut product is the number. */
  lemma HitShows(t: nat, w: Limb, low: Limb, high: Limb, num: nat, den: nat, m: nat, s: nat, unit: nat)
    requires w > 0 && den > 0 && Approximates(t, w, low, high) && Unit(s, unit)
    requires t > 0 && (t - 1) * den < num < t * den && t % 0x1_0000_0000_0000_0000 != 0
    requires w * num == (m * unit) * den
    ensures Shows(low, high, m, s)
  {
    hide Pow;
    var hi, lo := t / 0x1_0000_0000_0000_0000, t % 0x1_0000_0000_0000_0000;
    UnitWords(s, unit, m);
    JustAbove(w, t, num, den, m * unit);
    Expand(w, hi, lo, t);
    AtLeast(lo, w);
    MulMonotone(w, 0xFFFF_FFFF_FFFF_FFFF, lo, 0xFFFF_FFFF_FFFF_FFFF);
    HitWords(w * hi, w * lo, w * t, w, low, high, m * Pow(2, s), Uncertain(t, w));
  }

  /** An entry that is less than a unit too large gives a product less than a word too large. */
  lemma JustAbove(w: nat, t: nat, num: nat, den: nat, n: nat)
    requires w > 0 && t > 0 && (t - 1) * den < num < t * den && w * num == n * den
    ensures n < w * t < n + w
  {
    UnitBelow(t, den);
    MulLess(num, t * den, w, w);
    MulLess(t * den - den, num, w, w);
    Associate(w, t, den);
    assert w * (t * den - den) == (w * t) * den - w * den;
    Distribute(n, w, den);
    CancelLess(n, w * t, den);
    CancelLess(w * t, n + w, den);
  }

  lemma HitWords(first: nat, second: nat, z: nat, w: nat, low: Limb, high: Limb, a: nat, both: bool)
    requires z == first * 0x1_0000_0000_0000_0000 + second && w <= second < 0x1_0000_0000_0000_0000 * 0x1_0000_0000_0000_0000
    requires w < 0x1_0000_0000_0000_0000 && a % 0x200 == 0
    requires a * 0x1_0000_0000_0000_0000 * 0x1_0000_0000_0000_0000 < z < a * 0x1_0000_0000_0000_0000 * 0x1_0000_0000_0000_0000 + w
    requires both <==> (first / 0x1_0000_0000_0000_0000) % 0x200 == 0x1FF
    requires low + 0x1_0000_0000_0000_0000 * high == if both then z / 0x1_0000_0000_0000_0000 else first
    ensures low <= 1 && high == a
  {
    QuotientBelow(first, a);
    OneBelowSlot(a);
    if both {
      CutOf(z, a);
      WordsOf(low, high, a);
    }
  }

  lemma QuotientBelow(first: nat, a: nat)
    requires a * 0x1_0000_0000_0000_0000 - 0x1_0000_0000_0000_0000 <= first < a * 0x1_0000_0000_0000_0000
    ensures first / 0x1_0000_0000_0000_0000 == a - 1
  {
  }

  lemma OneBelowSlot(a: nat)
    requires a > 0 && a % 0x200 == 0
    ensures (a - 1) % 0x200 == 0x1FF
  {
  }

  lemma CutOf(z: nat, a: nat)
    requires var n := a * 0x1_0000_0000_0000_0000 * 0x1_0000_0000_0000_0000; n < z < n + 0x1_0000_0000_0000_0000
    ensures z / 0x1_0000_0000_0000_0000 == a * 0x1_0000_0000_0000_0000
  {
  }

  lemma WordsOf(low: Limb, high: Limb, a: nat)
    requires low + 0x1_0000_0000_0000_0000 * high == a * 0x1_0000_0000_0000_0000
    ensures low == 0 && high == a
  {
  }

  /** Conversely for the cut product: less than two words above m units is exactly m units, as 5^4 is small. */
  lemma ShownIsHit(w: nat, t: nat, num: nat, den: nat, j: nat, n: nat)
    requires num == j * 0x4_0000_0000_0000_0000_0000_0000_0000_0000 && 0 < den <= 625
    requires 0 < w < 0x1_0000_0000_0000_0000 && t > 0 && (t - 1) * den < num < t * den
    requires n * SLOT <= w * t < n * SLOT + 0x2_0000_0000_0000_0000
    ensures w * num == (n * SLOT) * den
  {
    var c := 0x4_0000_0000_0000_0000_0000_0000_0000_0000;
    var gap := w * j - 128 * (n * den);
    assert (n * SLOT) * den == (128 * (n * den)) * c;
    assert w * (j * c) == (w * j) * c;
    Near(w, t, num, den, n * SLOT);
  }

  lemma Near(w: nat, t: nat, num: nat, den: nat, n: nat)
    requires 0 < w < 0x1_0000_0000_0000_0000 && t > 0 && (t - 1) * den < num < t * den
    requires n <= w * t < n + 0x2_0000_0000_0000_0000
    ensures n * den - 0x1_0000_0000_0000_0000 * den <= w * num <= n * den + 0x2_0000_0000_0000_0000 * den
  {
    UnitBelow(t, den);
    MulMonotone(w, w, num, t * den);
    MulMonotone(w, w, t * den - den, num);
    Associate(w, t, den);
    assert w * (t * den - den) == (w * t) * den - w * den;
    MulMonotone(n, w * t, den, den);
    MulMonotone(w * t, n + 0x2_0000_0000_0000_0000, den, den);
    Distribute(n, 0x2_0000_0000_0000_0000, den);
    MulMonotone(w, 0x1_0000_0000_0000_0000, den, den);
  }

  /** A first product alone never looks like a hit: its entry has no small multiple of this form. */
  lemma NeverFirst(w: Limb, h: nat, low: nat, z: nat)
    requires w > 0 && low <= 1 && w * h == low + z * 0x200_0000_0000_0000_0000
    ensures !Unhit(h)
  {
    if Unhit(h) {
      var c: nat, y: nat, j: nat :| Inverts(c, y, h, j);
      Multiplied(w, h, c, y, j, low, z, 0x200_0000_0000_0000_0000);
      if low == 0 {
        MulMonotone(w, 0xFFFF_FFFF_FFFF_FFFF, j, 4);
        AtLeast(w, j);
      } else {
        OddSum(w, h, z);
      }
      OnlyZero(w * j - low * c, z * c - w * y);
    }
  }

  lemma OnlyZero(x: int, e: int)
    requires x == e * 0x200_0000_0000_0000_0000 && -0x200_0000_0000_0000_0000 < x < 0x200_0000_0000_0000_0000
    ensures x == 0
  {
  }

  lemma Multiplied(w: int, h: int, c: int, y: int, j: int, low: int, z: int, p: int)
    requires w * h == low + z * p && h * c == y * p + j
    ensures w * j - low * c == (z * c - w * y) * p
  {
    Associate(w, h, c);
    assert w * (y * p + j) == (w * y) * p + w * j;
    assert (low + z * p) * c == low * c + (z * c) * p;
  }

  lemma OddSum(w: nat, h: nat, z: nat)
    requires w * h == 1 + z * 0x200_0000_0000_0000_0000
    ensures h % 2 == 1
  {
    if h % 2 == 0 {
      EvenTimes(w, h);
    }
  }

  lemma EvenTimes(w: nat, h: nat)
    requires h % 2 == 0
    ensures (w * h) % 2 == 0
  {
    var x := w * (h / 2);
    assert w * h == 2 * x;
  }

  /** For 5^-4 to 5^-1, the two words show exactly the numbers that are m units. */
  lemma TieUpper(q: int, t: nat, w: Limb, low: Limb, high: Limb, m: nat, s: nat, unit: nat)
    requires -4 <= q < 0 && w > 0 && Good(q, t) && Approximates(t, w, low, high) && Unit(s, unit)
    ensures OnPoint(q, w, m, unit) <==> Shows(low, high, m, s)
  {
    hide Num, Den, Pow, Unhit;
    if OnPoint(q, w, m, unit) {
      HitShows(t, w, low, high, Num(q), Den(q), m, s, unit);
    }
    if Shows(low, high, m, s) {
      UnitWords(s, unit, m);
      if Uncertain(t, w) {
        var j := SmallDivisor(q);
        DenFour(q);
        CutShown(w * t, low, high);
        ShownIsHit(w, t, Num(q), Den(q), j, if s == 9 then m else 2 * m);
      } else {
        NeverFirst(w, t / 0x1_0000_0000_0000_0000, low, high / 0x200);
      }
    }
  }

  lemma CutShown(z: nat, low: Limb, high: Limb)
    requires low + 0x1_0000_0000_0000_0000 * high == z / 0x1_0000_0000_0000_0000 && low <= 1
    ensures var n := high * 0x1_0000_0000_0000_0000 * 0x1_0000_0000_0000_0000; n <= z < n + 0x2_0000_0000_0000_0000
  {
  }

  lemma DenFour(q: int)
    requires -4 <= q < 0
    ensures Den(q) <= 625
  {
    PowMonotone(5, -q, 4);
    assert Pow(5, 4) == 625;
  }

  /**
   * The code's test for ties: exactly the numbers halfway between two doubles
   * that would be rounded up wrongly, in the range of exponents it looks at,
   * and no number outside of it is one.
   */
  lemma TieDetected(q: int, t: nat, w: Limb, low: Limb, high: Limb, m: nat, s: nat, unit: nat)
    requires Good(q, t) && w > 0 && Approximates(t, w, low, high) && Unit(s, unit)
    requires 0x20_0000_0000_0000 <= m < 0x40_0000_0000_0000 && m % 2 == 1
    ensures OnPoint(q, w, m, unit) <==> -4 <= q <= 23 && Shows(low, high, m, s)
  {
    hide Good, Approximates, OnPoint, Shows, Unit;
    if q >= 24 {
      NeverAbove(q, w, m, s, unit);
    } else if q >= 0 {
      TieExact(q, t, w, low, high, m, s, unit);
    } else if q >= -4 {
      TieUpper(q, t, w, low, high, m, s, unit);
    } else {
      NeverBelow(q, w, m, s, unit);
    }
  }
}
