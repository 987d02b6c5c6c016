/** Powers of natural numbers: the few laws the decimal conversion needs. */
module Powers {

  function Pow(b: nat, n: nat): (r: nat)
    ensures b > 0 ==> r > 0
  {
    if n == 0 then 1 else b * Pow(b, n - 1)
  }

  lemma Associate(a: int, b: int, c: int)
    ensures a * (b * c) == (a * b) * c
  {
  }

  lemma {:induction false} PowAdd(b: nat, m: nat, n: nat)
    ensures Pow(b, m + n) == Pow(b, m) * Pow(b, n)
  {
    if m > 0 {
      PowAdd(b, m - 1, n);
      Associate(b, Pow(b, m - 1), Pow(b, n));
    }
  }

  lemma {:induction false} PowMultiply(b: nat, m: nat, n: nat)
    ensures Pow(b, m * n) == Pow(Pow(b, m), n)
  {
    if n > 0 {
      PowMultiply(b, m, n - 1);
      assert m * n == m + m * (n - 1);
      PowAdd(b, m, m * (n - 1));
    } else {
      assert m * n == 0;
    }
  }

  lemma {:induction false} PowMonotone(b: nat, m: nat, n: nat)
    requires b > 0 && m <= n
    ensures Pow(b, m) <= Pow(b, n)
  {
    PowAdd(b, m, n - m);
    var x, y := Pow(b, m), Pow(b, n - m);
    assert x * 1 <= x * y;
  }

  lemma PowLess(b: nat, m: nat, n: nat)
    requires b > 1 && m < n
    ensures Pow(b, m) < Pow(b, n)
  {
    PowMonotone(b, m, n - 1);
    var x := Pow(b, n - 1);
    MulMonotone(2, b, x, x);
  }

  lemma {:induction false} PowBase(a: nat, b: nat, n: nat)
    requires a <= b
    ensures Pow(a, n) <= Pow(b, n)
  {
    if n > 0 {
      PowBase(a, b, n - 1);
      MulMonotone(a, b, Pow(a, n - 1), Pow(b, n - 1));
    }
  }

  lemma Distribute(x: nat, y: nat, d: nat)
    ensures (x + y) * d == x * d + y * d
  {
  }

  lemma MulMonotone(a: nat, b: nat, c: nat, d: nat)
    requires a <= b && c <= d
    ensures 0 <= a * c <= b * d
  {
    assert a * c <= b * c <= b * d;
  }

  lemma MulLess(a: nat, b: nat, c: nat, d: nat)
    requires a < b && c <= d && d > 0
    ensures a * c < b * d
  {
    assert a * c <= a * d;
    assert a * d < b * d;
  }

  lemma Exchange(a: nat, b: nat, x: nat, y: nat)
    ensures (a * b) * (x * y) == (a * x) * (b * y)
  {
    assert b * (x * y) == x * (b * y);
    assert (a * b) * (x * y) == a * (b * (x * y));
    assert (a * x) * (b * y) == a * (x * (b * y));
  }

  lemma {:induction false} PowProduct(a: nat, b: nat, n: nat)
    ensures Pow(a * b, n) == Pow(a, n) * Pow(b, n)
  {
    if n > 0 {
      PowProduct(a, b, n - 1);
      Exchange(a, b, Pow(a, n - 1), Pow(b, n - 1));
    }
  }

  lemma TenIsTwoFive(n: nat)
    ensures Pow(10, n) == Pow(2, n) * Pow(5, n)
  {
    PowProduct(2, 5, n);
  }

  lemma CancelLess(a: nat, b: nat, c: nat)
    requires a * c < b * c
    ensures a < b
  {
    if a >= b {
      MulMonotone(b, a, c, c);
    }
  }

  /** Bounds on a leading digit bound the number. */
  lemma Bracket(a: nat, x: nat, b: nat, w: nat, rest: nat)
    requires a <= x < b && rest < w
    ensures a * w <= x * w + rest < b * w
  {
    MulMonotone(a, x, w, w);
    MulMonotone(x + 1, b, w, w);
    assert (x + 1) * w == x * w + w;
  }

  /** `v` multiplied by `b`, `n` times over. */
  function Times(v: nat, b: nat, n: nat): nat
    decreases n
  {
    if n == 0 then v else Times(v * b, b, n - 1)
  }

  lemma TimesNone(v: nat, b: nat)
    ensures Times(v, b, 0) == v
  {
  }

  lemma {:induction false} TimesPow(v: nat, b: nat, n: nat)
    ensures Times(v, b, n) == v * Pow(b, n)
    decreases n
  {
    if n > 0 {
      TimesPow(v * b, b, n - 1);
      Associate(v, b, Pow(b, n - 1));
    }
  }

  lemma {:induction false} TimesSplit(v: nat, b: nat, k: nat, n: nat)
    ensures Times(v, b, k + n) == Times(v * Pow(b, k), b, n)
    decreases k
  {
    if k > 0 {
      TimesSplit(v * b, b, k - 1, n);
      Associate(v, b, Pow(b, k - 1));
    }
  }

  lemma {:induction false} TimesGrows(v: nat, b: nat, n: nat)
    requires b > 0
    ensures v <= Times(v, b, n)
    decreases n
  {
    if n > 0 {
      TimesGrows(v * b, b, n - 1);
      MulMonotone(v, v, 1, b);
    }
  }

  lemma CancelOrder(x: nat, y: nat, c: nat)
    requires c > 0
    ensures x * c < y * c <==> x < y
    ensures x * c == y * c <==> x == y
  {
    if x < y {
      MulLess(x, y, c, c);
    } else if y < x {
      MulLess(y, x, c, c);
    }
  }

  /** 10^3 < 2^10 and 5^3 < 2^7, to any power. */
  lemma TenBelowTwo(n: nat)
    ensures Pow(10, 3 * n) <= Pow(2, 10 * n)
  {
    PowMultiply(10, 3, n);
    PowMultiply(2, 10, n);
    assert Pow(10, 3) == 1000 && Pow(2, 10) == 1024;
    PowBase(1000, 1024, n);
  }

  lemma FiveBelowTwo(n: nat)
    ensures Pow(5, 3 * n) <= Pow(2, 7 * n)
  {
    PowMultiply(5, 3, n);
    PowMultiply(2, 7, n);
    assert Pow(5, 3) == 125 && Pow(2, 7) == 128;
    PowBase(125, 128, n);
  }
}
