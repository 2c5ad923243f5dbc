// The least-squares slope behind the free-space trend (anomaly_detect.go), over
// reals: the slope the loops compute is that of the line with the smallest sum
// of squared distances.
module LeastSquares {
  import opened Wrappers

  function SumTo(f: int -> real, n: nat): real {
    if n == 0 then 0.0 else SumTo(f, n - 1) + f(n - 1)
  }

  function At(xs: seq<real>): int -> real {
    i => if 0 <= i < |xs| then xs[i] else 0.0
  }

  function MeanOf(xs: seq<real>): real
    requires xs != []
  {
    SumTo(At(xs), |xs|) / |xs| as real
  }

  function Centred(xs: seq<real>): int -> real
    requires xs != []
  {
    i => At(xs)(i) - MeanOf(xs)
  }

  function Product(f: int -> real, g: int -> real): int -> real {
    i => f(i) * g(i)
  }

  // The sums of products around the means.
  function CoSpread(xs: seq<real>, ys: seq<real>): real
    requires |xs| == |ys| > 0
  {
    SumTo(Product(Centred(xs), Centred(ys)), |xs|)
  }

  method Mean(xs: seq<real>) returns (r: real)
    requires xs != []
    ensures r == MeanOf(xs)
  {
    var sum := 0.0;
    for i := 0 to |xs|
      invariant sum == SumTo(At(xs), i)
    {
      sum := sum + xs[i];
    }
    r := sum / |xs| as real;
  }

  // Absent when the readings do not spread at all.
  method OlsSlope(xs: seq<real>, ys: seq<real>) returns (slope: Option<real>)
    ensures slope.None? <==> |xs| != |ys| || |xs| < 2 || CoSpread(xs, xs) == 0.0
    ensures slope.Some? ==> slope.value * CoSpread(xs, xs) == CoSpread(xs, ys)
  {
    if |xs| != |ys| || |xs| < 2 { return None; }
    var meanX := Mean(xs);
    var meanY := Mean(ys);
    var num, den := 0.0, 0.0;
    for i := 0 to |xs|
      invariant num == SumTo(Product(Centred(xs), Centred(ys)), i)
      invariant den == SumTo(Product(Centred(xs), Centred(xs)), i)
    {
      var dx := xs[i] - meanX;
      assert Centred(xs)(i) == dx && Centred(ys)(i) == ys[i] - meanY;
      num := num + dx * (ys[i] - meanY);
      den := den + dx * dx;
    }
    if den == 0.0 { return None; }
    DividesBack(num, den);
    slope := Some(num / den);
  }

  lemma DividesBack(num: real, den: real)
    requires den != 0.0
    ensures num / den * den == num
  {
  }

  // ---- sums of polynomials --------------------------------------------------------

  function Scaled(a: real, f: int -> real): int -> real {
    i => a * f(i)
  }

  lemma {:induction false} SumScales(a: real, f: int -> real, n: nat)
    ensures SumTo(Scaled(a, f), n) == a * SumTo(f, n)
  {
    if n > 0 {
      SumScales(a, f, n - 1);
      Distributes(a, SumTo(f, n - 1), f(n - 1));
    }
  }

  lemma Distributes(a: real, x: real, y: real)
    ensures a * (x + y) == a * x + a * y
  {
  }

  lemma {:induction false} SumAddsUp(h: int -> real, f: int -> real, g: int -> real, k: int -> real, n: nat)
    requires forall i :: 0 <= i < n ==> h(i) == f(i) + g(i) + k(i)
    ensures SumTo(h, n) == SumTo(f, n) + SumTo(g, n) + SumTo(k, n)
  {
    if n > 0 {
      SumAddsUp(h, f, g, k, n - 1);
    }
  }

  // h is a mixture of three lists, so its sum is the same mixture.
  lemma SumMixes(h: int -> real, f: int -> real, g: int -> real, k: int -> real, a: real, b: real, n: nat)
    requires forall i :: 0 <= i < n ==> h(i) == f(i) + Scaled(a, g)(i) + Scaled(b, k)(i)
    ensures SumTo(h, n) == SumTo(f, n) + a * SumTo(g, n) + b * SumTo(k, n)
  {
    SumAddsUp(h, f, Scaled(a, g), Scaled(b, k), n);
    SumScales(a, g, n);
    SumScales(b, k, n);
  }

  function One(): int -> real { i => 1.0 }

  lemma {:induction false} SumOfOnes(n: nat)
    ensures SumTo(One(), n) == n as real
  {
    if n > 0 {
      SumOfOnes(n - 1);
    }
  }

  // Around its mean a list sums to nothing.
  lemma CentredSumsToZero(xs: seq<real>)
    requires xs != []
    ensures SumTo(Centred(xs), |xs|) == 0.0
  {
    SumMixes(Centred(xs), At(xs), One(), One(), -MeanOf(xs), 0.0, |xs|);
    SumOfOnes(|xs|);
    MeanTimes(SumTo(At(xs), |xs|), |xs|);
  }

  lemma MeanTimes(sum: real, n: nat)
    requires n > 0
    ensures sum + -(sum / n as real) * n as real == 0.0
  {
  }

  lemma {:induction false} SumNonNegative(f: int -> real, n: nat)
    requires forall i :: 0 <= i < n ==> f(i) >= 0.0
    ensures SumTo(f, n) >= 0.0
  {
    if n > 0 {
      SumNonNegative(f, n - 1);
    }
  }

  lemma SpreadNonNegative(xs: seq<real>)
    requires xs != []
    ensures CoSpread(xs, xs) >= 0.0
  {
    SumNonNegative(Product(Centred(xs), Centred(xs)), |xs|);
  }

  // ---- the best line ----------------------------------------------------------------

  // How far reading i is from the line a + b * x.
  function Gap(x: int -> real, y: int -> real, a: real, b: real): int -> real {
    i => y(i) - a - b * x(i)
  }

  function Residual(xs: seq<real>, ys: seq<real>, a: real, b: real): real {
    var gap := Gap(At(xs), At(ys), a, b);
    SumTo(Product(gap, gap), |xs|)
  }

  // How far the line passes from the point of the means.
  function Offset(xs: seq<real>, ys: seq<real>, a: real, b: real): real
    requires xs != [] && ys != []
  {
    a + b * MeanOf(xs) - MeanOf(ys)
  }

  function Tilted(xs: seq<real>, ys: seq<real>, b: real): int -> real
    requires xs != [] && ys != []
  {
    i => Centred(ys)(i) - b * Centred(xs)(i)
  }

  lemma TiltedSumsToZero(xs: seq<real>, ys: seq<real>, b: real)
    requires |xs| == |ys| > 0
    ensures SumTo(Tilted(xs, ys, b), |xs|) == 0.0
  {
    CentredSumsToZero(xs);
    CentredSumsToZero(ys);
    TiltSum(Centred(xs), Centred(ys), Tilted(xs, ys, b), b, |xs|);
  }

  lemma TiltSum(x: int -> real, y: int -> real, t: int -> real, b: real, n: nat)
    requires forall i :: 0 <= i < n ==> t(i) == y(i) - b * x(i)
    requires SumTo(x, n) == 0.0 && SumTo(y, n) == 0.0
    ensures SumTo(t, n) == 0.0
  {
    SumMixes(t, y, x, x, -b, 0.0, n);
  }

  // The square of one tilted value, term by term.
  lemma TiltAt(x: int -> real, y: int -> real, t: int -> real, b: real, p: real, q: real, i: int)
    requires p == -2.0 * b && q == b * b && t(i) == y(i) - b * x(i)
    ensures Product(t, t)(i) == Product(y, y)(i) + Scaled(p, Product(x, y))(i) + Scaled(q, Product(x, x))(i)
  {
    SquareOfDifference(y(i), b, x(i), p, q);
  }

  lemma TiltSquares(x: int -> real, y: int -> real, t: int -> real, b: real, p: real, q: real, n: nat)
    requires p == -2.0 * b && q == b * b
    requires forall i :: 0 <= i < n ==> t(i) == y(i) - b * x(i)
    ensures SumTo(Product(t, t), n) == SumTo(Product(y, y), n) + p * SumTo(Product(x, y), n)
      + q * SumTo(Product(x, x), n)
  {
    hide Product, Scaled;
    forall i | 0 <= i < n
      ensures Product(t, t)(i) == Product(y, y)(i) + Scaled(p, Product(x, y))(i) + Scaled(q, Product(x, x))(i) {
      TiltAt(x, y, t, b, p, q, i);
    }
    SumMixes(Product(t, t), Product(y, y), Product(x, y), Product(x, x), p, q, n);
  }

  lemma SquareOfDifference(y: real, b: real, x: real, p: real, q: real)
    requires p == -2.0 * b && q == b * b
    ensures (y - b * x) * (y - b * x) == y * y + p * (x * y) + q * (x * x)
  {
    var z := b * x;
    assert (y - z) * (y - z) == y * y - 2.0 * (y * z) + z * z;
    assert y * z == b * (x * y);
    assert z * z == (b * b) * (x * x);
    assert p * (x * y) == -2.0 * (b * (x * y));
  }

  function TiltSquare(xs: seq<real>, ys: seq<real>, b: real): real
    requires xs != [] && ys != []
  {
    SumTo(Product(Tilted(xs, ys, b), Tilted(xs, ys, b)), |xs|)
  }

  function Square(c: real): real { c * c }

  // What a line misses, split into its tilt and its offset.
  lemma ResidualSplits(xs: seq<real>, ys: seq<real>, a: real, b: real)
    requires |xs| == |ys| > 0
    ensures Residual(xs, ys, a, b) == TiltSquare(xs, ys, b) + Square(Offset(xs, ys, a, b)) * |xs| as real
  {
    TiltedSumsToZero(xs, ys, b);
    TiltedIs(xs, ys, b);
    GapIsTilted(At(xs), At(ys), MeanOf(xs), MeanOf(ys), Tilted(xs, ys, b), a, b, |xs|);
    SquaresWithOffset(Tilted(xs, ys, b), Gap(At(xs), At(ys), a, b), Offset(xs, ys, a, b), |xs|);
  }

  lemma TiltedIs(xs: seq<real>, ys: seq<real>, b: real)
    requires |xs| == |ys| > 0
    ensures forall i :: 0 <= i < |xs| ==>
      Tilted(xs, ys, b)(i) == (At(ys)(i) - MeanOf(ys)) - b * (At(xs)(i) - MeanOf(xs))
  {
    forall i | 0 <= i < |xs| ensures Tilted(xs, ys, b)(i) == (At(ys)(i) - MeanOf(ys)) - b * (At(xs)(i) - MeanOf(xs)) {
      var dx, dy := Centred(xs)(i), Centred(ys)(i);
      assert dx == At(xs)(i) - MeanOf(xs) && dy == At(ys)(i) - MeanOf(ys);
      assert Tilted(xs, ys, b)(i) == dy - b * dx;
    }
  }

  lemma GapIsTilted(x: int -> real, y: int -> real, mx: real, my: real, t: int -> real, a: real, b: real, n: nat)
    requires forall i :: 0 <= i < n ==> t(i) == (y(i) - my) - b * (x(i) - mx)
    ensures forall i :: 0 <= i < n ==> Gap(x, y, a, b)(i) == t(i) - (a + b * mx - my)
  {
    forall i | 0 <= i < n ensures Gap(x, y, a, b)(i) == t(i) - (a + b * mx - my) {
      assert b * (x(i) - mx) == b * x(i) - b * mx;
    }
  }

  // Squares of numbers that sum to nothing, all moved by the same amount.
  lemma SquaresWithOffset(t: int -> real, gap: int -> real, c: real, n: nat)
    requires SumTo(t, n) == 0.0
    requires forall i :: 0 <= i < n ==> gap(i) == t(i) - c
    ensures SumTo(Product(gap, gap), n) == SumTo(Product(t, t), n) + Square(c) * n as real
  {
    MovedSquares(t, gap, c, -2.0 * c, Square(c), n);
    SumMixes(Product(gap, gap), Product(t, t), t, One(), -2.0 * c, Square(c), n);
    SumOfOnes(n);
  }

  lemma MovedSquares(t: int -> real, gap: int -> real, c: real, p: real, q: real, n: nat)
    requires p == -2.0 * c && q == c * c
    requires forall i :: 0 <= i < n ==> gap(i) == t(i) - c
    ensures forall i :: 0 <= i < n ==> Product(gap, gap)(i) == Product(t, t)(i) + Scaled(p, t)(i) + Scaled(q, One())(i)
  {
    forall i | 0 <= i < n ensures Product(gap, gap)(i) == Product(t, t)(i) + Scaled(p, t)(i) + Scaled(q, One())(i) {
      MovedSquare(t(i), gap(i), c, p, q);
    }
  }

  lemma MovedSquare(t: real, gap: real, c: real, p: real, q: real)
    requires gap == t - c && p == -2.0 * c && q == c * c
    ensures gap * gap == t * t + p * t + q * 1.0
  {
  }

  // No line misses the readings by less than the one with the slope and through
  // the means.
  lemma SlopeIsBest(xs: seq<real>, ys: seq<real>, slope: real, a: real, b: real)
    requires |xs| == |ys| > 0 && slope * CoSpread(xs, xs) == CoSpread(xs, ys)
    ensures Residual(xs, ys, MeanOf(ys) - slope * MeanOf(xs), slope) <= Residual(xs, ys, a, b)
  {
    var best := MeanOf(ys) - slope * MeanOf(xs);
    ResidualSplits(xs, ys, best, slope);
    ResidualSplits(xs, ys, a, b);
    assert Offset(xs, ys, best, slope) == 0.0;
    TiltIsLeast(xs, ys, slope, b);
    SquaredTimes(Offset(xs, ys, a, b), |xs|);
    assert Square(0.0) * |xs| as real == 0.0;
  }

  // The squares of a tilt in terms of the spreads.
  lemma TiltSquareIs(xs: seq<real>, ys: seq<real>, b: real, p: real, q: real)
    requires |xs| == |ys| > 0 && p == -2.0 * b && q == b * b
    ensures TiltSquare(xs, ys, b) == CoSpread(ys, ys) + p * CoSpread(xs, ys) + q * CoSpread(xs, xs)
  {
    hide SumTo, Product, Centred;
    var x, y, t := Centred(xs), Centred(ys), Tilted(xs, ys, b);
    forall i | 0 <= i < |xs| ensures t(i) == y(i) - b * x(i) {}
    TiltSquares(x, y, t, b, p, q, |xs|);
  }

  lemma TiltIsLeast(xs: seq<real>, ys: seq<real>, slope: real, b: real)
    requires |xs| == |ys| > 0 && slope * CoSpread(xs, xs) == CoSpread(xs, ys)
    ensures TiltSquare(xs, ys, slope) <= TiltSquare(xs, ys, b)
  {
    hide TiltSquare, CoSpread;
    TiltSquareIs(xs, ys, slope, -2.0 * slope, slope * slope);
    TiltSquareIs(xs, ys, b, -2.0 * b, b * b);
    SpreadNonNegative(xs);
    Quadratic(CoSpread(xs, ys), CoSpread(xs, xs), slope, b, -2.0 * slope, slope * slope, -2.0 * b, b * b);
  }

  lemma SquaredTimes(c: real, n: nat)
    ensures Square(c) * n as real >= 0.0
  {
    assert Square(c) >= 0.0;
  }

  // The parabola over the slopes is lowest at s.
  lemma Quadratic(xy: real, xx: real, s: real, b: real, p: real, q: real, p1: real, q1: real)
    requires xx >= 0.0 && s * xx == xy
    requires p == -2.0 * s && q == s * s && p1 == -2.0 * b && q1 == b * b
    ensures p * xy + q * xx <= p1 * xy + q1 * xx
  {
    var d := b - s;
    assert d * d * xx >= 0.0 by { assert d * d >= 0.0; }
    assert p * xy == -2.0 * (q * xx);
    assert q1 == q + 2.0 * (d * s) + d * d;
    assert q1 * xx == q * xx + 2.0 * ((d * s) * xx) + d * d * xx;
    assert p1 * xy == -2.0 * (q * xx) - 2.0 * ((d * s) * xx) by {
      assert p1 * xy == -2.0 * (b * (s * xx));
      assert b * (s * xx) == (b * s) * xx == (q + d * s) * xx;
    }
  }

  // Readings that lie on a line have its slope.
  lemma LineHasItsSlope(xs: seq<real>, ys: seq<real>, slope: real, a: real, b: real)
    requires |xs| == |ys| > 0 && CoSpread(xs, xs) != 0.0 && slope * CoSpread(xs, xs) == CoSpread(xs, ys)
    requires forall i :: 0 <= i < |xs| ==> ys[i] == a + b * xs[i]
    ensures slope == b
  {
    hide CoSpread;
    MeanOnLine(xs, ys, a, b);
    hide MeanOf;
    forall i | 0 <= i < |xs| ensures Centred(ys)(i) == b * Centred(xs)(i) {
      CentredOnLine(xs, ys, a, b, i);
    }
    LineSpreads(xs, ys, b);
    Cancels(slope, b, CoSpread(xs, xs));
  }

  lemma CentredOnLine(xs: seq<real>, ys: seq<real>, a: real, b: real, i: nat)
    requires |xs| == |ys| && i < |xs| && ys[i] == a + b * xs[i] && MeanOf(ys) == a + b * MeanOf(xs)
    ensures Centred(ys)(i) == b * Centred(xs)(i)
  {
    hide MeanOf;
    var mean := MeanOf(xs);
    assert b * (xs[i] - mean) == b * xs[i] - b * mean;
    assert At(xs)(i) == xs[i] && At(ys)(i) == ys[i];
  }

  lemma LineSpreads(xs: seq<real>, ys: seq<real>, b: real)
    requires |xs| == |ys| > 0 && forall i :: 0 <= i < |xs| ==> Centred(ys)(i) == b * Centred(xs)(i)
    ensures CoSpread(xs, ys) == b * CoSpread(xs, xs)
  {
    ScaledProduct(Centred(xs), Centred(ys), b, |xs|);
  }

  lemma ScaledProduct(x: int -> real, y: int -> real, b: real, n: nat)
    requires forall i :: 0 <= i < n ==> y(i) == b * x(i)
    ensures SumTo(Product(x, y), n) == b * SumTo(Product(x, x), n)
  {
    forall i | 0 <= i < n ensures Product(x, y)(i) == Scaled(b, Product(x, x))(i) {
      assert x(i) * (b * x(i)) == b * (x(i) * x(i));
    }
    var none := Scaled(0.0, x);
    SumAddsUp(Product(x, y), Scaled(b, Product(x, x)), none, none, n);
    SumScales(b, Product(x, x), n);
    SumScales(0.0, x, n);
  }

  lemma Cancels(a: real, b: real, c: real)
    requires c != 0.0 && a * c == b * c
    ensures a == b
  {
  }

  lemma MeanOnLine(xs: seq<real>, ys: seq<real>, a: real, b: real)
    requires |xs| == |ys| > 0
    requires forall i :: 0 <= i < |xs| ==> ys[i] == a + b * xs[i]
    ensures MeanOf(ys) == a + b * MeanOf(xs)
  {
    LineSum(At(xs), At(ys), a, b, |xs|);
    SumOfOnes(|xs|);
    MeanOfLine(SumTo(At(ys), |xs|), SumTo(At(xs), |xs|), a, b, |xs|);
  }

  lemma LineAt(x: int -> real, y: int -> real, a: real, b: real, i: int)
    requires y(i) == a + b * x(i)
    ensures y(i) == Scaled(b, x)(i) + Scaled(a, One())(i) + Scaled(0.0, x)(i)
  {
  }

  lemma LineSum(x: int -> real, y: int -> real, a: real, b: real, n: nat)
    requires forall i :: 0 <= i < n ==> y(i) == a + b * x(i)
    ensures SumTo(y, n) == b * SumTo(x, n) + a * n as real
  {
    hide Scaled, SumTo;
    forall i | 0 <= i < n ensures y(i) == Scaled(b, x)(i) + Scaled(a, One())(i) + Scaled(0.0, x)(i) {
      LineAt(x, y, a, b, i);
    }
    SumMixes(y, Scaled(b, x), One(), x, a, 0.0, n);
    SumScales(b, x, n);
    SumOfOnes(n);
  }

  lemma MeanOfLine(sumY: real, sumX: real, a: real, b: real, n: nat)
    requires n > 0 && sumY == b * sumX + a * n as real
    ensures sumY / n as real == a + b * (sumX / n as real)
  {
    var m := sumX / n as real;
    assert m * n as real == sumX;
    assert (a + b * m) * n as real == a * n as real + b * (m * n as real);
  }

  // Readings that never fall while the time goes on have no falling slope.
  lemma RisingHasNoFall(xs: seq<real>, ys: seq<real>)
    requires |xs| == |ys| > 0
    requires forall i, j :: 0 <= i < j < |xs| ==> xs[i] <= xs[j] && ys[i] <= ys[j]
    ensures CoSpread(xs, ys) >= 0.0
  {
    var m := MeanOf(xs);
    // The reading on which the times pass their mean.
    var k := 0;
    while k < |xs| && xs[k] <= m
      invariant k <= |xs|
      invariant forall i :: 0 <= i < k ==> xs[i] <= m
    {
      k := k + 1;
    }
    var pivot := if k < |xs| then ys[k] else ys[|ys| - 1];
    forall i | 0 <= i < |xs|
      ensures (Centred(xs)(i) <= 0.0 && At(ys)(i) <= pivot) || (Centred(xs)(i) >= 0.0 && At(ys)(i) >= pivot) {
      if i >= k { assert xs[i] >= xs[k] > m; }
    }
    PivotSum(Centred(xs), At(ys), Centred(ys), pivot, MeanOf(ys), |xs|);
    CentredSumsToZero(xs);
  }

  // Both factors lie on the same side of the pivot, so the sum is not negative.
  lemma PivotSum(x: int -> real, v: int -> real, y: int -> real, pivot: real, mean: real, n: nat)
    requires forall i :: 0 <= i < n ==>
      y(i) == v(i) - mean && ((x(i) <= 0.0 && v(i) <= pivot) || (x(i) >= 0.0 && v(i) >= pivot))
    ensures SumTo(Product(x, y), n) >= (pivot - mean) * SumTo(x, n)
  {
    var shifted := Product(x, i => v(i) - pivot);
    var gap := mean - pivot;
    forall i | 0 <= i < n
      ensures shifted(i) >= 0.0 && shifted(i) == Product(x, y)(i) + Scaled(gap, x)(i) + Scaled(0.0, x)(i) {
      SameSign(x(i), v(i) - pivot);
      Distributes(x(i), y(i), gap);
    }
    SumNonNegative(shifted, n);
    SumMixes(shifted, Product(x, y), x, x, gap, 0.0, n);
    assert (pivot - mean) * SumTo(x, n) == -(gap * SumTo(x, n));
  }

  lemma SameSign(a: real, b: real)
    requires (a <= 0.0 && b <= 0.0) || (a >= 0.0 && b >= 0.0)
    ensures a * b >= 0.0
  {
  }
}
