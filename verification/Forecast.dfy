/**
 Error-budget forecast (correlation-service/internal/engine/slo_forecast.go) over the reals:
 the fitted slope through its pairwise form, why it is the least-squares optimum, and when a
 budget is reported as burning.
 */
module Forecast {
  import opened Options

  // ---------------------------------------------------------- sums and pairs

  function Sum(xs: seq<real>): real {
    if xs == [] then 0.0 else Sum(xs[..|xs| - 1]) + xs[|xs| - 1]
  }

  function Dot(xs: seq<real>, ys: seq<real>): real
    requires |xs| == |ys|
  {
    if xs == [] then 0.0 else Dot(xs[..|xs| - 1], ys[..|ys| - 1]) + xs[|xs| - 1] * ys[|ys| - 1]
  }

  /** The products of differences of one point against all of `xs`, `ys`. */
  function Against(x: real, y: real, xs: seq<real>, ys: seq<real>): real
    requires |xs| == |ys|
  {
    if xs == [] then 0.0
    else Against(x, y, xs[..|xs| - 1], ys[..|ys| - 1]) + (xs[|xs| - 1] - x) * (ys[|ys| - 1] - y)
  }

  /** The sum over all pairs of points of (difference in x) times (difference in y). */
  function Pairs(xs: seq<real>, ys: seq<real>): real
    requires |xs| == |ys|
  {
    if xs == [] then 0.0
    else
      Pairs(xs[..|xs| - 1], ys[..|ys| - 1])
        + Against(xs[|xs| - 1], ys[|ys| - 1], xs[..|xs| - 1], ys[..|ys| - 1])
  }

  /** Each sum, one point longer. */
  lemma {:induction false} LastPoint(x: real, y: real, xs: seq<real>, ys: seq<real>)
    requires |xs| == |ys| > 0
    ensures var n := |xs| - 1;
      && Against(x, y, xs, ys) == Against(x, y, xs[..n], ys[..n]) + (xs[n] - x) * (ys[n] - y)
      && Dot(xs, ys) == Dot(xs[..n], ys[..n]) + xs[n] * ys[n]
      && Sum(xs) == Sum(xs[..n]) + xs[n] && Sum(ys) == Sum(ys[..n]) + ys[n]
      && Pairs(xs, ys) == Pairs(xs[..n], ys[..n]) + Against(xs[n], ys[n], xs[..n], ys[..n])
  {
  }

  lemma {:induction false} NoPoints(x: real, y: real)
    ensures Against(x, y, [], []) == 0.0 && Dot([], []) == 0.0 && Sum([]) == 0.0 && Pairs([], []) == 0.0
  {
  }

  lemma {:induction false} AgainstStep(a: real, d: real, p: real, q: real, n: real, x: real, y: real, u: real, v: real,
      a': real, d': real, p': real, q': real, n': real)
    requires a == d - y * p - x * q + n * (x * y)
    requires a' == a + (u - x) * (v - y) && d' == d + u * v && p' == p + u && q' == q + v && n' == n + 1.0
    ensures a' == d' - y * p' - x * q' + n' * (x * y)
  {
  }

  lemma {:induction false} AgainstExpands(x: real, y: real, xs: seq<real>, ys: seq<real>)
    requires |xs| == |ys|
    ensures Against(x, y, xs, ys) == Dot(xs, ys) - y * Sum(xs) - x * Sum(ys) + |xs| as real * (x * y)
  {
    hide Against, Dot, Sum;
    if xs == [] {
      NoPoints(x, y);
    } else {
      var n := |xs| - 1;
      AgainstExpands(x, y, xs[..n], ys[..n]);
      LastPoint(x, y, xs, ys);
      AgainstStep(Against(x, y, xs[..n], ys[..n]), Dot(xs[..n], ys[..n]), Sum(xs[..n]), Sum(ys[..n]), n as real,
        x, y, xs[n], ys[n], Against(x, y, xs, ys), Dot(xs, ys), Sum(xs), Sum(ys), |xs| as real);
    }
  }

  /** The shape of both the numerator and the denominator of the fit. */
  function Det(n: real, d: real, p: real, q: real): real { n * d - p * q }

  lemma {:induction false} PairsStep(s: real, g: real, d: real, p: real, q: real, n: real, u: real, v: real,
      s': real, d': real, p': real, q': real, n': real)
    requires s == Det(n, d, p, q) && g == d - v * p - u * q + n * (u * v)
    requires s' == s + g && d' == d + u * v && p' == p + u && q' == q + v && n' == n + 1.0
    ensures s' == Det(n', d', p', q')
  {
  }

  /** `n·Σxy − Σx·Σy` is the sum over pairs; with `ys` as `xs` it is the fit's denominator. */
  lemma {:induction false} PairsExpands(xs: seq<real>, ys: seq<real>)
    requires |xs| == |ys|
    ensures Pairs(xs, ys) == Det(|xs| as real, Dot(xs, ys), Sum(xs), Sum(ys))
  {
    hide Against, Dot, Sum, Pairs;
    NoPoints(0.0, 0.0);
    if xs != [] {
      hide Det;
      var n := |xs| - 1;
      var u, v := xs[n], ys[n];
      PairsExpands(xs[..n], ys[..n]);
      AgainstExpands(u, v, xs[..n], ys[..n]);
      LastPoint(u, v, xs, ys);
      PairsStep(Pairs(xs[..n], ys[..n]), Against(u, v, xs[..n], ys[..n]), Dot(xs[..n], ys[..n]), Sum(xs[..n]), Sum(ys[..n]),
        n as real, u, v, Pairs(xs, ys), Dot(xs, ys), Sum(xs), Sum(ys), |xs| as real);
    }
  }

  // ------------------------------------------------------------------ signs

  /** y never falls as x grows. */
  ghost predicate NeverFalls(xs: seq<real>, ys: seq<real>)
    requires |xs| == |ys|
  {
    forall i, j :: 0 <= i < |xs| && 0 <= j < |xs| && xs[i] < xs[j] ==> ys[i] <= ys[j]
  }

  lemma {:induction false} AgainstSign(x: real, y: real, xs: seq<real>, ys: seq<real>)
    requires |xs| == |ys|
    requires forall i :: 0 <= i < |xs| ==> (xs[i] < x ==> ys[i] <= y) && (x < xs[i] ==> y <= ys[i])
    ensures Against(x, y, xs, ys) >= 0.0
  {
    if xs != [] {
      var n := |xs| - 1;
      AgainstSign(x, y, xs[..n], ys[..n]);
      ProductSign(xs[n] - x, ys[n] - y);
    }
  }

  lemma {:induction false} ProductSign(a: real, b: real)
    requires (a < 0.0 ==> b <= 0.0) && (a > 0.0 ==> b >= 0.0)
    ensures a * b >= 0.0
  {
    if a < 0.0 { assert a * b == (-a) * (-b); }
  }

  /** Chebyshev's sum inequality: similarly ordered sequences have a non-negative pair sum. */
  lemma {:induction false} PairsSign(xs: seq<real>, ys: seq<real>)
    requires |xs| == |ys| && NeverFalls(xs, ys)
    ensures Pairs(xs, ys) >= 0.0
  {
    if xs != [] {
      var n := |xs| - 1;
      assert NeverFalls(xs[..n], ys[..n]);
      PairsSign(xs[..n], ys[..n]);
      AgainstSign(xs[n], ys[n], xs[..n], ys[..n]);
    }
  }

  predicate TwoDiffer(xs: seq<real>) { exists i, j :: 0 <= i < j < |xs| && xs[i] != xs[j] }

  function Sq(a: real): real { a * a }

  lemma {:induction false} LastSelf(x: real, xs: seq<real>)
    requires xs != []
    ensures var n := |xs| - 1;
      Against(x, x, xs, xs) == Against(x, x, xs[..n], xs[..n]) + Sq(xs[n] - x)
  {
  }

  predicate AllAre(xs: seq<real>, x: real) { forall i :: 0 <= i < |xs| ==> xs[i] == x }

  lemma {:induction false} AgainstZero(x: real, xs: seq<real>)
    ensures Against(x, x, xs, xs) >= 0.0 && (Against(x, x, xs, xs) == 0.0 <==> AllAre(xs, x))
  {
    hide Against, Sq;
    if xs == [] {
      NoPoints(x, x);
    } else {
      var n := |xs| - 1;
      AgainstZero(x, xs[..n]);
      LastSelf(x, xs);
      SquareSign(xs[n] - x);
      assert AllAre(xs, x) <==> AllAre(xs[..n], x) && xs[n] == x by {
        assert forall i :: 0 <= i < n ==> xs[..n][i] == xs[i];
      }
    }
  }

  lemma {:induction false} Positive(a: real, b: real)
    requires a > 0.0 && b > 0.0
    ensures a * b > 0.0
  {
  }

  lemma {:induction false} SquareOfNegation(a: real)
    ensures Sq(-a) == Sq(a)
  {
  }

  lemma {:induction false} SquareOfPositive(a: real)
    requires a > 0.0
    ensures Sq(a) > 0.0
  {
    calc {
      Sq(a);
      == a * a;
      > { Positive(a, a); } 0.0;
    }
  }

  lemma {:induction false} SquareOfZero()
    ensures Sq(0.0) == 0.0
  {
  }

  lemma {:induction false} SquareSign(a: real)
    ensures Sq(a) >= 0.0 && (Sq(a) == 0.0 <==> a == 0.0)
  {
    hide Sq;
    SquareOfZero();
    if a > 0.0 {
      SquareOfPositive(a);
    } else if a < 0.0 {
      SquareOfPositive(-a);
      SquareOfNegation(a);
    }
  }

  lemma {:induction false} DifferLast(xs: seq<real>)
    requires xs != []
    ensures TwoDiffer(xs) <==> TwoDiffer(xs[..|xs| - 1]) || !AllAre(xs[..|xs| - 1], xs[|xs| - 1])
  {
    var n := |xs| - 1;
    assert forall i :: 0 <= i < n ==> xs[..n][i] == xs[i];
    if !AllAre(xs[..n], xs[n]) {
      var i :| 0 <= i < n && xs[..n][i] != xs[n];
      assert xs[i] != xs[n];
    }
    if TwoDiffer(xs[..n]) {
      var i, j :| 0 <= i < j < n && xs[..n][i] != xs[..n][j];
      assert xs[i] != xs[j];
    }
  }

  /** The denominator vanishes exactly when no two times differ. */
  lemma {:induction false} DenominatorZero(xs: seq<real>)
    ensures Pairs(xs, xs) >= 0.0 && (Pairs(xs, xs) != 0.0 <==> TwoDiffer(xs))
  {
    hide Pairs, Against;
    if xs == [] {
      NoPoints(0.0, 0.0);
    } else {
      hide TwoDiffer, AllAre;
      var n := |xs| - 1;
      DenominatorZero(xs[..n]);
      AgainstZero(xs[n], xs[..n]);
      LastPoint(0.0, 0.0, xs, xs);
      DifferLast(xs);
    }
  }

  // -------------------------------------------------------------- the fit

  /** `leastSquaresSlope`: four running sums. */
  method LeastSquaresSlope(xs: seq<real>, ys: seq<real>) returns (slope: real, ok: bool)
    ensures ok <==> |xs| == |ys| && TwoDiffer(xs)
    ensures ok ==> Pairs(xs, xs) != 0.0 && slope == Pairs(xs, ys) / Pairs(xs, xs)
  {
    hide Sum, Dot, Pairs, Against, Det;
    var n := |xs|;
    if n < 2 || n != |ys| {
      return 0.0, false;
    }
    var sumX, sumY, sumXY, sumXX := 0.0, 0.0, 0.0, 0.0;
    NoPoints(0.0, 0.0);
    for i := 0 to n
      invariant sumX == Sum(xs[..i]) && sumY == Sum(ys[..i])
      invariant sumXY == Dot(xs[..i], ys[..i]) && sumXX == Dot(xs[..i], xs[..i])
    {
      assert xs[..i + 1][..i] == xs[..i] && ys[..i + 1][..i] == ys[..i];
      LastPoint(0.0, 0.0, xs[..i + 1], ys[..i + 1]);
      LastPoint(0.0, 0.0, xs[..i + 1], xs[..i + 1]);
      sumX := sumX + xs[i];
      sumY := sumY + ys[i];
      sumXY := sumXY + xs[i] * ys[i];
      sumXX := sumXX + xs[i] * xs[i];
    }
    assert xs[..n] == xs && ys[..n] == ys;
    var nf := n as real;
    var denom := nf * sumXX - sumX * sumX;
    PairsExpands(xs, xs);
    PairsExpands(xs, ys);
    DetOf(nf, sumXX, sumX, sumX);
    DetOf(nf, sumXY, sumX, sumY);
    DenominatorZero(xs);
    hide TwoDiffer;
    if denom == 0.0 {
      return 0.0, false;
    }
    return (nf * sumXY - sumX * sumY) / denom, true;
  }

  /** The squared error of the line `y = a + b·x`. */
  function Error(a: real, b: real, xs: seq<real>, ys: seq<real>): real
    requires |xs| == |ys|
  {
    if xs == [] then 0.0
    else Error(a, b, xs[..|xs| - 1], ys[..|ys| - 1]) + Sq(ys[|ys| - 1] - a - b * xs[|xs| - 1])
  }

  /** The squared error as a polynomial in the line and the sums. */
  function Quad(a: real, b: real, p: real, q: real, n: real, xy: real, xx: real, yy: real): real {
    yy - 2.0 * a * q - 2.0 * b * xy + n * (a * a) + 2.0 * (a * b) * p + (b * b) * xx
  }

  lemma {:induction false} ErrorStep(a: real, b: real, u: real, v: real, p: real, q: real, n: real, xy: real, xx: real, yy: real,
      t: real, p': real, q': real, n': real, xy': real, xx': real, yy': real, t': real)
    requires t == Quad(a, b, p, q, n, xy, xx, yy)
    requires t' == t + Sq(v - a - b * u) && n' == n + 1.0 && p' == p + u && q' == q + v
    requires xy' == xy + u * v && xx' == xx + u * u && yy' == yy + v * v
    ensures t' == Quad(a, b, p', q', n', xy', xx', yy')
  {
    SquareOfLine(v, a, b * u);
    assert (b * u) * (b * u) == (b * b) * (u * u);
    assert a * (b * u) == (a * b) * u;
    assert v * (b * u) == b * (u * v);
  }

  lemma {:induction false} ErrorLast(a: real, b: real, xs: seq<real>, ys: seq<real>)
    requires |xs| == |ys| > 0
    ensures var n := |xs| - 1;
      Error(a, b, xs, ys) == Error(a, b, xs[..n], ys[..n]) + Sq(ys[n] - a - b * xs[n])
  {
    hide Sq;
  }

  lemma {:induction false} NoError(a: real, b: real)
    ensures Error(a, b, [], []) == 0.0 && Quad(a, b, 0.0, 0.0, 0.0, 0.0, 0.0, 0.0) == 0.0
  {
  }

  lemma {:induction false} ErrorExpands(a: real, b: real, xs: seq<real>, ys: seq<real>)
    requires |xs| == |ys|
    ensures Error(a, b, xs, ys) == Quad(a, b, Sum(xs), Sum(ys), |xs| as real, Dot(xs, ys), Dot(xs, xs), Dot(ys, ys))
  {
    hide Error, Dot, Sum, Sq, Against, Pairs, Quad;
    if xs == [] {
      NoPoints(0.0, 0.0);
      NoError(a, b);
    } else {
      var n := |xs| - 1;
      ErrorExpands(a, b, xs[..n], ys[..n]);
      ErrorLast(a, b, xs, ys);
      LastPoint(0.0, 0.0, xs, ys);
      LastPoint(0.0, 0.0, xs, xs);
      LastPoint(0.0, 0.0, ys, ys);
      ErrorStep(a, b, xs[n], ys[n], Sum(xs[..n]), Sum(ys[..n]), n as real, Dot(xs[..n], ys[..n]), Dot(xs[..n], xs[..n]), Dot(ys[..n], ys[..n]),
        Error(a, b, xs[..n], ys[..n]), Sum(xs), Sum(ys), |xs| as real, Dot(xs, ys), Dot(xs, xs), Dot(ys, ys), Error(a, b, xs, ys));
    }
  }

  lemma {:induction false} SquareOfLine(v: real, a: real, w: real)
    ensures Sq(v - a - w) == v * v + a * a + w * w - 2.0 * a * v - 2.0 * (v * w) + 2.0 * (a * w)
  {
  }

  /** A parabola in the slope. */
  function Curve(d: real, m: real, b: real): real { d * (b * b) - 2.0 * b * m }

  /** How far a line misses the centre of the points, times n. */
  function Miss(n: real, a: real, b: real, p: real, q: real): real { n * a + b * p - q }

  lemma {:induction false} CompleteSquare(a: real, b: real, p: real, q: real, n: real, xy: real, xx: real, yy: real)
    ensures n * (yy - 2.0 * a * q - 2.0 * b * xy + n * (a * a) + 2.0 * (a * b) * p + (b * b) * xx)
      == (n * a + b * p - q) * (n * a + b * p - q) + (n * xx - p * p) * (b * b) - 2.0 * b * (n * xy - p * q) + (n * yy - q * q)
  {
  }

  lemma {:induction false} QuadTimes(a: real, b: real, p: real, q: real, n: real, xy: real, xx: real, yy: real)
    ensures n * Quad(a, b, p, q, n, xy, xx, yy)
      == n * (yy - 2.0 * a * q - 2.0 * b * xy + n * (a * a) + 2.0 * (a * b) * p + (b * b) * xx)
  {
  }

  lemma {:induction false} SqMiss(n: real, a: real, b: real, p: real, q: real)
    ensures Sq(Miss(n, a, b, p, q)) == (n * a + b * p - q) * (n * a + b * p - q)
  {
  }

  lemma {:induction false} CurveDet(n: real, xx: real, xy: real, p: real, q: real, b: real)
    ensures Curve(Det(n, xx, p, p), Det(n, xy, p, q), b) == (n * xx - p * p) * (b * b) - 2.0 * b * (n * xy - p * q)
  {
  }

  lemma {:induction false} DetOf(n: real, d: real, p: real, q: real)
    ensures Det(n, d, p, q) == n * d - p * q
  {
  }

  lemma {:induction false} CompleteSquareNamed(a: real, b: real, p: real, q: real, n: real, xy: real, xx: real, yy: real)
    ensures n * Quad(a, b, p, q, n, xy, xx, yy)
      == Sq(Miss(n, a, b, p, q)) + Curve(Det(n, xx, p, p), Det(n, xy, p, q), b) + Det(n, yy, q, q)
  {
    hide Quad, Sq, Miss, Curve, Det;
    QuadTimes(a, b, p, q, n, xy, xx, yy);
    CompleteSquare(a, b, p, q, n, xy, xx, yy);
    SqMiss(n, a, b, p, q);
    CurveDet(n, xx, xy, p, q, b);
    DetOf(n, yy, q, q);
  }

  lemma {:induction false} Scaled(a: real, b: real, xs: seq<real>, ys: seq<real>)
    requires |xs| == |ys|
    ensures |xs| as real * Error(a, b, xs, ys)
      == Sq(Miss(|xs| as real, a, b, Sum(xs), Sum(ys))) + Curve(Pairs(xs, xs), Pairs(xs, ys), b) + Pairs(ys, ys)
  {
    hide Error, Pairs, Dot, Sum, Sq, Quad, Det, Miss, Curve;
    ErrorExpands(a, b, xs, ys);
    PairsExpands(xs, xs);
    PairsExpands(xs, ys);
    PairsExpands(ys, ys);
    CompleteSquareNamed(a, b, Sum(xs), Sum(ys), |xs| as real, Dot(xs, ys), Dot(xs, xs), Dot(ys, ys));
  }

  /** Off the vertex, the parabola exceeds its minimum by a square. */
  lemma {:induction false} Vertex(d: real, m: real, b: real, s: real)
    requires m == s * d
    ensures Curve(d, m, b) == Curve(d, m, s) + d * Sq(b - s)
  {
    assert d * Sq(b - s) == d * (b * b) - 2.0 * (d * (b * s)) + d * (s * s);
    assert b * m == d * (b * s);
    assert s * m == d * (s * s);
  }

  lemma {:induction false} Quotient(m: real, d: real)
    requires d != 0.0
    ensures m == (m / d) * d
  {
  }

  lemma {:induction false} Centred(n: real, a: real, b: real, p: real, q: real)
    requires n > 0.0
    ensures Miss(n, a, b, p, q) == 0.0 <==> n * a == q - b * p
    ensures Sq(0.0) == 0.0
  {
  }

  lemma {:induction false} SameStart(n: real, a: real, start: real)
    requires n > 0.0 && n * a == n * start
    ensures a == start
  {
    assert n * (a - start) == 0.0;
    if a > start { Positive(n, a - start); } else if a < start { Positive(n, start - a); }
  }

  /** The returned slope, with its intercept, minimises the squared error over all lines, and every
      other line is strictly worse. */
  lemma {:induction false} SlopeIsOptimal(xs: seq<real>, ys: seq<real>, slope: real, start: real, a: real, b: real)
    requires |xs| == |ys| && TwoDiffer(xs) && Pairs(xs, xs) != 0.0
    requires slope == Pairs(xs, ys) / Pairs(xs, xs) && |xs| as real * start == Sum(ys) - slope * Sum(xs)
    ensures Error(start, slope, xs, ys) <= Error(a, b, xs, ys)
    ensures Error(start, slope, xs, ys) == Error(a, b, xs, ys) ==> a == start && b == slope
  {
    hide Error, Pairs, Sum, Sq, Miss, Curve;
    var n, d, m := |xs| as real, Pairs(xs, xs), Pairs(xs, ys);
    var p, q := Sum(xs), Sum(ys);
    var here, best := Error(a, b, xs, ys), Error(start, slope, xs, ys);
    Scaled(a, b, xs, ys);
    Scaled(start, slope, xs, ys);
    DenominatorZero(xs);
    Quotient(m, d);
    Centred(n, start, slope, p, q);
    Vertex(d, m, b, slope);
    Combine(n * here, n * best, Sq(Miss(n, a, b, p, q)), Curve(d, m, b), Curve(d, m, slope), d * Sq(b - slope), Pairs(ys, ys));
    Best(n, d, here, best, Miss(n, a, b, p, q), b - slope);
    if here == best {
      Centred(n, a, slope, p, q);
      SameStart(n, a, start);
    }
  }

  lemma {:induction false} Combine(nh: real, nb: real, miss: real, c: real, least: real, off: real, y: real)
    requires nh == miss + c + y && nb == least + y && c == least + off
    ensures nh - nb == miss + off
  {
  }

  lemma {:induction false} Best(n: real, d: real, here: real, best: real, miss: real, off: real)
    requires n > 0.0 && d > 0.0 && n * here - n * best == Sq(miss) + d * Sq(off)
    ensures best <= here && (best == here ==> miss == 0.0 && off == 0.0)
  {
    SquareSign(miss);
    SquareSign(off);
    ScaledSign(d, Sq(off));
    assert n * (here - best) == n * here - n * best;
    if here < best { ScaledSign(n, best - here); }
  }

  lemma {:induction false} ScaledSign(d: real, q: real)
    requires d > 0.0 && q >= 0.0
    ensures d * q >= 0.0 && (d * q == 0.0 <==> q == 0.0)
  {
  }

  // ------------------------------------------------------------- the forecast

  datatype Point = Point(atNanos: int, sli: real)

  function Clamp(v: real): real { if v < 0.0 then 0.0 else if v > 100.0 then 100.0 else v }

  function BudgetRemaining(sli: real, total: real): real {
    if total <= 0.0 then 100.0 else Clamp(((total - (100.0 - sli)) / total) * 100.0)
  }

  /** Unix seconds. */
  function Seconds(p: Point): real { (p.atNanos / 1_000_000_000) as real }

  function Times(trend: seq<Point>): (xs: seq<real>)
    ensures |xs| == |trend|
  {
    seq(|trend|, i requires 0 <= i < |trend| => Seconds(trend[i]))
  }

  function Budgets(trend: seq<Point>, total: real): (ys: seq<real>)
    ensures |ys| == |trend|
  {
    seq(|trend|, i requires 0 <= i < |trend| => BudgetRemaining(trend[i].sli, total))
  }

  /** The fitted rate, where one exists. */
  function Slope(trend: seq<Point>, target: real): real
    requires TwoDiffer(Times(trend))
  {
    var xs, ys := Times(trend), Budgets(trend, 100.0 - target);
    DenominatorZero(xs);
    Pairs(xs, ys) / Pairs(xs, xs)
  }

  const HORIZON_DAYS := 365.0

  /** A budget exists, a line can be fitted and falls, and the budget left lasts no longer than the
      horizon at that rate. */
  predicate Burns(trend: seq<Point>, target: real, current: real) {
    && target < 100.0 && TwoDiffer(Times(trend)) && Slope(trend, target) < 0.0
    && Clamp(current) <= HORIZON_DAYS * 86400.0 * -Slope(trend, target)
  }

  /** `ForecastBudgetExhaustion`: burning, if and only if there is a budget, a fit, a falling fit and a
      run-out within the horizon; then the fitted line reaches zero exactly at the run-out. */
  method ForecastBudgetExhaustion(trend: seq<Point>, target: real, current: real, nowNanos: int)
      returns (exhaustAt: Option<int>, daysLeft: real, burning: bool)
    ensures burning <==> Burns(trend, target, current)
    ensures exhaustAt.Some? <==> burning
    ensures burning ==> 0.0 <= daysLeft <= 365.0
    ensures burning ==> Clamp(current) + Slope(trend, target) * (daysLeft * 86400.0) == 0.0
    ensures burning ==> exhaustAt.value == nowNanos + (daysLeft * 86400.0 * 1_000_000_000.0).Floor
    ensures !burning ==> daysLeft == 0.0
    // in SLI terms: a line that falls towards the target is followed to the moment it reaches it
    ensures forall a, m :: FallingLine(trend, target, a, m, current, nowNanos) ==>
      (burning <==> trend[|trend| - 1].sli - target <= m * (365.0 * 86400.0))
    ensures forall a, m :: FallingLine(trend, target, a, m, current, nowNanos) && burning ==>
      a - m * ((nowNanos / 1_000_000_000) as real + daysLeft * 86400.0) == target
  {
    exhaustAt, daysLeft, burning := Project(trend, target, current, nowNanos);
    hide Burns, Slope, Clamp, TwoDiffer, Times;
    forall a, m | FallingLine(trend, target, a, m, current, nowNanos)
      ensures burning <==> trend[|trend| - 1].sli - target <= m * (365.0 * 86400.0)
      ensures burning ==> a - m * ((nowNanos / 1_000_000_000) as real + daysLeft * 86400.0) == target
    {
      LineReachesTarget(trend, target, a, m, current, nowNanos, daysLeft * 86400.0);
    }
  }

  method Project(trend: seq<Point>, target: real, current: real, nowNanos: int)
      returns (exhaustAt: Option<int>, daysLeft: real, burning: bool)
    ensures burning <==> Burns(trend, target, current)
    ensures exhaustAt.Some? <==> burning
    ensures burning ==> 0.0 <= daysLeft <= HORIZON_DAYS
    ensures burning ==> Clamp(current) + Slope(trend, target) * (daysLeft * 86400.0) == 0.0
    ensures burning ==> exhaustAt.value == nowNanos + (daysLeft * 86400.0 * 1_000_000_000.0).Floor
    ensures !burning ==> daysLeft == 0.0
  {
    var total := 100.0 - target;
    if total <= 0.0 {
      return None, 0.0, false;
    }
    var xs, ys := [], [];
    for k := 0 to |trend|
      invariant xs == Times(trend)[..k] && ys == Budgets(trend, total)[..k]
    {
      xs := xs + [Seconds(trend[k])];
      ys := ys + [BudgetRemaining(trend[k].sli, total)];
    }
    assert xs == Times(trend) && ys == Budgets(trend, total);
    var slope, ok := LeastSquaresSlope(xs, ys);
    if !ok {
      return None, 0.0, false;
    }
    assert slope == Slope(trend, target);
    if slope >= 0.0 {
      return None, 0.0, false;
    }
    hide Slope, TwoDiffer, Times, Budgets, Pairs;
    var remaining := Clamp(current);
    if remaining <= 0.0 {
      HorizonOk(slope);
      return Some(nowNanos), 0.0, true;
    }
    var secondsToZero := remaining / -slope;
    var days := secondsToZero / 86400.0;
    RunOut(remaining, slope, secondsToZero, days);
    if days > HORIZON_DAYS {
      return None, 0.0, false;
    }
    return Some(nowNanos + (secondsToZero * 1_000_000_000.0).Floor), days, true;
  }

  // ------------------------------------------------------- a line in SLI terms

  /** The points lie on a line that falls by `m` a second inside [target, 100]; the last one is now, and
      the current budget is the share of the target's error budget it leaves. */
  predicate FallingLine(trend: seq<Point>, target: real, a: real, m: real, current: real, nowNanos: int) {
    && target < 100.0 && m > 0.0 && trend != []
    && (exists i, j :: 0 <= i < j < |trend| && trend[i].atNanos / 1_000_000_000 != trend[j].atNanos / 1_000_000_000)
    && (forall k :: 0 <= k < |trend| ==>
          trend[k].sli == a - m * (trend[k].atNanos / 1_000_000_000) as real && target <= trend[k].sli <= 100.0)
    && trend[|trend| - 1].atNanos == nowNanos
    && (100.0 - target) * current == 100.0 * (trend[|trend| - 1].sli - target)
  }

  /** What is left of the error budget, in percent: all of it at 100, none at the target or below. */
  lemma {:induction false} BudgetLeft(sli: real, target: real)
    requires target < 100.0
    ensures target <= sli <= 100.0 ==> (100.0 - target) * BudgetRemaining(sli, 100.0 - target) == 100.0 * (sli - target)
    ensures sli <= target ==> BudgetRemaining(sli, 100.0 - target) == 0.0
    ensures sli >= 100.0 ==> BudgetRemaining(sli, 100.0 - target) == 100.0
  {
    var d := 100.0 - target;
    var q := (d - (100.0 - sli)) / d;
    assert d * q == sli - target;
    Share(d, q, sli - target);
    Hundredfold(d, q, sli - target);
  }

  lemma {:induction false} Hundredfold(d: real, q: real, x: real)
    requires d * q == x
    ensures d * (q * 100.0) == 100.0 * x
  {
  }

  /** A product, kept from the solver's arithmetic. */
  function Mul(a: real, b: real): real { a * b }

  lemma {:induction false} MulRules(d: real, q: real)
    ensures Mul(d, 1.0 - q) == d - Mul(d, q) && Mul(d, q - 1.0) == Mul(d, q) - d && Mul(d, -q) == -Mul(d, q)
  {
  }

  lemma {:induction false} MulSign(a: real, b: real)
    requires a > 0.0
    ensures b > 0.0 ==> Mul(a, b) > 0.0
  {
    if b > 0.0 { Positive(a, b); }
  }

  lemma {:induction false} MulShare(d: real, q: real)
    requires d > 0.0
    ensures (Mul(d, q) <= 0.0 ==> q <= 0.0) && (Mul(d, q) >= 0.0 ==> q >= 0.0)
    ensures (Mul(d, q) >= d ==> q >= 1.0) && (Mul(d, q) <= d ==> q <= 1.0)
    ensures (q > 0.0 ==> Mul(d, q) > 0.0) && (q < 0.0 ==> Mul(d, q) < 0.0) && (q == 0.0 ==> Mul(d, q) == 0.0)
  {
    hide Mul;
    MulRules(d, q);
    MulSign(d, q);
    MulSign(d, -q);
    MulSign(d, 1.0 - q);
    MulSign(d, q - 1.0);
    MulRules(d, 0.0);
  }

  lemma {:induction false} Share(d: real, q: real, x: real)
    requires d > 0.0 && d * q == x
    ensures (x <= 0.0 ==> q <= 0.0) && (x >= d ==> q >= 1.0) && (0.0 <= x <= d ==> 0.0 <= q <= 1.0)
  {
    MulShare(d, q);
    assert Mul(d, q) == x;
  }

  lemma {:induction false} Signs(d: real, s: real)
    requires d > 0.0
    ensures (s > 0.0 ==> d * s > 0.0) && (s < 0.0 ==> d * s < 0.0) && (s == 0.0 ==> d * s == 0.0)
  {
    MulShare(d, s);
    assert Mul(d, s) == d * s;
  }

  lemma {:induction false} LineProduct(u: real, x: real, v: real, y: real, c: real, r: real, p: real)
    requires v == c - r * u && y == c - r * x && p == (u - x) * (u - x)
    ensures (u - x) * (v - y) == -r * p
  {
    assert v - y == -r * (u - x);
  }

  predicate OnLine(xs: seq<real>, ys: seq<real>, c: real, r: real) {
    |xs| == |ys| && forall k :: 0 <= k < |xs| ==> ys[k] == c - r * xs[k]
  }

  lemma {:induction false} AddScaled(r: real, p: real, q: real)
    ensures -r * p + -r * q == -r * (p + q)
  {
  }

  lemma {:induction false} AgainstOnLine(x: real, y: real, xs: seq<real>, ys: seq<real>, c: real, r: real)
    requires OnLine(xs, ys, c, r) && y == c - r * x
    ensures Against(x, y, xs, ys) == -r * Against(x, x, xs, xs)
  {
    hide Against, Pairs, Dot, Sum;
    if xs == [] {
      NoPoints(x, y);
      NoPoints(x, x);
    } else {
      var n := |xs| - 1;
      AgainstOnLine(x, y, xs[..n], ys[..n], c, r);
      LastPoint(x, y, xs, ys);
      LastPoint(x, x, xs, xs);
      var p := (xs[n] - x) * (xs[n] - x);
      LineProduct(xs[n], x, ys[n], y, c, r, p);
      AddScaled(r, Against(x, x, xs[..n], xs[..n]), p);
    }
  }

  lemma {:induction false} PairsOnLine(xs: seq<real>, ys: seq<real>, c: real, r: real)
    requires OnLine(xs, ys, c, r)
    ensures Pairs(xs, ys) == -r * Pairs(xs, xs)
  {
    hide Against, Pairs, Dot, Sum;
    if xs == [] {
      NoPoints(0.0, 0.0);
    } else {
      var n := |xs| - 1;
      PairsOnLine(xs[..n], ys[..n], c, r);
      LastPoint(0.0, 0.0, xs, ys);
      LastPoint(0.0, 0.0, xs, xs);
      AgainstOnLine(xs[n], ys[n], xs[..n], ys[..n], c, r);
      AddScaled(r, Pairs(xs[..n], xs[..n]), Against(xs[n], xs[n], xs[..n], xs[..n]));
    }
  }

  /** A budget value on a falling SLI line lies on the scaled line. */
  lemma {:induction false} BudgetOnLine(y: real, d: real, a: real, m: real, x: real, target: real, c: real, r: real)
    requires d > 0.0 && d * y == 100.0 * (a - m * x - target) && Product(d, c, 100.0 * (a - target)) && Product(d, r, 100.0 * m)
    ensures y == c - r * x
  {
    assert d * (r * x) == 100.0 * (m * x);
    assert d * (y - (c - r * x)) == 0.0;
  }

  /** `d · c == x`, kept from the solver where it is only passed on. */
  predicate Product(d: real, c: real, x: real) { d * c == x }

  lemma {:induction false} Coefficient(d: real, x: real) returns (c: real)
    requires d > 0.0
    ensures Product(d, c, x)
  {
    c := x / d;
  }

  lemma {:induction false} BudgetsOnLine(trend: seq<Point>, target: real, a: real, m: real, current: real, nowNanos: int, d: real)
      returns (c: real, r: real)
    requires FallingLine(trend, target, a, m, current, nowNanos) && d == 100.0 - target
    ensures OnLine(Times(trend), Budgets(trend, d), c, r) && Product(d, r, 100.0 * m)
    ensures TwoDiffer(Times(trend)) && d > 0.0
  {
    TimesDiffer(trend, target, a, m, current, nowNanos);
    hide FallingLine, Times, Budgets, TwoDiffer, Product, OnLine;
    c := Coefficient(d, 100.0 * (a - target));
    r := Coefficient(d, 100.0 * m);
    assert OnLine(Times(trend), Budgets(trend, d), c, r) by { AllOnLine(trend, target, a, m, current, nowNanos, d, c, r); }
  }

  lemma {:induction false} AllOnLine(trend: seq<Point>, target: real, a: real, m: real, current: real, nowNanos: int, d: real,
      c: real, r: real)
    requires FallingLine(trend, target, a, m, current, nowNanos) && d == 100.0 - target
    requires Product(d, c, 100.0 * (a - target)) && Product(d, r, 100.0 * m)
    ensures OnLine(Times(trend), Budgets(trend, d), c, r)
  {
    hide FallingLine, Times, Budgets, Product;
    forall k | 0 <= k < |trend| ensures Budgets(trend, d)[k] == c - r * Times(trend)[k] {
      PointOnLine(trend, target, a, m, current, nowNanos, d, k, c, r);
    }
  }

  lemma {:induction false} TimesDiffer(trend: seq<Point>, target: real, a: real, m: real, current: real, nowNanos: int)
    requires FallingLine(trend, target, a, m, current, nowNanos)
    ensures TwoDiffer(Times(trend)) && target < 100.0
  {
    var i, j :| 0 <= i < j < |trend| && trend[i].atNanos / 1_000_000_000 != trend[j].atNanos / 1_000_000_000;
    assert Times(trend)[i] != Times(trend)[j];
  }

  lemma {:induction false} PointGiven(trend: seq<Point>, target: real, a: real, m: real, current: real, nowNanos: int, d: real, k: nat)
    requires FallingLine(trend, target, a, m, current, nowNanos) && k < |trend| && d == 100.0 - target
    ensures trend[k].sli == a - m * Seconds(trend[k]) && target <= trend[k].sli <= 100.0 && d > 0.0
    ensures Budgets(trend, d)[k] == BudgetRemaining(trend[k].sli, d) && Times(trend)[k] == Seconds(trend[k])
  {
    hide BudgetRemaining;
  }

  lemma {:induction false} PointOnLine(trend: seq<Point>, target: real, a: real, m: real, current: real, nowNanos: int, d: real,
      k: nat, c: real, r: real)
    requires FallingLine(trend, target, a, m, current, nowNanos) && k < |trend| && d == 100.0 - target
    requires Product(d, c, 100.0 * (a - target)) && Product(d, r, 100.0 * m)
    ensures Budgets(trend, d)[k] == c - r * Times(trend)[k]
  {
    hide FallingLine, Budgets, Times, BudgetRemaining, Seconds;
    PointGiven(trend, target, a, m, current, nowNanos, d, k);
    BudgetLeft(trend[k].sli, target);
    BudgetOnLine(BudgetRemaining(trend[k].sli, d), d, a, m, Seconds(trend[k]), target, c, r);
  }

  lemma {:induction false} NegQuotient(r: real, p: real)
    requires p != 0.0
    ensures -r * p / p == -r
  {
  }

  lemma {:induction false} SlopeOnLine(trend: seq<Point>, target: real, a: real, m: real, current: real, nowNanos: int, d: real)
    requires FallingLine(trend, target, a, m, current, nowNanos) && d == 100.0 - target
    ensures TwoDiffer(Times(trend)) && d > 0.0 && Product(d, -Slope(trend, target), 100.0 * m)
  {
    hide Product, FallingLine, OnLine, Times, Budgets, TwoDiffer, Pairs;
    var c, r := BudgetsOnLine(trend, target, a, m, current, nowNanos, d);
    var xs, ys := Times(trend), Budgets(trend, d);
    PairsOnLine(xs, ys, c, r);
    DenominatorZero(xs);
    SlopeIs(trend, target, xs, ys);
    NegatedSlope(d, r, 100.0 * m, Pairs(xs, xs), Pairs(xs, ys), Slope(trend, target));
  }

  lemma {:induction false} NegatedSlope(d: real, r: real, x: real, p: real, q: real, slope: real)
    requires Product(d, r, x) && p != 0.0 && q == -r * p && slope == q / p
    ensures Product(d, -slope, x)
  {
    NegQuotient(r, p);
    assert -slope == r;
  }

  lemma {:induction false} SlopeIs(trend: seq<Point>, target: real, xs: seq<real>, ys: seq<real>)
    requires xs == Times(trend) && ys == Budgets(trend, 100.0 - target) && TwoDiffer(xs)
    ensures Pairs(xs, xs) != 0.0 && Slope(trend, target) == Pairs(xs, ys) / Pairs(xs, xs)
  {
    DenominatorZero(xs);
  }

  lemma {:induction false} Cleared(d: real, s: real, m: real, current: real, left: real, span: real)
    requires d > 0.0 && m > 0.0 && span >= 0.0 && Product(d, s, 100.0 * m) && Product(d, current, 100.0 * left)
    ensures s > 0.0
    ensures current <= span * s <==> left <= m * span
    ensures current - s * span == 0.0 ==> left == m * span
  {
    Signs(d, s);
    assert d * (span * s) == 100.0 * (m * span);
    var gap := span * s - current;
    assert d * gap == 100.0 * (m * span - left);
    Signs(d, gap);
  }

  lemma {:induction false} LineGiven(trend: seq<Point>, target: real, a: real, m: real, current: real, nowNanos: int, d: real, left: real)
    requires FallingLine(trend, target, a, m, current, nowNanos) && d == 100.0 - target && left == trend[|trend| - 1].sli - target
    ensures Product(d, current, 100.0 * left) && 0.0 <= left <= d && d > 0.0 && m > 0.0
    ensures trend[|trend| - 1].sli == a - m * (nowNanos / 1_000_000_000) as real
  {
  }

  /** On such a line the forecast burns when the target is within the horizon, and a run-out of the
      budget is the moment the line reaches the target. */
  lemma {:induction false} LineReachesTarget(trend: seq<Point>, target: real, a: real, m: real, current: real, nowNanos: int, span: real)
    requires FallingLine(trend, target, a, m, current, nowNanos) && span >= 0.0
    ensures Burns(trend, target, current) <==> trend[|trend| - 1].sli - target <= m * (365.0 * 86400.0)
    ensures TwoDiffer(Times(trend))
    ensures Clamp(current) + Slope(trend, target) * span == 0.0 ==>
      a - m * ((nowNanos / 1_000_000_000) as real + span) == target
  {
    var d, left := 100.0 - target, trend[|trend| - 1].sli - target;
    SlopeOnLine(trend, target, a, m, current, nowNanos, d);
    LineGiven(trend, target, a, m, current, nowNanos, d, left);
    hide Slope, TwoDiffer, Times, FallingLine, Product, Clamp;
    CurrentInRange(d, current, left);
    var slope := Slope(trend, target);
    Cleared(d, -slope, m, current, left, 365.0 * 86400.0);
    Cleared(d, -slope, m, current, left, span);
    Negated(slope, span);
    Distribute(m, (nowNanos / 1_000_000_000) as real, span);
  }

  lemma {:induction false} Negated(slope: real, span: real)
    ensures slope * span == -(-slope * span)
  {
  }

  lemma {:induction false} Distribute(m: real, x: real, y: real)
    ensures m * (x + y) == m * x + m * y
  {
  }

  lemma {:induction false} CurrentInRange(d: real, current: real, left: real)
    requires d > 0.0 && Product(d, current, 100.0 * left) && 0.0 <= left <= d
    ensures Clamp(current) == current
  {
    Signs(d, current);
    Signs(d, current - 100.0);
    assert d * (current - 100.0) == 100.0 * (left - d);
  }

  lemma {:induction false} HorizonOk(slope: real)
    requires slope < 0.0
    ensures 0.0 <= HORIZON_DAYS * 86400.0 * -slope && slope * (0.0 * 86400.0) == 0.0 && (0.0 * 86400.0 * 1_000_000_000.0).Floor == 0
  {
  }

  lemma {:induction false} RunOut(remaining: real, slope: real, seconds: real, days: real)
    requires slope < 0.0 && remaining > 0.0 && seconds == remaining / -slope && days == seconds / 86400.0
    ensures remaining + slope * seconds == 0.0 && days > 0.0 && seconds == days * 86400.0
    ensures days <= HORIZON_DAYS <==> remaining <= HORIZON_DAYS * 86400.0 * -slope
  {
    assert seconds * -slope == remaining;
    if days <= HORIZON_DAYS {
      Scale(seconds, HORIZON_DAYS * 86400.0, -slope);
    } else {
      Scale(HORIZON_DAYS * 86400.0, seconds, -slope);
      assert HORIZON_DAYS * 86400.0 * -slope != seconds * -slope;
    }
  }

  lemma {:induction false} Scale(a: real, b: real, c: real)
    requires a <= b && c > 0.0
    ensures a * c <= b * c && (a != b ==> a * c != b * c)
  {
    assert (b - a) * c >= 0.0;
  }

  lemma {:induction false} BudgetMonotone(s: real, t: real, total: real)
    requires s <= t
    ensures BudgetRemaining(s, total) <= BudgetRemaining(t, total)
  {
    if total > 0.0 {
      var a, b := total - (100.0 - s), total - (100.0 - t);
      assert b / total - a / total == (b - a) / total >= 0.0;
    }
  }

  predicate Recovering(trend: seq<Point>) {
    forall i, j :: 0 <= i < |trend| && 0 <= j < |trend| && trend[i].atNanos < trend[j].atNanos ==> trend[i].sli <= trend[j].sli
  }

  lemma {:induction false} SecondsOrder(p: Point, q: Point)
    requires Seconds(p) < Seconds(q)
    ensures p.atNanos < q.atNanos
  {
  }

  lemma {:induction false} SeriesNeverFalls(trend: seq<Point>, total: real)
    requires Recovering(trend)
    ensures NeverFalls(Times(trend), Budgets(trend, total))
  {
    hide BudgetRemaining, Seconds;
    var xs, ys := Times(trend), Budgets(trend, total);
    forall i, j | 0 <= i < |xs| && 0 <= j < |xs| && xs[i] < xs[j]
      ensures ys[i] <= ys[j]
    {
      SecondsOrder(trend[i], trend[j]);
      BudgetMonotone(trend[i].sli, trend[j].sli, total);
    }
  }

  /** If the SLI never falls as time increases, nothing is reported as burning. */
  lemma {:induction false} RecoveringNeverBurns(trend: seq<Point>, target: real, current: real)
    requires Recovering(trend)
    ensures !Burns(trend, target, current)
  {
    hide Pairs, TwoDiffer, Times, Budgets, NeverFalls, Clamp;
    if TwoDiffer(Times(trend)) {
      var xs, ys := Times(trend), Budgets(trend, 100.0 - target);
      SeriesNeverFalls(trend, 100.0 - target);
      PairsSign(xs, ys);
      DenominatorZero(xs);
      QuotientSign(Pairs(xs, ys), Pairs(xs, xs));
    }
  }

  lemma {:induction false} QuotientSign(m: real, d: real)
    requires m >= 0.0 && d > 0.0
    ensures m / d >= 0.0
  {
  }
}
