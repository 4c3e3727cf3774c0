/** The 95% Wilson score lower bound, in exact arithmetic with a given square
    root. */
module Wilson {
  import opened Support

  const WILSON_Z95: real := 1.959963984540054

  ghost predicate IsSqrt(sqrt: real -> real) {
    forall x: real :: x >= 0.0 ==> sqrt(x) >= 0.0 && sqrt(x) * sqrt(x) == x
  }

  function Rate(successes: nat, samples: nat): real
    requires samples > 0
  {
    successes as real / samples as real
  }

  /** The score interval's lower end for an observed probability, a count and a quantile `z`. */
  function Score(sqrt: real -> real, probability: real, count: real, z: real): real
    requires count > 0.0
  {
    var zSquared := z * z;
    var denominator := 1.0 + zSquared / count;
    var center := probability + zSquared / (2.0 * count);
    var margin := z * sqrt((probability * (1.0 - probability) + zSquared / (4.0 * count)) / count);
    DenominatorIsPositive(z, count);
    (center - margin) / denominator
  }

  lemma {:induction false} DenominatorIsPositive(z: real, count: real)
    requires count > 0.0
    ensures 1.0 + z * z / count > 0.0
  {
    SquareIsNonNegative(z);
    ShareSign(z * z, count);
  }

  lemma {:induction false} SquareIsNonNegative(x: real)
    ensures x * x >= 0.0
  {
  }

  lemma {:induction false} ShareSign(w: real, n: real)
    requires n > 0.0
    ensures w > 0.0 ==> w / n > 0.0
    ensures w >= 0.0 ==> w / n >= 0.0
  {
  }

  /** A lower confidence bound for a count of successes among samples. */
  type LowerBound = (nat, nat) -> real

  /** The score clamped at zero, and zero without samples. */
  function ScoreBound(sqrt: real -> real, z: real): LowerBound {
    (successes: nat, samples: nat) =>
      if samples == 0 then 0.0 else Max(0.0, Score(sqrt, Rate(successes, samples), samples as real, z))
  }

  /** The bound stored with every bin. */
  function WilsonBound(sqrt: real -> real): LowerBound {
    ScoreBound(sqrt, WILSON_Z95)
  }

  // ----- the defining quadratic, divided by the sample count

  /** `(p - x)^2 - u x (1 - x)`, where `u` is z squared over the sample count. */
  function Quadratic(p: real, u: real, x: real): real {
    (p - x) * (p - x) - u * x * (1.0 - x)
  }

  function Discriminant(p: real, u: real): real {
    u * p * (1.0 - p) + u * u / 4.0
  }

  /** Completing the square. */
  lemma {:induction false} SquareCompleted(p: real, u: real, x: real)
    ensures var y := (1.0 + u) * x - (p + u / 2.0);
            (1.0 + u) * Quadratic(p, u, x) == y * y - Discriminant(p, u)
  {
    var c := p + u / 2.0;
    var dx := (1.0 + u) * x;
    var y := dx - c;
    assert y * y == dx * dx - 2.0 * c * dx + c * c;
    assert Quadratic(p, u, x) == (1.0 + u) * (x * x) - 2.0 * c * x + p * p by {
      assert (p - x) * (p - x) == p * p - 2.0 * p * x + x * x;
      assert u * x * (1.0 - x) == u * x - u * (x * x);
      assert 2.0 * c * x == 2.0 * p * x + u * x;
      assert (1.0 + u) * (x * x) == x * x + u * (x * x);
    }
    assert (1.0 + u) * Quadratic(p, u, x)
           == (1.0 + u) * ((1.0 + u) * (x * x)) - (1.0 + u) * (2.0 * c * x) + (1.0 + u) * (p * p);
    assert dx * dx == (1.0 + u) * ((1.0 + u) * (x * x));
    assert 2.0 * c * dx == (1.0 + u) * (2.0 * c * x);
    CenterSquared(p, u);
  }

  lemma {:induction false} CenterSquared(p: real, u: real)
    ensures var c := p + u / 2.0; c * c - (1.0 + u) * (p * p) == Discriminant(p, u)
  {
    var c := p + u / 2.0;
    assert c * c == p * p + p * u + u * u / 4.0;
    assert (1.0 + u) * (p * p) == p * p + u * (p * p);
    assert u * p * (1.0 - p) == p * u - u * (p * p);
  }

  /** A bound for `p` and `u`: the smaller solution of the completed square. */
  ghost predicate Lower(p: real, u: real, x: real) {
    var y := (1.0 + u) * x - (p + u / 2.0);
    y <= 0.0 && y * y == Discriminant(p, u)
  }

  /** It is a root ... */
  lemma {:induction false} LowerIsRoot(p: real, u: real, x: real)
    requires u > 0.0 && Lower(p, u, x)
    ensures Quadratic(p, u, x) == 0.0
  {
    SquareCompleted(p, u, x);
    assert (1.0 + u) * Quadratic(p, u, x) == 0.0;
  }

  lemma {:induction false} SquaresOrder(a: real, b: real)
    requires a < b <= 0.0
    ensures a * a > b * b
  {
    Positive(b - a, 0.0 - b - a);
    assert (b - a) * (0.0 - b - a) == a * a - b * b;
  }

  lemma {:induction false} Positive(a: real, b: real)
    requires a > 0.0 && b > 0.0
    ensures a * b > 0.0
  {
  }

  lemma {:induction false} NonNegative(a: real, b: real)
    requires a >= 0.0 && b >= 0.0
    ensures a * b >= 0.0
  {
  }

  lemma {:induction false} SignOfFactor(a: real, b: real)
    requires a > 0.0
    ensures a * b > 0.0 ==> b > 0.0
    ensures a * b >= 0.0 ==> b >= 0.0
  {
    if b < 0.0 {
      Positive(a, 0.0 - b);
      assert a * b == 0.0 - a * (0.0 - b);
    }
  }

  /** ... with the quadratic positive below it ... */
  lemma {:induction false} PositiveBelow(p: real, u: real, x: real, t: real)
    requires u > 0.0 && Lower(p, u, x) && t < x
    ensures Quadratic(p, u, t) > 0.0
  {
    SquareCompleted(p, u, t);
    Positive(1.0 + u, x - t);
    SquaresOrder((1.0 + u) * t - (p + u / 2.0), (1.0 + u) * x - (p + u / 2.0));
    SignOfFactor(1.0 + u, Quadratic(p, u, t));
  }

  lemma {:induction false} QuadraticAtRate(p: real, u: real)
    requires u > 0.0 && 0.0 <= p <= 1.0
    ensures Quadratic(p, u, p) <= 0.0
  {
    NonNegative(u, p);
    NonNegative(u * p, 1.0 - p);
  }

  lemma {:induction false} UnitFromProduct(x: real)
    requires x * (1.0 - x) >= 0.0
    ensures 0.0 <= x <= 1.0
  {
    if x < 0.0 {
      Positive(0.0 - x, 1.0 - x);
    } else if x > 1.0 {
      Positive(x, x - 1.0);
    }
  }

  /** ... and it lies between zero and the rate. */
  lemma {:induction false} LowerIsBetween(p: real, u: real, x: real)
    requires u > 0.0 && 0.0 <= p <= 1.0 && Lower(p, u, x)
    ensures 0.0 <= x <= p
  {
    LowerIsRoot(p, u, x);
    SquareIsNonNegative(p - x);
    assert u * x * (1.0 - x) == u * (x * (1.0 - x));
    SignOfFactor(u, x * (1.0 - x));
    UnitFromProduct(x);
    QuadraticAtRate(p, u);
    if p < x {
      PositiveBelow(p, u, x, p);
    }
  }

  // ----- the computed bound

  lemma {:induction false} Halves(n: real, w: real)
    requires n > 0.0
    ensures w / (2.0 * n) == (w / n) / 2.0 && w / (4.0 * n) == (w / n) / 4.0
  {
    var u := w / n;
    assert u * n == w;
    assert (u / 2.0) * (2.0 * n) == w;
    assert (u / 4.0) * (4.0 * n) == w;
  }

  /** The squared margin is the discriminant. */
  lemma {:induction false} MarginSquared(p: real, n: real, w: real, v: real)
    requires n > 0.0 && v == (p * (1.0 - p) + w / (4.0 * n)) / n
    ensures w * v == Discriminant(p, w / n)
  {
    Halves(n, w);
    var u := w / n;
    var a := p * (1.0 - p) + u / 4.0;
    assert v * n == a;
    assert w * v == (u * n) * v == u * (v * n) == u * a;
    assert u * a == u * (p * (1.0 - p)) + u * (u / 4.0);
    assert u * (p * (1.0 - p)) == u * p * (1.0 - p);
  }

  /** The square root taken is of a non-negative number, and the squared margin is the discriminant. */
  lemma {:induction false} MarginOfScore(sqrt: real -> real, p: real, n: real, z: real, u: real)
    requires IsSqrt(sqrt) && 0.0 <= p <= 1.0 && n > 0.0 && z > 0.0 && u == z * z / n && u > 0.0
    ensures var m := z * sqrt((p * (1.0 - p) + z * z / (4.0 * n)) / n); m >= 0.0 && m * m == Discriminant(p, u)
  {
    var v := (p * (1.0 - p) + z * z / (4.0 * n)) / n;
    NonNegative(p, 1.0 - p);
    Halves(n, z * z);
    assert v * n == p * (1.0 - p) + u / 4.0;
    SignOfFactor(n, v);
    NonNegative(z, sqrt(v));
    MarginSquared(p, n, z * z, v);
    SquaredProduct(z, sqrt(v));
  }

  lemma {:induction false} ScoreIsLower(sqrt: real -> real, p: real, n: real, z: real, u: real)
    requires IsSqrt(sqrt) && 0.0 <= p <= 1.0 && n > 0.0 && z > 0.0 && u == z * z / n && u > 0.0
    ensures Lower(p, u, Score(sqrt, p, n, z))
  {
    Halves(n, z * z);
    MarginOfScore(sqrt, p, n, z, u);
    RootOfLinear(1.0 + u, p + u / 2.0, z * sqrt((p * (1.0 - p) + z * z / (4.0 * n)) / n));
  }

  lemma {:induction false} SquareShare(z: real, n: real)
    requires z > 0.0 && n > 0.0
    ensures z * z / n > 0.0
  {
    assert z / n > 0.0;
    Positive(z, z / n);
    assert z * (z / n) == z * z / n;
  }

  lemma {:induction false} SquaredProduct(a: real, b: real)
    ensures (a * b) * (a * b) == (a * a) * (b * b)
  {
    assert (a * b) * (a * b) == a * (b * (a * b)) == a * (a * (b * b));
  }

  lemma {:induction false} RootOfLinear(d: real, c: real, m: real)
    requires d > 0.0
    ensures var y := d * ((c - m) / d) - c; y == 0.0 - m && y * y == m * m
  {
    assert d * ((c - m) / d) == c - m;
  }

  lemma {:induction false} RateIsUnit(successes: nat, samples: nat)
    requires samples > 0 && successes <= samples
    ensures 0.0 <= Rate(successes, samples) <= 1.0
  {
  }

  /** The quadratic as it is usually written: `n (p - x)^2 = w x (1 - x)`. */
  ghost predicate IsRoot(p: real, n: real, w: real, x: real) {
    n * ((p - x) * (p - x)) == w * (x * (1.0 - x))
  }

  /** A root with no smaller one. */
  ghost predicate IsSmallerRoot(p: real, n: real, w: real, x: real) {
    IsRoot(p, n, w, x) && forall t: real :: IsRoot(p, n, w, t) ==> x <= t
  }

  lemma {:induction false} Scaled(p: real, n: real, w: real, x: real)
    requires n > 0.0
    ensures IsRoot(p, n, w, x) <==> Quadratic(p, w / n, x) == 0.0
  {
    var u := w / n;
    var a, b := (p - x) * (p - x), x * (1.0 - x);
    assert u * x * (1.0 - x) == u * b;
    assert u * n == w;
    assert n * (a - u * b) == n * a - (u * n) * b;
  }

  lemma {:induction false} LowerIsSmallestRoot(p: real, n: real, w: real, x: real)
    requires n > 0.0 && w / n > 0.0 && Lower(p, w / n, x)
    ensures IsSmallerRoot(p, n, w, x)
  {
    LowerIsRoot(p, w / n, x);
    Scaled(p, n, w, x);
    forall t: real | IsRoot(p, n, w, t) ensures x <= t {
      Scaled(p, n, w, t);
      if t < x {
        PositiveBelow(p, w / n, x, t);
      }
    }
  }

  /** For every probability, count and quantile the score is the smaller root of
      `n (p - L)^2 = z^2 L (1 - L)`, and lies in `[0, p]`. */
  lemma {:induction false} ScoreIsSmallerRoot(sqrt: real -> real, p: real, n: real, z: real)
    requires IsSqrt(sqrt) && 0.0 <= p <= 1.0 && n > 0.0 && z > 0.0
    ensures var L := Score(sqrt, p, n, z);
            0.0 <= L <= p && IsSmallerRoot(p, n, z * z, L)
  {
    SquareShare(z, n);
    ScoreIsLower(sqrt, p, n, z, z * z / n);
    LowerIsBetween(p, z * z / n, Score(sqrt, p, n, z));
    LowerIsSmallestRoot(p, n, z * z, Score(sqrt, p, n, z));
  }

  /** The clamp at zero never changes the score. */
  lemma {:induction false} ClampIsIdle(sqrt: real -> real, z: real, successes: nat, samples: nat)
    requires IsSqrt(sqrt) && z > 0.0 && samples > 0 && successes <= samples
    ensures ScoreBound(sqrt, z)(successes, samples) == Score(sqrt, Rate(successes, samples), samples as real, z)
  {
    RateIsUnit(successes, samples);
    ScoreIsSmallerRoot(sqrt, Rate(successes, samples), samples as real, z);
  }

  // ----- monotonicity

  lemma {:induction false} RootsOrder(p: real, q: real, u: real, x: real)
    requires x <= p <= q
    ensures Quadratic(p, u, x) <= Quadratic(q, u, x)
  {
    NonNegative(q - p, (q - x) + (p - x));
    assert (q - x) * (q - x) - (p - x) * (p - x) == (q - p) * ((q - x) + (p - x));
  }

  lemma {:induction false} LowerGrowsWithRate(p: real, q: real, u: real, x: real, y: real)
    requires u > 0.0 && 0.0 <= p <= q <= 1.0 && Lower(p, u, x) && Lower(q, u, y)
    ensures x <= y
  {
    LowerIsBetween(p, u, x);
    LowerIsRoot(q, u, y);
    if y < x {
      RootsOrder(p, q, u, y);
      PositiveBelow(p, u, x, y);
    }
  }

  /** A greater rate never lowers the score. */
  lemma {:induction false} ScoreGrowsWithRate(sqrt: real -> real, p: real, q: real, n: real, z: real)
    requires IsSqrt(sqrt) && 0.0 <= p <= q <= 1.0 && n > 0.0 && z > 0.0
    ensures Score(sqrt, p, n, z) <= Score(sqrt, q, n, z)
  {
    SquareShare(z, n);
    ScoreIsLower(sqrt, p, n, z, z * z / n);
    ScoreIsLower(sqrt, q, n, z, z * z / n);
    LowerGrowsWithRate(p, q, z * z / n, Score(sqrt, p, n, z), Score(sqrt, q, n, z));
  }

  /** With the same sample count, more successes never lower the bound. */
  lemma {:induction false} MonotoneInSuccesses(sqrt: real -> real, z: real, fewer: nat, more: nat, samples: nat)
    requires IsSqrt(sqrt) && z > 0.0 && samples > 0 && fewer <= more <= samples
    ensures ScoreBound(sqrt, z)(fewer, samples) <= ScoreBound(sqrt, z)(more, samples)
  {
    RateIsUnit(fewer, samples);
    RateIsUnit(more, samples);
    RatesOrder(fewer, more, samples);
    ScoreGrowsWithRate(sqrt, Rate(fewer, samples), Rate(more, samples), samples as real, z);
  }

  lemma {:induction false} RatesOrder(fewer: nat, more: nat, samples: nat)
    requires samples > 0 && fewer <= more
    ensures Rate(fewer, samples) <= Rate(more, samples)
  {
    var n := samples as real;
    var d := (more - fewer) as real / n;
    assert d * n == (more - fewer) as real;
    SignOfFactor(n, d);
    assert Rate(more, samples) - Rate(fewer, samples) == d;
  }

  lemma {:induction false} WiderPenalty(p: real, u: real, w: real, x: real)
    requires w <= u && 0.0 <= x <= 1.0
    ensures Quadratic(p, u, x) <= Quadratic(p, w, x)
  {
    var b := x * (1.0 - x);
    NonNegative(x, 1.0 - x);
    NonNegative(u - w, b);
    assert u * x * (1.0 - x) == u * b && w * x * (1.0 - x) == w * b;
  }

  lemma {:induction false} LowerGrowsWithCount(p: real, u: real, w: real, x: real, y: real)
    requires 0.0 < w <= u && 0.0 <= p <= 1.0 && Lower(p, u, x) && Lower(p, w, y)
    ensures x <= y
  {
    LowerIsBetween(p, w, y);
    LowerIsRoot(p, w, y);
    if y < x {
      WiderPenalty(p, u, w, y);
      PositiveBelow(p, u, x, y);
    }
  }

  lemma {:induction false} SmallerShare(w: real, m: real, n: real)
    requires w > 0.0 && 0.0 < m <= n
    ensures 0.0 < w / n <= w / m
  {
    var a, b := w / m, w / n;
    assert a * m == w && b * n == w;
    SignOfFactor(n, b);
    NonNegative(b, n - m);
    assert (a - b) * m == b * (n - m);
    SignOfFactor(m, a - b);
  }

  /** A greater count never lowers the score. */
  lemma {:induction false} ScoreGrowsWithCount(sqrt: real -> real, p: real, m: real, n: real, z: real)
    requires IsSqrt(sqrt) && 0.0 <= p <= 1.0 && 0.0 < m <= n && z > 0.0
    ensures Score(sqrt, p, m, z) <= Score(sqrt, p, n, z)
  {
    SquareShare(z, m);
    Positive(z, z);
    SmallerShare(z * z, m, n);
    ScoreIsLower(sqrt, p, m, z, z * z / m);
    ScoreIsLower(sqrt, p, n, z, z * z / n);
    LowerGrowsWithCount(p, z * z / m, z * z / n, Score(sqrt, p, m, z), Score(sqrt, p, n, z));
  }

  /** With the same success rate, more samples never lower the bound. */
  lemma {:induction false} MonotoneInSamples(sqrt: real -> real, z: real, successes: nat, samples: nat,
                                             moreSuccesses: nat, moreSamples: nat)
    requires IsSqrt(sqrt) && z > 0.0 && 0 < samples <= moreSamples && successes <= samples
             && moreSuccesses <= moreSamples
    requires Rate(successes, samples) == Rate(moreSuccesses, moreSamples)
    ensures ScoreBound(sqrt, z)(successes, samples) <= ScoreBound(sqrt, z)(moreSuccesses, moreSamples)
  {
    RateIsUnit(successes, samples);
    ScoreGrowsWithCount(sqrt, Rate(successes, samples), samples as real, moreSamples as real, z);
  }

  // ----- below the observed rate

  /** Between zero and the observed rate. */
  ghost predicate IsConservative(bound: LowerBound) {
    forall successes: nat, samples: nat :: 0 < samples && successes <= samples ==>
      0.0 <= bound(successes, samples) <= Rate(successes, samples)
  }

  /** For every quantile the clamped score never exceeds the observed rate. */
  lemma {:induction false} ScoreIsConservative(sqrt: real -> real, z: real)
    requires IsSqrt(sqrt) && z > 0.0
    ensures IsConservative(ScoreBound(sqrt, z))
  {
    forall successes: nat, samples: nat | 0 < samples && successes <= samples
      ensures 0.0 <= ScoreBound(sqrt, z)(successes, samples) <= Rate(successes, samples)
    {
      RateIsUnit(successes, samples);
      ScoreIsSmallerRoot(sqrt, Rate(successes, samples), samples as real, z);
    }
  }
}
