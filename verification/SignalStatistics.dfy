/** Exact-arithmetic signal statistics of decoded PCM frames (n0te/audio_engineering.py). */
module SignalStatistics {
  import opened Prelude

  function Abs(x: real): (r: real)
    ensures r >= 0.0 && (r == x || r == -x)
  {
    if x < 0.0 then -x else x
  }

  function Max(x: real, y: real): real {
    if x < y then y else x
  }

  function Min(x: real, y: real): real {
    if x < y then x else y
  }

  function Square(x: real): real {
    x * x
  }

  function Times(x: real, y: real): real {
    x * y
  }

  /** n copies of x added together. */
  function Scaled(n: nat, x: real): real {
    n as real * x
  }

  function Sum(xs: seq<real>): real {
    if xs == [] then 0.0 else Sum(xs[..|xs| - 1]) + xs[|xs| - 1]
  }

  function Dot(xs: seq<real>, ys: seq<real>): real
    requires |xs| == |ys|
  {
    if xs == [] then 0.0
    else Dot(xs[..|xs| - 1], ys[..|ys| - 1]) + xs[|xs| - 1] * ys[|ys| - 1]
  }

  function SumSq(xs: seq<real>): real {
    Dot(xs, xs)
  }

  /** The largest magnitude, and zero for no samples at all. */
  function Peak(xs: seq<real>): (p: real)
    ensures p >= 0.0
    ensures forall x :: x in xs ==> Abs(x) <= p
    ensures xs != [] ==> exists x :: x in xs && Abs(x) == p
  {
    if xs == [] then 0.0
    else
      var rest := xs[..|xs| - 1];
      var last := xs[|xs| - 1];
      assert xs == rest + [last];
      Max(Peak(rest), Abs(last))
  }

  predicate Rectangular(frames: seq<seq<real>>, channels: nat) {
    forall k :: 0 <= k < |frames| ==> |frames[k]| == channels
  }

  /** One channel of a recording. */
  function Column(frames: seq<seq<real>>, channels: nat, c: nat): (xs: seq<real>)
    requires Rectangular(frames, channels) && c < channels
    ensures |xs| == |frames|
  {
    seq(|frames|, k requires 0 <= k < |frames| => frames[k][c])
  }

  datatype Tallies = Tallies(
    sums: seq<real>, sumsSq: seq<real>, peaks: seq<real>, stereo: real, frames: nat, values: nat)

  /** What a whole-file pass computes, channel by channel. */
  function Tally(frames: seq<seq<real>>, channels: nat): (t: Tallies)
    requires Rectangular(frames, channels)
    ensures |t.sums| == |t.sumsSq| == |t.peaks| == channels
  {
    Tallies(
      seq(channels, c requires 0 <= c < channels => Sum(Column(frames, channels, c))),
      seq(channels, c requires 0 <= c < channels => SumSq(Column(frames, channels, c))),
      seq(channels, c requires 0 <= c < channels => Peak(Column(frames, channels, c))),
      if channels == 2 then Dot(Column(frames, 2, 0), Column(frames, 2, 1)) else 0.0,
      |frames|,
      |frames| * channels)
  }

  lemma ColumnOfOneMoreFrame(frames: seq<seq<real>>, f: seq<real>, channels: nat, c: nat)
    requires Rectangular(frames, channels) && |f| == channels && c < channels
    ensures Rectangular(frames + [f], channels)
    ensures Column(frames + [f], channels, c) == Column(frames, channels, c) + [f[c]]
  {
  }

  lemma ChannelOfOneMoreFrame(frames: seq<seq<real>>, f: seq<real>, channels: nat, c: nat)
    requires Rectangular(frames, channels) && |f| == channels && c < channels
    ensures Rectangular(frames + [f], channels)
    ensures
      var xs, ys := Column(frames, channels, c), Column(frames + [f], channels, c);
      && Sum(ys) == Sum(xs) + f[c]
      && SumSq(ys) == SumSq(xs) + Square(f[c])
      && Peak(ys) == Max(Peak(xs), Abs(f[c]))
  {
    ColumnOfOneMoreFrame(frames, f, channels, c);
    var xs := Column(frames, channels, c);
    assert (xs + [f[c]])[..|xs|] == xs;
  }

  lemma StereoOfOneMoreFrame(frames: seq<seq<real>>, f: seq<real>)
    requires Rectangular(frames, 2) && |f| == 2
    ensures Rectangular(frames + [f], 2)
    ensures Dot(Column(frames + [f], 2, 0), Column(frames + [f], 2, 1))
         == Dot(Column(frames, 2, 0), Column(frames, 2, 1)) + Times(f[0], f[1])
  {
    ColumnOfOneMoreFrame(frames, f, 2, 0);
    ColumnOfOneMoreFrame(frames, f, 2, 1);
    var xs, ys := Column(frames, 2, 0), Column(frames, 2, 1);
    assert (xs + [f[0]])[..|xs|] == xs && (ys + [f[1]])[..|ys|] == ys;
  }

  // ----- Second moments of one channel

  /** n times a sum of products, less the product of the sums. */
  function Scatter(n: real, products: real, x: real, y: real): real {
    n * products - x * y
  }

  function Spread(xs: seq<real>): real {
    Scatter(|xs| as real, SumSq(xs), Sum(xs), Sum(xs))
  }

  function CoSpread(xs: seq<real>, ys: seq<real>): real
    requires |xs| == |ys|
  {
    Scatter(|xs| as real, Dot(xs, ys), Sum(xs), Sum(ys))
  }

  /** The squared deviations from any pivot add up to something non-negative. */
  lemma {:induction false} DeviationsNonNegative(xs: seq<real>, z: real)
    ensures SumSq(xs) - 2.0 * z * Sum(xs) + |xs| as real * (z * z) >= 0.0
  {
    if xs != [] {
      var rest, w := xs[..|xs| - 1], xs[|xs| - 1];
      DeviationsNonNegative(rest, z);
      var n := |rest| as real;
      assert |xs| as real == n + 1.0;
      assert (w - z) * (w - z) == w * w - 2.0 * z * w + z * z;
      assert (n + 1.0) * (z * z) == n * (z * z) + z * z;
      assert 2.0 * z * (Sum(rest) + w) == 2.0 * z * Sum(rest) + 2.0 * z * w;
    }
  }

  lemma {:induction false} SpreadNonNegative(xs: seq<real>)
    ensures Spread(xs) >= 0.0
  {
    if xs != [] {
      var rest, z := xs[..|xs| - 1], xs[|xs| - 1];
      SpreadNonNegative(rest);
      DeviationsNonNegative(rest, z);
      var n, s, q := |rest| as real, Sum(rest), SumSq(rest);
      assert |xs| as real == n + 1.0;
      assert (n + 1.0) * (q + z * z) == n * q + q + n * (z * z) + z * z;
      assert (s + z) * (s + z) == s * s + 2.0 * z * s + z * z;
    }
  }

  function Mix(p: real, xs: seq<real>, q: real, ys: seq<real>): (zs: seq<real>)
    requires |xs| == |ys|
    ensures |zs| == |xs|
  {
    if xs == [] then []
    else Mix(p, xs[..|xs| - 1], q, ys[..|ys| - 1]) + [Times(p, xs[|xs| - 1]) + Times(q, ys[|ys| - 1])]
  }

  lemma {:induction false} MixSum(p: real, xs: seq<real>, q: real, ys: seq<real>)
    requires |xs| == |ys|
    ensures Sum(Mix(p, xs, q, ys)) == Times(p, Sum(xs)) + Times(q, Sum(ys))
  {
    if xs != [] {
      var xs', ys' := xs[..|xs| - 1], ys[..|ys| - 1];
      MixSum(p, xs', q, ys');
      var zs := Mix(p, xs, q, ys);
      assert zs[..|zs| - 1] == Mix(p, xs', q, ys');
      TimesAdds(p, Sum(xs'), xs[|xs| - 1]);
      TimesAdds(q, Sum(ys'), ys[|ys| - 1]);
    }
  }

  lemma TimesAdds(k: real, a: real, b: real)
    ensures Times(k, a + b) == Times(k, a) + Times(k, b)
  {
  }

  lemma {:induction false} MixSumSq(p: real, xs: seq<real>, q: real, ys: seq<real>)
    requires |xs| == |ys|
    ensures SumSq(Mix(p, xs, q, ys)) == Form(p, q, SumSq(xs), Dot(xs, ys), SumSq(ys))
  {
    if xs == [] {
      assert Form(p, q, 0.0, 0.0, 0.0) == 0.0;
    } else {
      hide Form, Times;
      var xs', ys' := xs[..|xs| - 1], ys[..|ys| - 1];
      var x, y := xs[|xs| - 1], ys[|ys| - 1];
      var zs := Mix(p, xs, q, ys);
      MixSumSq(p, xs', q, ys');
      assert zs[..|zs| - 1] == Mix(p, xs', q, ys');
      MixSquareStep(p, q, SumSq(xs'), Dot(xs', ys'), SumSq(ys'), x, y, zs[|zs| - 1]);
    }
  }

  lemma MixSquareStep(p: real, q: real, a: real, b: real, c: real, x: real, y: real, z: real)
    requires z == Times(p, x) + Times(q, y)
    ensures Form(p, q, a + x * x, b + x * y, c + y * y) == Form(p, q, a, b, c) + z * z
  {
    FormOfSquare(p, q, x, y);
    FormAdds(p, q, a, b, c, x * x, x * y, y * y);
  }

  /** The quadratic form in p and q with coefficients a, b and c. */
  function Form(p: real, q: real, a: real, b: real, c: real): real {
    p * p * a + 2.0 * (p * q) * b + q * q * c
  }

  ghost predicate SemiDefinite(a: real, b: real, c: real) {
    forall p: real, q: real :: Form(p, q, a, b, c) >= 0.0
  }

  lemma FormOfSquare(p: real, q: real, x: real, y: real)
    ensures Form(p, q, x * x, x * y, y * y) == (p * x + q * y) * (p * x + q * y)
  {
  }

  lemma FormAdds(p: real, q: real, a: real, b: real, c: real, a': real, b': real, c': real)
    ensures Form(p, q, a + a', b + b', c + c') == Form(p, q, a, b, c) + Form(p, q, a', b', c')
  {
  }

  lemma FormScales(p: real, q: real, n: real, a: real, b: real, c: real)
    ensures Form(p, q, n * a, n * b, n * c) == n * Form(p, q, a, b, c)
  {
    assert p * p * (n * a) == n * (p * p * a);
    assert 2.0 * (p * q) * (n * b) == n * (2.0 * (p * q) * b);
    assert q * q * (n * c) == n * (q * q * c);
  }

  /** Any mix of the two channels has non-negative spread, so their second moments form a
      non-negative quadratic form. */
  lemma MixSpread(p: real, xs: seq<real>, q: real, ys: seq<real>)
    requires |xs| == |ys|
    ensures Form(p, q, Spread(xs), CoSpread(xs, ys), Spread(ys)) >= 0.0
  {
    var zs := Mix(p, xs, q, ys);
    SpreadNonNegative(zs);
    MixSum(p, xs, q, ys);
    MixSumSq(p, xs, q, ys);
    hide Sum, SumSq, Dot, Mix, Form, Times, Scatter;
    ScatterOfMix(p, q, |xs| as real, SumSq(xs), Dot(xs, ys), SumSq(ys), Sum(xs), Sum(ys), Sum(zs), SumSq(zs));
  }

  /** The scatter of a mix in terms of its channels: n samples with square sums a and c, product sum b,
      sums x and y, and mixed sum t and square sum u. */
  lemma ScatterOfMix(p: real, q: real, n: real, a: real, b: real, c: real, x: real, y: real, t: real, u: real)
    requires t == Times(p, x) + Times(q, y) && u == Form(p, q, a, b, c)
    ensures Scatter(n, u, t, t) == Form(p, q, Scatter(n, a, x, x), Scatter(n, b, x, y), Scatter(n, c, y, y))
  {
    FormScales(p, q, n, a, b, c);
    FormOfSquare(p, q, x, y);
    hide Form;
    FormDifference(p, q, n * a, n * b, n * c, x * x, x * y, y * y);
  }

  lemma FormDifference(p: real, q: real, a: real, b: real, c: real, a': real, b': real, c': real)
    ensures Form(p, q, a - a', b - b', c - c') == Form(p, q, a, b, c) - Form(p, q, a', b', c')
  {
    FormAdds(p, q, a - a', b - b', c - c', a', b', c');
  }

  /** Cauchy-Schwarz for the centred channels. */
  lemma CoSpreadBound(xs: seq<real>, ys: seq<real>)
    requires |xs| == |ys|
    ensures Square(CoSpread(xs, ys)) <= Times(Spread(xs), Spread(ys))
  {
    var a, b, c := Spread(xs), CoSpread(xs, ys), Spread(ys);
    SecondMomentsForm(xs, ys, a, b, c);
    NonNegativeForm(a, b, c);
  }

  lemma SecondMomentsForm(xs: seq<real>, ys: seq<real>, a: real, b: real, c: real)
    requires |xs| == |ys|
    requires a == Spread(xs) && b == CoSpread(xs, ys) && c == Spread(ys)
    ensures a >= 0.0 && c >= 0.0
    ensures SemiDefinite(a, b, c)
  {
    SpreadNonNegative(xs);
    SpreadNonNegative(ys);
    forall p: real, q: real ensures Form(p, q, a, b, c) >= 0.0 {
      MixSpread(p, xs, q, ys);
    }
  }

  lemma NonNegativeForm(a: real, b: real, c: real)
    requires a >= 0.0 && c >= 0.0
    requires SemiDefinite(a, b, c)
    ensures Square(b) <= Times(a, c)
  {
    if a > 0.0 {
      assert Form(-b, a, a, b, c) >= 0.0;
      DiscriminantWhenPositive(a, b, c);
    } else if b != 0.0 {
      // a non-zero covariance could be scaled until the mix had negative spread
      var k := (c + 1.0) / b;
      FormWithoutSquare(k, b, c);
    }
  }

  lemma DiscriminantWhenPositive(a: real, b: real, c: real)
    requires a > 0.0 && Form(-b, a, a, b, c) >= 0.0
    ensures Square(b) <= Times(a, c)
  {
    assert Form(-b, a, a, b, c) == a * (a * c - b * b) by {
      assert (-b) * (-b) == b * b;
      assert 2.0 * ((-b) * a) * b == -2.0 * (a * (b * b));
      assert a * a * c == a * (a * c);
    }
    if a * c - b * b < 0.0 {
      NegativeProduct(a, a * c - b * b);
    }
  }

  lemma NegativeProduct(a: real, d: real)
    requires a > 0.0 && d < 0.0
    ensures a * d < 0.0
  {
  }

  lemma FormWithoutSquare(k: real, b: real, c: real)
    requires c >= 0.0 && k * b == c + 1.0
    ensures Form(-k, 1.0, 0.0, b, c) < 0.0
  {
    assert 2.0 * ((-k) * 1.0) * b == -2.0 * (k * b);
  }

  // ----- The reported measures

  predicate IsRoot(r: real, x: real) {
    r >= 0.0 && Square(r) == x
  }

  function MaxOf(xs: seq<real>): (m: real)
    requires xs != []
    ensures m in xs && forall x :: x in xs ==> x <= m
  {
    if |xs| == 1 then xs[0]
    else
      assert xs == xs[..|xs| - 1] + [xs[|xs| - 1]];
      Max(MaxOf(xs[..|xs| - 1]), xs[|xs| - 1])
  }

  function Clamp(x: real): real {
    Max(-1.0, Min(1.0, x))
  }

  function Energy(t: Tallies, c: nat): real
    requires t.frames > 0 && c < |t.sums| && c < |t.sumsSq|
  {
    t.sumsSq[c] - t.sums[c] * t.sums[c] / t.frames as real
  }

  function Covariance(t: Tallies): real
    requires t.frames > 0 && |t.sums| == 2
  {
    t.stereo - t.sums[0] * t.sums[1] / t.frames as real
  }

  function MeanSquare(t: Tallies): real
    requires t.values > 0
  {
    Sum(t.sumsSq) / t.values as real
  }

  function StereoCorrelation(t: Tallies, denominator: real): Option<real>
    requires t.frames > 0 && |t.sums| == 2
  {
    if denominator > 0.0 then Some(Clamp(Covariance(t) / denominator)) else None
  }

  /** The energy computed from running sums is the scaled sum of squared deviations. */
  lemma EnergyIsSpread(frames: seq<seq<real>>, channels: nat, c: nat)
    requires Rectangular(frames, channels) && frames != [] && c < channels
    ensures |frames| as real * Energy(Tally(frames, channels), c) == Spread(Column(frames, channels, c))
  {
    var xs := Column(frames, channels, c);
    ScaleOut(|frames| as real, SumSq(xs), Sum(xs) * Sum(xs));
  }

  lemma ScaleOut(n: real, a: real, b: real)
    requires n > 0.0
    ensures n * (a - b / n) == n * a - b
  {
  }

  /** Each channel's energy is non-negative, so guarding it with max(0, energy) changes nothing. */
  lemma EnergyNonNegative(frames: seq<seq<real>>, channels: nat, c: nat)
    requires Rectangular(frames, channels) && frames != [] && c < channels
    ensures Energy(Tally(frames, channels), c) >= 0.0
    ensures Max(0.0, Energy(Tally(frames, channels), c)) == Energy(Tally(frames, channels), c)
  {
    EnergyIsSpread(frames, channels, c);
    SpreadNonNegative(Column(frames, channels, c));
    PositiveFactor(|frames| as real, Energy(Tally(frames, channels), c));
  }

  lemma PositiveFactor(n: real, d: real)
    requires n > 0.0 && n * d >= 0.0
    ensures d >= 0.0
  {
    if d < 0.0 {
      NegativeProduct(n, d);
    }
  }

  /** Covariance squared never exceeds the product of the two energies. */
  lemma CovarianceBound(frames: seq<seq<real>>)
    requires Rectangular(frames, 2) && frames != []
    ensures
      var t := Tally(frames, 2);
      Square(Covariance(t)) <= Times(Energy(t, 0), Energy(t, 1))
  {
    var t, n := Tally(frames, 2), |frames| as real;
    var xs, ys := Column(frames, 2, 0), Column(frames, 2, 1);
    EnergyIsSpread(frames, 2, 0);
    EnergyIsSpread(frames, 2, 1);
    ScaleOut(n, Dot(xs, ys), Sum(xs) * Sum(ys));
    CoSpreadBound(xs, ys);
    CancelSquare(n, Covariance(t), Energy(t, 0), Energy(t, 1),
                 CoSpread(xs, ys), Spread(xs), Spread(ys));
  }

  lemma CancelSquare(n: real, b: real, a: real, c: real, nb: real, na: real, nc: real)
    requires n > 0.0 && nb == n * b && na == n * a && nc == n * c
    requires Square(nb) <= Times(na, nc)
    ensures Square(b) <= Times(a, c)
  {
    ScaledDiscriminant(n, a, b, c);
    CancelTwice(n, a * c - b * b);
  }

  lemma ScaledDiscriminant(n: real, a: real, b: real, c: real)
    ensures (n * a) * (n * c) - (n * b) * (n * b) == n * (n * (a * c - b * b))
  {
  }

  lemma CancelTwice(n: real, d: real)
    requires n > 0.0 && n * (n * d) >= 0.0
    ensures d >= 0.0
  {
    PositiveFactor(n, n * d);
    PositiveFactor(n, d);
  }

  /** With exact roots the correlation is covariance / denominator itself: neither max(0, energy)
      nor the clamp to [-1, 1] ever changes a value, and a zero denominator means no covariance. */
  lemma CorrelationClampsAreIdle(frames: seq<seq<real>>, denominator: real)
    requires Rectangular(frames, 2) && frames != []
    requires
      var t := Tally(frames, 2);
      IsRoot(denominator, Times(Max(0.0, Energy(t, 0)), Max(0.0, Energy(t, 1))))
    ensures
      var t := Tally(frames, 2);
      && (denominator > 0.0 ==> StereoCorrelation(t, denominator) == Some(Covariance(t) / denominator)
                                && -1.0 <= Covariance(t) / denominator <= 1.0)
      && (denominator == 0.0 ==> StereoCorrelation(t, denominator) == None && Covariance(t) == 0.0)
  {
    EnergyNonNegative(frames, 2, 0);
    EnergyNonNegative(frames, 2, 1);
    CovarianceBound(frames);
    CorrelationOfTallies(Tally(frames, 2), denominator);
  }

  lemma CorrelationOfTallies(t: Tallies, d: real)
    requires t.frames > 0 && |t.sums| == |t.sumsSq| == 2
    requires Energy(t, 0) >= 0.0 && Energy(t, 1) >= 0.0
    requires Square(Covariance(t)) <= Times(Energy(t, 0), Energy(t, 1))
    requires IsRoot(d, Times(Max(0.0, Energy(t, 0)), Max(0.0, Energy(t, 1))))
    ensures d > 0.0 ==> StereoCorrelation(t, d) == Some(Covariance(t) / d)
                        && -1.0 <= Covariance(t) / d <= 1.0
    ensures d == 0.0 ==> StereoCorrelation(t, d) == None && Covariance(t) == 0.0
  {
    WithinRoot(Covariance(t), Energy(t, 0), Energy(t, 1), d);
    if d > 0.0 {
      UnitRatio(Covariance(t), d, Covariance(t) / d);
    }
  }

  lemma WithinRoot(b: real, a: real, c: real, d: real)
    requires a >= 0.0 && c >= 0.0 && Square(b) <= Times(a, c) && IsRoot(d, Times(a, c))
    ensures -d <= b <= d
  {
    SquareOrder(Abs(b), d);
  }

  lemma UnitRatio(b: real, d: real, r: real)
    requires d > 0.0 && -d <= b <= d && r * d == b
    ensures -1.0 <= r <= 1.0
  {
    if r > 1.0 {
      NegativeProduct(d, 1.0 - r);
    }
    if r < -1.0 {
      NegativeProduct(d, r + 1.0);
    }
  }

  lemma {:induction false} SumSqAtMost(xs: seq<real>, p: real)
    requires forall x :: x in xs ==> Abs(x) <= p
    ensures SumSq(xs) <= Scaled(|xs|, Square(p))
  {
    if xs != [] {
      var rest, x := xs[..|xs| - 1], xs[|xs| - 1];
      assert forall y :: y in rest ==> y in xs;
      assert x in xs;
      SumSqAtMost(rest, p);
      SquareMonotone(x, p);
      ScaledStep(|rest|, Square(p));
      assert SumSq(xs) == SumSq(rest) + Square(x);
    }
  }

  lemma ScaledStep(n: nat, x: real)
    ensures Scaled(n + 1, x) == Scaled(n, x) + x
  {
    assert (n + 1) as real == n as real + 1.0;
  }

  lemma SquareMonotone(a: real, b: real)
    requires Abs(a) <= b
    ensures Square(a) <= Square(b)
  {
    assert b * b - a * a == (b - a) * (b + a);
  }

  lemma {:induction false} SumAtMost(xs: seq<real>, bound: real)
    requires forall x :: x in xs ==> x <= bound
    ensures Sum(xs) <= Scaled(|xs|, bound)
  {
    if xs != [] {
      var rest := xs[..|xs| - 1];
      assert forall x :: x in rest ==> x in xs;
      assert xs[|xs| - 1] in xs;
      SumAtMost(rest, bound);
      ScaledStep(|rest|, bound);
    }
  }

  /** The energy of all channels is bounded by the sample peak. */
  lemma TotalEnergyBound(frames: seq<seq<real>>, channels: nat, peak: real)
    requires Rectangular(frames, channels)
    requires forall p :: p in Tally(frames, channels).peaks ==> p <= peak
    ensures
      var t := Tally(frames, channels);
      Sum(t.sumsSq) <= Scaled(channels, Scaled(t.frames, Square(peak)))
  {
    var t := Tally(frames, channels);
    forall s | s in t.sumsSq ensures s <= Scaled(t.frames, Square(peak)) {
      var c: nat :| c < channels && t.sumsSq[c] == s;
      assert t.peaks[c] in t.peaks;
      SumSqAtMost(Column(frames, channels, c), peak);
    }
    SumAtMost(t.sumsSq, Scaled(t.frames, Square(peak)));
  }

  /** The RMS over all channels never exceeds the sample peak (so a crest factor is at least one),
      and one is zero exactly when the other is. */
  lemma RmsAtMostPeak(frames: seq<seq<real>>, channels: nat, rms: real)
    requires Rectangular(frames, channels) && frames != [] && channels > 0
    requires Tally(frames, channels).values > 0
    requires IsRoot(rms, MeanSquare(Tally(frames, channels)))
    ensures rms <= MaxOf(Tally(frames, channels).peaks)
    ensures rms > 0.0 <==> MaxOf(Tally(frames, channels).peaks) > 0.0
  {
    var t := Tally(frames, channels);
    var peak := MaxOf(t.peaks);
    PeaksNonNegative(frames, channels);
    TotalEnergyBound(frames, channels, peak);
    if peak > 0.0 {
      PeakGivesEnergy(frames, channels);
    }
    MeanSquareOfTallies(t, channels, Square(peak));
    RootOrder(rms, MeanSquare(t), peak);
  }

  lemma MeanSquareOfTallies(t: Tallies, channels: nat, square: real)
    requires t.values == t.frames * channels && t.values > 0
    requires Sum(t.sumsSq) <= Scaled(channels, Scaled(t.frames, square))
    ensures MeanSquare(t) <= square
    ensures Sum(t.sumsSq) > 0.0 ==> MeanSquare(t) > 0.0
  {
    ValuesProduct(t.frames, channels);
    Average(Sum(t.sumsSq), t.frames as real, channels as real, square, t.values as real, MeanSquare(t));
    if Sum(t.sumsSq) > 0.0 {
      PositiveRatio(Sum(t.sumsSq), t.values as real);
    }
  }

  lemma PeaksNonNegative(frames: seq<seq<real>>, channels: nat)
    requires Rectangular(frames, channels)
    ensures forall p :: p in Tally(frames, channels).peaks ==> p >= 0.0
  {
  }

  lemma ValuesProduct(n: nat, channels: nat)
    ensures (n * channels) as real == n as real * channels as real
  {
  }

  lemma RootOrder(r: real, x: real, peak: real)
    requires IsRoot(r, x) && x <= Square(peak) && peak >= 0.0
    ensures r <= peak
    ensures x > 0.0 ==> r > 0.0
  {
    SquareOrder(r, peak);
  }

  lemma PositiveRatio(a: real, b: real)
    requires a > 0.0 && b > 0.0
    ensures a / b > 0.0
  {
  }

  lemma Average(total: real, n: real, channels: real, square: real, values: real, mean: real)
    requires values == n * channels && values > 0.0 && mean * values == total
    requires total <= channels * (n * square)
    ensures mean <= square
  {
    assert channels * (n * square) == values * square;
    if mean > square {
      NegativeProduct(values, square - mean);
    }
  }

  lemma SquareOrder(a: real, b: real)
    requires a >= 0.0 && b >= 0.0 && Square(a) <= Square(b)
    ensures a <= b
  {
    DifferenceOfSquares(a, b);
    if a > b {
      TimesPositive(a - b, a + b);
    }
  }

  lemma DifferenceOfSquares(a: real, b: real)
    ensures Times(a - b, a + b) == Square(a) - Square(b)
  {
  }

  lemma {:induction false} SumOfMember(xs: seq<real>, x: real)
    requires forall y :: y in xs ==> y >= 0.0
    ensures Sum(xs) >= 0.0
    ensures x in xs ==> Sum(xs) >= x
  {
    if xs != [] {
      var rest := xs[..|xs| - 1];
      assert xs == rest + [xs[|xs| - 1]];
      assert forall y :: y in rest ==> y in xs;
      assert xs[|xs| - 1] in xs;
      SumOfMember(rest, x);
    }
  }

  lemma TimesPositive(x: real, y: real)
    requires x > 0.0 && y > 0.0
    ensures Times(x, y) > 0.0
  {
  }

  lemma SquarePositive(x: real)
    requires x != 0.0
    ensures Square(x) > 0.0
  {
    if x > 0.0 {
      TimesPositive(x, x);
      assert Times(x, x) == Square(x);
    } else {
      TimesPositive(-x, -x);
      assert Times(-x, -x) == Square(x);
    }
  }

  lemma {:induction false} EnergyOfPeak(xs: seq<real>)
    ensures SumSq(xs) >= 0.0
    ensures Peak(xs) > 0.0 ==> SumSq(xs) > 0.0
  {
    if xs != [] {
      EnergyOfPeak(xs[..|xs| - 1]);
      assert SumSq(xs) == SumSq(xs[..|xs| - 1]) + Square(xs[|xs| - 1]);
      if xs[|xs| - 1] != 0.0 {
        SquarePositive(xs[|xs| - 1]);
      }
    }
  }

  lemma PeakGivesEnergy(frames: seq<seq<real>>, channels: nat)
    requires Rectangular(frames, channels) && frames != [] && channels > 0
    requires MaxOf(Tally(frames, channels).peaks) > 0.0
    ensures Sum(Tally(frames, channels).sumsSq) > 0.0
  {
    var t := Tally(frames, channels);
    var c: nat :| c < channels && t.peaks[c] == MaxOf(t.peaks);
    EnergyOfPeak(Column(frames, channels, c));
    forall s | s in t.sumsSq ensures s >= 0.0 {
      var k: nat :| k < channels && t.sumsSq[k] == s;
      EnergyOfPeak(Column(frames, channels, k));
    }
    assert t.sumsSq[c] in t.sumsSq;
    SumOfMember(t.sumsSq, t.sumsSq[c]);
  }

  /** A channel's offset never exceeds its own RMS. */
  lemma MeanAtMostChannelRms(frames: seq<seq<real>>, channels: nat, c: nat, rms: real)
    requires Rectangular(frames, channels) && frames != [] && c < channels
    requires IsRoot(rms, Tally(frames, channels).sumsSq[c] / |frames| as real)
    ensures Abs(Tally(frames, channels).sums[c] / |frames| as real) <= rms
  {
    var t, n := Tally(frames, channels), |frames| as real;
    SpreadNonNegative(Column(frames, channels, c));
    MeanSquareBound(n, t.sums[c], t.sumsSq[c], t.sums[c] / n, t.sumsSq[c] / n);
    SquareOrder(Abs(t.sums[c] / n), rms);
  }

  lemma MeanSquareBound(n: real, s: real, q: real, m: real, r: real)
    requires n > 0.0 && n * q - s * s >= 0.0 && m * n == s && r * n == q
    ensures Square(m) <= r
  {
    ScaledVariance(n, m, r);
    CancelTwice(n, r - m * m);
  }

  lemma ScaledVariance(n: real, m: real, r: real)
    ensures n * (r * n) - (m * n) * (m * n) == n * (n * (r - m * m))
  {
  }
}
