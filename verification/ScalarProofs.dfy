/** What the quantized distance means. */
module ScalarProofs {
  import opened Bytes
  import IntKernels
  import opened Scalar

  function RealDot(a: Vector, b: Vector): real
    requires |a| == |b|
  {
    Sum(Zip(Times, a, b))
  }

  // ------------------------------------------------------- real arithmetic

  lemma Dist(a: real, b: real, c: real)
    ensures a * (b + c) == a * b + a * c && a * (b - c) == a * b - a * c
  {
  }

  lemma Assoc(a: real, b: real, c: real)
    ensures (a * b) * c == a * (b * c)
  {
  }

  lemma Positive(a: real, b: real, ab: real)
    requires a > 0.0 && b > 0.0 && ab == a * b
    ensures ab > 0.0
  {
  }

  /** Scaling by a positive number keeps the order. */
  lemma Ordered(s: real, a: real, b: real, x: real, y: real)
    requires s > 0.0 && x == s * a && y == s * b
    ensures a <= b <==> x <= y
    ensures a < b <==> x < y
  {
    Dist(s, a, b);
    Dist(s, b, a);
    if a < b {
      Positive(s, b - a, y - x);
    } else if b < a {
      Positive(s, a - b, x - y);
    }
  }

  // -------------------------------------------------------- one coordinate

  /** Steps from the offset, scaled back, are the distance from the offset. */
  lemma StepsBack(p: Params, v: real)
    requires p.Usable()
    ensures p.scale * p.InSteps(v) == v - p.offset
  {
    Assoc(v - p.offset, 1.0 / p.scale, p.scale);
    assert (1.0 / p.scale) * p.scale == 1.0;
  }

  /** A code is off by the scale times its distance from the exact number of steps. */
  lemma OffBy(p: Params, v: real, c: byte)
    requires p.Usable()
    ensures p.Decode(c) - v == p.scale * (c as real - p.InSteps(v))
  {
    StepsBack(p, v);
    Dist(p.scale, c as real, p.InSteps(v));
  }

  lemma Rounding(x: real)
    requires 0.0 <= x <= 255.0
    ensures -0.5 <= Round(x) as real - x <= 0.5
  {
  }

  /** Inside the range a coordinate comes back within half a step. */
  lemma {:induction false} HalfStep(p: Params, v: real)
    requires p.Usable() && p.offset <= v <= p.offset + 255.0 * p.scale
    ensures -p.scale / 2.0 <= p.Decode(p.Code(v)) - v <= p.scale / 2.0
  {
    var s, x, c := p.scale, p.InSteps(v), p.Code(v);
    StepsBack(p, v);
    Ordered(s, 0.0, x, 0.0, v - p.offset);
    Ordered(s, x, 255.0, v - p.offset, 255.0 * s);
    Rounding(x);
    OffBy(p, v, c);
    Ordered(s, -0.5, c as real - x, -s / 2.0, p.Decode(c) - v);
    Ordered(s, c as real - x, 0.5, p.Decode(c) - v, s / 2.0);
  }

  /** Every code is its own code: quantizing what was dequantized changes nothing. */
  lemma {:induction false} CodeRoundTrip(p: Params, q: byte)
    requires p.Usable()
    ensures p.Code(p.Decode(q)) == q
  {
    var x := p.InSteps(p.Decode(q));
    OffBy(p, p.Decode(q), q);
    Ordered(p.scale, 0.0, q as real - x, 0.0, 0.0);
    assert x == q as real;
  }

  lemma RoundsToNearest(x: real, c: byte)
    ensures Abs(Round(Clamp(x)) as real - x) <= Abs(c as real - x)
  {
    var r := Round(Clamp(x));
    if 0.0 <= x <= 255.0 {
      Rounding(x);
      if c < r {
        assert c as real <= r as real - 1.0;
      } else if c > r {
        assert c as real >= r as real + 1.0;
      }
    } else if x < 0.0 {
      assert r == 0;
    } else {
      assert r == 255;
    }
  }

  function Abs(x: real): (r: real)
    ensures r >= 0.0
  {
    if x < 0.0 then -x else x
  }

  lemma AbsScaled(s: real, a: real, x: real)
    requires s > 0.0 && x == s * a
    ensures Abs(x) == s * Abs(a)
  {
    Ordered(s, a, 0.0, x, 0.0);
  }

  /** No code lies nearer to a coordinate, in range or not, than the one it is given. */
  lemma {:induction false} NearestCode(p: Params, v: real, c: byte)
    requires p.Usable()
    ensures Abs(p.Decode(p.Code(v)) - v) <= Abs(p.Decode(c) - v)
  {
    var x, r := p.InSteps(v), p.Code(v);
    RoundsToNearest(x, c);
    OffBy(p, v, r);
    OffBy(p, v, c);
    NearScaled(p.scale, r as real - x, c as real - x, p.Decode(r) - v, p.Decode(c) - v);
  }

  lemma NearScaled(s: real, a: real, b: real, x: real, y: real)
    requires s > 0.0 && x == s * a && y == s * b && Abs(a) <= Abs(b)
    ensures Abs(x) <= Abs(y)
  {
    AbsScaled(s, a, x);
    AbsScaled(s, b, y);
    Ordered(s, Abs(a), Abs(b), Abs(x), Abs(y));
  }

  // -------------------------------------------------------------------- sums

  function Linear(j: real, f: real, k: real, g: real, c: real, n: real): real {
    j * f + k * g + c * n
  }

  lemma LinearStep(j: real, f: real, k: real, g: real, c: real, n: real, f1: real, g1: real)
    ensures Linear(j, f + f1, k, g + g1, c, n + 1.0) == Linear(j, f, k, g, c, n) + Linear(j, f1, k, g1, c, 1.0)
  {
    Dist(j, f, f1);
    Dist(k, g, g1);
    Dist(c, n, 1.0);
  }

  /** A sum of terms linear in two others. */
  lemma {:induction false} SumLinear(h: seq<real>, f: seq<real>, g: seq<real>, j: real, k: real, c: real)
    requires |h| == |f| == |g| && forall i: nat | i < |h| :: h[i] == Linear(j, f[i], k, g[i], c, 1.0)
    ensures Sum(h) == Linear(j, Sum(f), k, Sum(g), c, |h| as real)
  {
    if h != [] {
      var n := |h| - 1;
      SumLinear(h[..n], f[..n], g[..n], j, k, c);
      LinearStep(j, Sum(f[..n]), k, Sum(g[..n]), c, n as real, f[n], g[n]);
    }
  }

  lemma {:induction false} SumBounded(a: seq<real>, b: seq<real>, c: seq<real>)
    requires |a| == |b| == |c| && forall i: nat | i < |a| :: Abs(a[i] - b[i]) <= c[i]
    ensures Abs(Sum(a) - Sum(b)) <= Sum(c)
  {
    if a != [] {
      var n := |a| - 1;
      SumBounded(a[..n], b[..n], c[..n]);
    }
  }

  lemma {:induction false} RealProduct(a: nat, b: nat)
    ensures (a * b) as real == Times(a as real, b as real)
  {
    if b > 0 {
      RealProduct(a, b - 1);
      assert a * b == a * (b - 1) + a;
      Dist(a as real, (b - 1) as real, 1.0);
    }
  }

  function Reals(q: seq<byte>): (r: Vector)
    ensures |r| == |q|
  {
    seq(|q|, i requires 0 <= i < |q| => q[i] as real)
  }

  lemma {:induction false} TotalIsSum(q: seq<byte>)
    ensures Total(q) as real == Sum(Reals(q))
  {
    if q != [] {
      var n := |q| - 1;
      TotalIsSum(q[..n]);
      assert Reals(q)[..n] == Reals(q[..n]);
    }
  }

  lemma {:induction false} DotIsSum(x: seq<byte>, y: seq<byte>, n: nat)
    requires n <= |x| == |y|
    ensures IntKernels.Products(x, y, 0, n) as real == Sum(Zip(Times, Reals(x), Reals(y))[..n])
  {
    var z := Zip(Times, Reals(x), Reals(y));
    if n > 0 {
      DotIsSum(x, y, n - 1);
      assert z[..n][..n - 1] == z[..n - 1] && z[..n][n - 1] == z[n - 1];
      RealProduct(x[n - 1], y[n - 1]);
      assert z[n - 1] == Times(x[n - 1] as real, y[n - 1] as real);
    }
  }

  lemma SquareReal(d: int)
    ensures Square(d) as real == d as real * d as real
  {
    if d >= 0 {
      RealProduct(d, d);
    } else {
      RealProduct(-d, -d);
      assert d * d == (-d) * (-d);
    }
  }

  lemma GapReal(a: byte, b: byte)
    ensures Square(a as int - b as int) as real == Gap(a as real, b as real)
  {
    var d: int := a as int - b as int;
    SquareReal(d);
    assert d as real == a as real - b as real;
  }

  lemma {:induction false} SymmetricIsSum(x: seq<byte>, y: seq<byte>)
    requires |x| == |y|
    ensures Symmetric(x, y) as real == L2(Reals(x), Reals(y))
  {
    var z := Zip(Gap, Reals(x), Reals(y));
    if x != [] {
      var n := |x| - 1;
      SymmetricIsSum(x[..n], y[..n]);
      assert z[..n] == Zip(Gap, Reals(x[..n]), Reals(y[..n]));
      GapReal(x[n], y[n]);
    }
  }

  // ------------------------------------------------------------ the identity

  lemma CodeTerm(p: Params, a: real, b: real, j: real, k: real, c: real)
    requires j == p.scale * p.scale && k == p.scale * p.offset && c == p.offset * p.offset
    ensures Times(p.FromSteps(a), p.FromSteps(b)) == Linear(j, Times(a, b), k, a + b, c, 1.0)
  {
    var s, o := p.scale, p.offset;
    assert (a * s + o) * (b * s + o) == s * s * (a * b) + s * o * (a + b) + o * o;
  }

  ghost predicate Decoded(p: Params, x: Vector, dx: Vector) {
    |dx| == |x| && forall i: nat | i < |x| :: dx[i] == p.FromSteps(x[i])
  }

  lemma SumPlus(x: Vector, y: Vector)
    requires |x| == |y|
    ensures Sum(Zip((a, b) => a + b, x, y)) == Sum(x) + Sum(y)
  {
    var g := Zip((a, b) => a + b, x, y);
    SumLinear(g, x, y, 1.0, 1.0, 0.0);
  }

  /** A dot product of decoded values, from sums over the codes. */
  lemma DecodedDot(p: Params, x: Vector, y: Vector, dx: Vector, dy: Vector, j: real, k: real, c: real, dot: real,
      sums: real,
    result: real)
    requires |x| == |y| && Decoded(p, x, dx) && Decoded(p, y, dy) && dot == RealDot(x, y) && sums == Sum(x) + Sum(y)
    requires j == p.scale * p.scale && k == p.scale * p.offset && c == p.offset * p.offset
    requires result == Linear(j, dot, k, sums, c, |x| as real)
    ensures RealDot(dx, dy) == result
  {
    var h, f, g := Zip(Times, dx, dy), Zip(Times, x, y), Zip((a, b) => a + b, x, y);
    assert Sum(g) == sums by { SumPlus(x, y); }
    forall i: nat | i < |h| ensures h[i] == Linear(j, f[i], k, g[i], c, 1.0) {
      CodeTerm(p, x[i], y[i], j, k, c);
    }
    SumLinear(h, f, g, j, k, c);
  }

  lemma DecodedReals(p: Params, x: seq<byte>)
    ensures Decoded(p, Reals(x), p.Dequantize(x))
  {
  }

  lemma ReconstructIs(p: Params, dot: nat, sums: int, j: real, k: real, c: real)
    requires j == p.scale * p.scale && k == p.scale * p.offset && c == p.offset * p.offset
    ensures p.Reconstruct(dot, sums) == Linear(j, dot as real, k, sums as real, c, p.dimensions as real)
  {
  }

  /** The integer sum, rescaled, is the dot product of the dequantized vectors. */
  lemma {:induction false} Reconstructed(p: Params, x: seq<byte>, y: seq<byte>)
    requires |x| == |y| == p.dimensions
    ensures p.Reconstruct(IntKernels.Dot(x, y), Total(x) + Total(y)) == RealDot(p.Dequantize(x), p.Dequantize(y))
  {
    var rx, ry, j, k, c := Reals(x), Reals(y), p.scale * p.scale, p.scale * p.offset, p.offset * p.offset;
    ReconstructIs(p, IntKernels.Dot(x, y), Total(x) + Total(y), j, k, c);
    TotalIsSum(x);
    TotalIsSum(y);
    var sums: real := (Total(x) + Total(y)) as real;
    DecodedReals(p, x);
    DecodedReals(p, y);
    WholeDot(x, y);
    DecodedDot(p, rx, ry, p.Dequantize(x), p.Dequantize(y), j, k, c, IntKernels.Dot(x, y) as real, sums,
               p.Reconstruct(IntKernels.Dot(x, y), Total(x) + Total(y)));
  }

  lemma WholeDot(x: seq<byte>, y: seq<byte>)
    requires |x| == |y|
    ensures RealDot(Reals(x), Reals(y)) == IntKernels.Dot(x, y) as real
  {
    DotIsSum(x, y, |x|);
    var z := Zip(Times, Reals(x), Reals(y));
    assert z[..|x|] == z;
  }

  lemma GapTerm(x: real, y: real)
    ensures Gap(x, y) == Times(x, x) + Times(y, y) - 2.0 * Times(x, y)
  {
  }

  lemma Expanded(a: Vector, b: Vector)
    requires |a| == |b|
    ensures L2(a, b) == NormSquared(a) + NormSquared(b) - 2.0 * RealDot(a, b)
  {
    var aa, bb, ab, sum := Zip(Times, a, a), Zip(Times, b, b), Zip(Times, a, b), Zip(Gap, a, b);
    var norms := seq(|a|, i requires 0 <= i < |a| => aa[i] + bb[i]);
    forall i: nat | i < |a| ensures sum[i] == Linear(1.0, norms[i], -2.0, ab[i], 0.0, 1.0) {
      GapTerm(a[i], b[i]);
    }
    SumLinear(sum, norms, ab, 1.0, -2.0, 0.0);
    SumLinear(norms, aa, bb, 1.0, 1.0, 0.0);
  }

  lemma ScaledGap(p: Params, a: real, b: real, j: real)
    requires j == p.scale * p.scale
    ensures Gap(p.FromSteps(a), p.FromSteps(b)) == Linear(j, Gap(a, b), 0.0, 0.0, 0.0, 1.0)
  {
    var s, d := p.scale, a - b;
    Dist(s, a, b);
    assert p.FromSteps(a) - p.FromSteps(b) == s * d;
    assert s * s * (d * d) == (s * d) * (s * d);
  }

  lemma LinearSteps(p: Params, n: nat, j: real, f: real, m: real)
    requires j == p.scale * p.scale && f == n as real
    ensures Linear(j, f, 0.0, 0.0, 0.0, m) == p.SquaredSteps(n)
  {
  }

  lemma DecodedGap(p: Params, x: Vector, y: Vector, dx: Vector, dy: Vector, n: nat, j: real)
    requires |x| == |y| && Decoded(p, x, dx) && Decoded(p, y, dy)
    requires L2(x, y) == n as real && j == p.scale * p.scale
    ensures L2(dx, dy) == p.SquaredSteps(n)
  {
    var h, f, g := Zip(Gap, dx, dy), Zip(Gap, x, y), seq(|x|, _ => 0.0);
    forall i: nat | i < |x| ensures h[i] == Linear(j, f[i], 0.0, g[i], 0.0, 1.0) {
      ScaledGap(p, x[i], y[i], j);
    }
    SumLinear(h, f, g, j, 0.0, 0.0);
    SumZero(|x|);
    LinearSteps(p, n, j, Sum(f), |x| as real);
  }

  lemma {:induction false} SumZero(n: nat)
    ensures Sum(seq(n, _ => 0.0)) == 0.0
  {
    if n > 0 {
      SumZero(n - 1);
      assert seq(n, _ => 0.0)[..n - 1] == seq(n - 1, _ => 0.0);
    }
  }

  /** Scaled codes: the dequantized distance is the integer one in steps of `scale`. */
  lemma {:induction false} SymmetricScaled(p: Params, x: seq<byte>, y: seq<byte>)
    requires |x| == |y|
    ensures L2(p.Dequantize(x), p.Dequantize(y)) == p.SquaredSteps(Symmetric(x, y))
  {
    DecodedReals(p, x);
    DecodedReals(p, y);
    SymmetricIsSum(x, y);
    DecodedGap(p, Reals(x), Reals(y), p.Dequantize(x), p.Dequantize(y), Symmetric(x, y), p.scale * p.scale);
  }

  lemma StepsAre(p: Params, n: nat, j: real)
    requires j == p.scale * p.scale
    ensures p.SquaredSteps(n) == j * n as real
  {
  }

  /** The stored form of a coded vector. */
  function StoredAs(p: Params, y: seq<byte>): Quantized {
    Quantized(y, Total(y), NormSquared(p.Dequantize(y)))
  }

  /** Up to the exact length the distance is the query's norm against the dequantized vectors. */
  lemma DistanceIsMixed(p: Params, q: Query, y: seq<byte>)
    requires |q.data| == |y| == p.dimensions <= IntKernels.MAX_EXACT && q.sum == Total(q.data)
    ensures p.Distance(q, StoredAs(p, y)) ==
            q.normSquared + NormSquared(p.Dequantize(y)) - 2.0 * RealDot(p.Dequantize(q.data), p.Dequantize(y))
  {
    IntKernels.FitsExactly(|y|);
    assert IntKernels.Dot(q.data, y) < TWO32;
    IntKernels.Small(IntKernels.Dot(q.data, y));
    Reconstructed(p, q.data, y);
  }

  /** What the query lost by being coded: the same for every stored vector. */
  function Lost(p: Params, q: Query): real {
    q.normSquared - NormSquared(p.Dequantize(q.data))
  }

  /** A distance is the scaled integer distance of the codes, plus what the query lost by being coded. */
  lemma {:induction false} DistanceIdentity(p: Params, q: Query, y: seq<byte>)
    requires |q.data| == |y| == p.dimensions <= IntKernels.MAX_EXACT && q.sum == Total(q.data)
    ensures p.Distance(q, StoredAs(p, y)) == p.SquaredSteps(Symmetric(q.data, y)) + Lost(p, q)
  {
    DistanceIsMixed(p, q, y);
    Expanded(p.Dequantize(q.data), p.Dequantize(y));
    SymmetricScaled(p, q.data, y);
  }

  lemma MoreSteps(p: Params, a: nat, b: nat)
    requires p.Usable()
    ensures p.SquaredSteps(a) <= p.SquaredSteps(b) <==> a <= b
  {
    var k := p.scale * p.scale;
    Positive(p.scale, p.scale, k);
    StepsOrdered(p, a, b, k);
  }

  lemma StepsOrdered(p: Params, a: nat, b: nat, k: real)
    requires k > 0.0 && k == p.scale * p.scale
    ensures p.SquaredSteps(a) <= p.SquaredSteps(b) <==> a <= b
  {
    StepsAre(p, a, k);
    StepsAre(p, b, k);
    Ordered(k, a as real, b as real, p.SquaredSteps(a), p.SquaredSteps(b));
  }

  /** For a fixed query, codes rank by computed distance exactly as by integer distance. */
  lemma CodesRank(p: Params, q: Query, x: seq<byte>, y: seq<byte>)
    requires p.Usable() && |q.data| == |x| == |y| == p.dimensions <= IntKernels.MAX_EXACT && q.sum == Total(q.data)
    ensures p.Distance(q, StoredAs(p, x)) <= p.Distance(q, StoredAs(p, y))
            <==> Symmetric(q.data, x) <= Symmetric(q.data, y)
  {
    DistanceIdentity(p, q, x);
    DistanceIdentity(p, q, y);
    MoreSteps(p, Symmetric(q.data, x), Symmetric(q.data, y));
  }

  /** Ranking any vectors by the computed distance is ranking by the integer distance of their codes. */
  lemma {:induction false} RankingExact(p: Params, query: Vector, a: Vector, b: Vector)
    requires p.Usable() && |query| == |a| == |b| == p.dimensions <= IntKernels.MAX_EXACT
    ensures var q := p.PrepareQuery(query);
            p.Distance(q, p.Quantize(a)) <= p.Distance(q, p.Quantize(b)) <==>
            Symmetric(q.data, p.Quantize(a).data) <= Symmetric(q.data, p.Quantize(b).data)
  {
    CodesRank(p, p.PrepareQuery(query), p.QuantizeToBytes(a), p.QuantizeToBytes(b));
  }

  // ------------------------------------------------------------- the error

  ghost predicate InRange(p: Params, v: Vector) {
    forall i: nat | i < |v| :: p.offset <= v[i] <= p.offset + 255.0 * p.scale
  }

  /** Sum over coordinates of scale * (|q - v| + |v|) + 3/4 scale^2. */
  function ErrorBound(p: Params, q: Vector, v: Vector): real
    requires |q| == |v|
  {
    Sum(Zip((x, y) => ErrorTerm(p.scale, x, y), q, v))
  }

  lemma ProductBound(a: real, b: real, bound: real)
    requires -bound <= b <= bound
    ensures -(Abs(a) * bound) <= a * b <= Abs(a) * bound
  {
    var x := Abs(a);
    Dist(x, bound, b);
    NonNegative(x, bound - b);
    NonNegative(x, bound + b);
  }

  lemma NonNegative(a: real, b: real)
    requires a >= 0.0 && b >= 0.0
    ensures a * b >= 0.0
  {
  }

  lemma Expand(q: real, v: real, e: real, f: real)
    ensures MixedTerm(q, q + f, v + e) - Gap(q, v) ==
            -2.0 * ((q - v) * e) + e * e - 2.0 * (v * f) - 2.0 * (e * f)
  {
    assert (v + e) * (v + e) == v * v + 2.0 * (v * e) + e * e;
    assert (q + f) * (v + e) == q * v + q * e + f * v + f * e;
    assert (q - v) * (q - v) == q * q - 2.0 * (q * v) + v * v;
    assert (q - v) * e == q * e - v * e;
  }

  /** What one coordinate adds to the computed distance, and to the true one. */
  function MixedTerm(q: real, dq: real, dv: real): real {
    q * q + dv * dv - 2.0 * (dq * dv)
  }

  function ErrorTerm(s: real, q: real, v: real): real {
    s * (Abs(q - v) + Abs(v)) + 0.75 * (s * s)
  }

  lemma Combined(a: real, b: real, c: real, d: real, x: real, y: real, z: real)
    requires -x <= a <= x && -y <= c <= y && 0.0 <= b <= z && -z <= d <= z
    ensures Abs(-2.0 * a + b - 2.0 * c - 2.0 * d) <= 2.0 * x + 2.0 * y + 3.0 * z
  {
  }

  lemma HalfProducts(s: real, a: real, b: real)
    ensures 2.0 * (a * (s / 2.0)) + 2.0 * (b * (s / 2.0)) + 3.0 * ((s / 2.0) * (s / 2.0))
            == s * (a + b) + 0.75 * (s * s)
  {
    Dist(s, a, b);
  }

  /** One coordinate's error, in terms of the two rounding errors `e` and `f`. */
  lemma Errors(q: real, v: real, e: real, f: real, h: real)
    requires h >= 0.0 && -h <= e <= h && -h <= f <= h
    ensures Abs(MixedTerm(q, q + f, v + e) - Gap(q, v)) <= 2.0 * (Abs(q - v) * h) + 2.0 * (Abs(v) * h) + 3.0 * (h * h)
  {
    var a, b, c, d := (q - v) * e, e * e, v * f, e * f;
    var x, y, z := Abs(q - v) * h, Abs(v) * h, h * h;
    ProductsBounded(q - v, v, e, f, h, a, b, c, d, x, y, z);
    Combined(a, b, c, d, x, y, z);
    Expand(q, v, e, f);
  }

  lemma ProductsBounded(
    u: real, v: real, e: real, f: real, h: real, a: real, b: real, c: real, d: real, x: real, y: real, z: real)
    requires h >= 0.0 && -h <= e <= h && -h <= f <= h
    requires a == u * e && b == e * e && c == v * f && d == e * f && x == Abs(u) * h && y == Abs(v) * h && z == h * h
    ensures -x <= a <= x && -y <= c <= y && 0.0 <= b <= z && -z <= d <= z
  {
    ProductBound(u, e, h);
    ProductBound(v, f, h);
    Small(e, e, h);
    Small(e, f, h);
    Squared(e);
  }

  lemma OneCoordinate(s: real, q: real, v: real, dq: real, dv: real)
    requires s > 0.0 && -s / 2.0 <= dq - q <= s / 2.0 && -s / 2.0 <= dv - v <= s / 2.0
    ensures Abs(MixedTerm(q, dq, dv) - Gap(q, v)) <= ErrorTerm(s, q, v)
  {
    var e, f, h := dv - v, dq - q, s / 2.0;
    assert v + e == dv && q + f == dq;
    Errors(q, v, e, f, h);
    HalfProducts(s, Abs(q - v), Abs(v));
  }

  lemma Squared(e: real)
    ensures e * e >= 0.0
  {
  }

  lemma Small(a: real, b: real, h: real)
    requires h >= 0.0 && -h <= a <= h && -h <= b <= h
    ensures -(h * h) <= a * b <= h * h
  {
    ProductBound(a, b, h);
    Dist(h, h, Abs(a));
    NonNegative(h, h - Abs(a));
  }

  /** For a query and a vector inside the trained range, the computed distance is off by at most the bound. */
  lemma {:induction false} DistanceError(p: Params, q: Vector, v: Vector)
    requires p.Usable() && |q| == |v| == p.dimensions <= IntKernels.MAX_EXACT && InRange(p, q) && InRange(p, v)
    ensures Abs(p.Distance(p.PrepareQuery(q), p.Quantize(v)) - L2(q, v)) <= ErrorBound(p, q, v)
  {
    var dq, dv := p.Dequantize(p.QuantizeToBytes(q)), p.Dequantize(p.QuantizeToBytes(v));
    var mixed := seq(|q|, i requires 0 <= i < |q| => MixedTerm(q[i], dq[i], dv[i]));
    DistanceIsMixed(p, p.PrepareQuery(q), p.QuantizeToBytes(v));
    MixedIsSum(q, dq, dv, mixed);
    var errors := Zip((x, y) => ErrorTerm(p.scale, x, y), q, v);
    forall i: nat | i < |q| ensures Abs(mixed[i] - Zip(Gap, q, v)[i]) <= errors[i] {
      HalfStep(p, q[i]);
      HalfStep(p, v[i]);
      OneCoordinate(p.scale, q[i], v[i], dq[i], dv[i]);
    }
    SumBounded(mixed, Zip(Gap, q, v), errors);
  }

  lemma MixedIsSum(q: Vector, dq: Vector, dv: Vector, mixed: seq<real>)
    requires |q| == |dq| == |dv| == |mixed| && forall i: nat | i < |q| :: mixed[i] == MixedTerm(q[i], dq[i], dv[i])
    ensures Sum(mixed) == NormSquared(q) + NormSquared(dv) - 2.0 * RealDot(dq, dv)
  {
    var qq, vv, qv := Zip(Times, q, q), Zip(Times, dv, dv), Zip(Times, dq, dv);
    var norms := seq(|q|, i requires 0 <= i < |q| => qq[i] + vv[i]);
    forall i: nat | i < |q| ensures mixed[i] == Linear(1.0, norms[i], -2.0, qv[i], 0.0, 1.0) {
    }
    SumLinear(mixed, norms, qv, 1.0, -2.0, 0.0);
    SumLinear(norms, qq, vv, 1.0, 1.0, 0.0);
  }
}
