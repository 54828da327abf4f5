/** The unrolled vector kernels, over exact reals. */
module DistanceKernels {
  import Records

  type Maybe = Records.Option<real>

  type Vector = seq<real>

  /** `l2_squared_simd` and `dot_simd` are one loop on two lane operations. */
  datatype Op = SquaredDifference | Product

  function Term(op: Op, x: real, y: real): real {
    match op
    case SquaredDifference => (x - y) * (x - y)
    case Product => x * y
  }

  /** The scalar sum over `n` positions from `i`. */
  function Sum(op: Op, a: Vector, b: Vector, i: nat, n: nat): real
    requires i + n <= |a| == |b|
  {
    if n == 0 then 0.0 else Sum(op, a, b, i, n - 1) + Term(op, a[i + n - 1], b[i + n - 1])
  }

  /** The scalar reference: squared distance or dot product. */
  function Whole(op: Op, a: Vector, b: Vector): real
    requires |a| == |b|
  {
    Sum(op, a, b, 0, |a|)
  }

  lemma {:induction false} SumSplit(op: Op, a: Vector, b: Vector, i: nat, n: nat, m: nat)
    requires i + n + m <= |a| == |b|
    ensures Sum(op, a, b, i, n + m) == Sum(op, a, b, i, n) + Sum(op, a, b, i + n, m)
  {
    if m > 0 {
      SumSplit(op, a, b, i, n, m - 1);
    }
  }

  // ------------------------------------------------------------------- lanes

  function LaneSum(s: Vector): real {
    if s == [] then 0.0 else LaneSum(s[..|s| - 1]) + s[|s| - 1]
  }

  function Splat(n: nat): (r: Vector)
    ensures |r| == n
  {
    seq(n, _ => 0.0)
  }

  function Minus(x: Vector, y: Vector): (r: Vector)
    requires |x| == |y|
    ensures |r| == |x|
  {
    seq(|x|, k requires 0 <= k < |x| => x[k] - y[k])
  }

  /** `x * y + acc`, lane by lane. */
  function MulAdd(x: Vector, y: Vector, acc: Vector): (r: Vector)
    requires |x| == |y| == |acc|
    ensures |r| == |x|
  {
    seq(|x|, k requires 0 <= k < |x| => x[k] * y[k] + acc[k])
  }

  function Plus(x: Vector, y: Vector): (r: Vector)
    requires |x| == |y|
    ensures |r| == |x|
  {
    seq(|x|, k requires 0 <= k < |x| => x[k] + y[k])
  }

  /** One accumulation: fused on the differences, or on the operands themselves. */
  function Accumulated(op: Op, x: Vector, y: Vector, acc: Vector): (r: Vector)
    requires |x| == |y| == |acc|
    ensures |r| == |x|
  {
    match op
    case SquaredDifference => MulAdd(Minus(x, y), Minus(x, y), acc)
    case Product => MulAdd(x, y, acc)
  }

  lemma {:induction false} SplatSum(n: nat)
    ensures LaneSum(Splat(n)) == 0.0
  {
    if n > 0 {
      assert Splat(n)[..n - 1] == Splat(n - 1);
      SplatSum(n - 1);
    }
  }

  lemma {:induction false} PlusSum(x: Vector, y: Vector)
    requires |x| == |y|
    ensures LaneSum(Plus(x, y)) == LaneSum(x) + LaneSum(y)
  {
    if x != [] {
      var n := |x| - 1;
      assert Plus(x, y)[..n] == Plus(x[..n], y[..n]);
      PlusSum(x[..n], y[..n]);
    }
  }

  lemma AccumulatedAt(op: Op, x: Vector, y: Vector, acc: Vector, k: nat)
    requires |x| == |y| == |acc| && k < |x|
    ensures Accumulated(op, x, y, acc)[k] == Term(op, x[k], y[k]) + acc[k]
  {
  }

  lemma AccumulatedPrefix(op: Op, x: Vector, y: Vector, acc: Vector, m: nat)
    requires |x| == |y| == |acc| && m <= |x|
    ensures Accumulated(op, x, y, acc)[..m] == Accumulated(op, x[..m], y[..m], acc[..m])
  {
    var r, p := Accumulated(op, x, y, acc), Accumulated(op, x[..m], y[..m], acc[..m]);
    forall k: nat | k < m ensures r[k] == p[k] {
      AccumulatedAt(op, x, y, acc, k);
      AccumulatedAt(op, x[..m], y[..m], acc[..m], k);
    }
    assert r[..m] == p;
  }

  /** Accumulating one chunk adds the chunk's scalar sum to the lanes. */
  lemma {:induction false} AccumulatedSum(op: Op, a: Vector, b: Vector, at: nat, n: nat, acc: Vector)
    requires at + n <= |a| == |b| && |acc| == n
    ensures LaneSum(Accumulated(op, a[at..at + n], b[at..at + n], acc)) == LaneSum(acc) + Sum(op, a, b, at, n)
  {
    if n > 0 {
      var m := n - 1;
      AccumulatedSum(op, a, b, at, m, acc[..m]);
      AccumulatedPrefix(op, a[at..at + n], b[at..at + n], acc, m);
      AccumulatedAt(op, a[at..at + n], b[at..at + n], acc, m);
      assert a[at..at + n][..m] == a[at..at + m] && b[at..at + n][..m] == b[at..at + m];
    }
  }

  // ----------------------------------------------------------------- kernels

  /** The four accumulators hold the sum over the first `done` positions. */
  ghost predicate Holding(op: Op, a: Vector, b: Vector, done: nat, acc: seq<Vector>, lanes: nat) {
    && |a| == |b| && done <= |a| && |acc| == 4
    && |acc[0]| == |acc[1]| == |acc[2]| == |acc[3]| == lanes
    && LaneSum(acc[0]) + LaneSum(acc[1]) + LaneSum(acc[2]) + LaneSum(acc[3]) == Sum(op, a, b, 0, done)
  }

  /** Chunk at position `done` into accumulator `which`. */
  method OneChunk(op: Op, a: Vector, b: Vector, done: nat, acc: seq<Vector>, lanes: nat,
      which: nat) returns (r: seq<Vector>)
    requires Holding(op, a, b, done, acc, lanes) && done + lanes <= |a| && which < 4
    ensures Holding(op, a, b, done + lanes, r, lanes)
  {
    AccumulatedSum(op, a, b, done, lanes, acc[which]);
    SumSplit(op, a, b, 0, done, lanes);
    r := acc[which := Accumulated(op, a[done..done + lanes], b[done..done + lanes], acc[which])];
  }

  /** The unrolled body: four chunks into four accumulators. */
  method FourChunks(op: Op, a: Vector, b: Vector, done: nat, acc: seq<Vector>, lanes: nat) returns (r: seq<Vector>)
    requires Holding(op, a, b, done, acc, lanes) && done + 4 * lanes <= |a|
    ensures Holding(op, a, b, done + 4 * lanes, r, lanes)
  {
    r := OneChunk(op, a, b, done, acc, lanes, 0);
    r := OneChunk(op, a, b, done + lanes, r, lanes, 1);
    r := OneChunk(op, a, b, done + 2 * lanes, r, lanes, 2);
    r := OneChunk(op, a, b, done + 3 * lanes, r, lanes, 3);
  }

  lemma ChunkFits(lanes: nat, i: nat, n: nat, chunks: nat, len: nat)
    requires i + n <= chunks && lanes > 0 && chunks == len / lanes
    ensures 0 <= lanes * i && lanes * i + n * lanes == lanes * (i + n) <= len
  {
    assert lanes * chunks <= len;
    assert lanes * (chunks - (i + n)) >= 0;
    assert lanes * (chunks - (i + n)) == lanes * chunks - lanes * (i + n);
  }

  /** The unrolled loop: chunks in groups of four, up to `chunks - chunks % 4`. */
  method Unrolled(op: Op, lanes: nat, a: Vector, b: Vector, chunks: nat) returns (i: nat, done: nat, acc: seq<Vector>)
    requires lanes > 0 && |a| == |b| && chunks == |a| / lanes
    ensures i <= chunks && done == lanes * i && Holding(op, a, b, done, acc, lanes)
  {
    acc := [Splat(lanes), Splat(lanes), Splat(lanes), Splat(lanes)];
    SplatSum(lanes);
    var unrollEnd := chunks - chunks % 4;
    i, done := 0, 0;
    while i < unrollEnd
      invariant i <= unrollEnd && (unrollEnd - i) % 4 == 0
      invariant done == lanes * i
      invariant Holding(op, a, b, done, acc, lanes)
    {
      ChunkFits(lanes, i, 4, chunks, |a|);
      acc := FourChunks(op, a, b, done, acc, lanes);
      i, done := i + 4, done + 4 * lanes;
    }
  }

  /** `None` is a vector shorter than one register; otherwise four accumulators, then one, then a tail. */
  method Simd(op: Op, lanes: nat, a: Vector, b: Vector) returns (r: Maybe)
    requires lanes > 0 && |a| == |b|
    ensures r == if |a| < lanes then Records.None else Records.Some(Whole(op, a, b))
  {
    if |a| < lanes { return Records.None; }
    var chunks := |a| / lanes;
    var i, done, acc := Unrolled(op, lanes, a, b, chunks);
    while i < chunks
      invariant i <= chunks && done == lanes * i && Holding(op, a, b, done, acc, lanes)
    {
      ChunkFits(lanes, i, 1, chunks, |a|);
      acc := OneChunk(op, a, b, done, acc, lanes, 0);
      i, done := i + 1, done + lanes;
    }
    var sum := Reduced(acc, lanes);
    sum := Remainder(op, a, b, done, sum);
    r := Records.Some(sum);
  }

  /** `(acc0 + acc1 + acc2 + acc3).reduce_sum()`. */
  method Reduced(acc: seq<Vector>, lanes: nat) returns (sum: real)
    requires |acc| == 4 && |acc[0]| == |acc[1]| == |acc[2]| == |acc[3]| == lanes
    ensures sum == LaneSum(acc[0]) + LaneSum(acc[1]) + LaneSum(acc[2]) + LaneSum(acc[3])
  {
    var two := Plus(acc[0], acc[1]);
    var three := Plus(two, acc[2]);
    sum := LaneSum(Plus(three, acc[3]));
    PlusSum(acc[0], acc[1]);
    PlusSum(two, acc[2]);
    PlusSum(three, acc[3]);
  }

  method Remainder(op: Op, a: Vector, b: Vector, from: nat, before: real) returns (sum: real)
    requires |a| == |b| && from <= |a| && before == Sum(op, a, b, 0, from)
    ensures sum == Whole(op, a, b)
  {
    sum := before;
    for j := from to |a|
      invariant sum == Sum(op, a, b, 0, j)
    {
      match op {
        case SquaredDifference =>
          var d := a[j] - b[j];
          sum := d * d + sum;
        case Product => sum := a[j] * b[j] + sum;
      }
    }
  }

  // ---------------------------------------------------------------- dispatch

  datatype Target = X86 | Arm | Other

  method Scalar(op: Op, a: Vector, b: Vector) returns (sum: real)
    requires |a| == |b|
    ensures sum == Whole(op, a, b)
  {
    sum := 0.0;
    for j := 0 to |a|
      invariant sum == Sum(op, a, b, 0, j)
    {
      sum := sum + Term(op, a[j], b[j]);
    }
  }

  /** The widest register the vector fills, else the scalar loop: total, and the scalar sum, at every length. */
  method Dispatch(t: Target, op: Op, a: Vector, b: Vector) returns (r: real)
    requires |a| == |b|
    ensures r == Whole(op, a, b)
  {
    var x: Maybe := Records.None;
    if t.X86? {
      x := Simd(op, 16, a, b);
      if x.None? {
        x := Simd(op, 8, a, b);
      }
    }
    if x.None? && !t.Other? {
      x := Simd(op, 4, a, b);
    }
    if x.Some? {
      r := x.value;
    } else {
      r := Scalar(op, a, b);
    }
  }

  // ----------------------------------------------------------- decomposition

  lemma {:induction false} Decomposed(a: Vector, b: Vector, n: nat)
    requires n <= |a| == |b|
    ensures Sum(SquaredDifference, a, b, 0, n) ==
            Sum(Product, a, a, 0, n) + Sum(Product, b, b, 0, n) - 2.0 * Sum(Product, a, b, 0, n)
  {
    if n > 0 {
      Decomposed(a, b, n - 1);
      var x, y := a[n - 1], b[n - 1];
      assert (x - y) * (x - y) == x * x + y * y - 2.0 * (x * y);
    }
  }

  /** From given norms, the decomposed distance is the direct one exactly when the norms add up to the true ones. */
  method L2SquaredDecomposed(t: Target, a: Vector, b: Vector, aNorm: real, bNorm: real) returns (r: real)
    requires |a| == |b|
    ensures r == Whole(SquaredDifference, a, b) <==> aNorm + bNorm == Whole(Product, a, a) + Whole(Product, b, b)
  {
    var dot := Dispatch(t, Product, a, b);
    r := aNorm + bNorm - 2.0 * dot;
    Decomposed(a, b, |a|);
  }
}
