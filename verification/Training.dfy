/** Percentile training of the quantizer. */
module Training {
  import Bytes
  import opened Scalar
  import IntKernels
  import ScalarProofs

  const MAX_SAMPLES := 100_000
  const NARROW := 0.0000001

  // ----------------------------------------------------------------- samples

  function Flatten(vectors: seq<Vector>): Vector {
    if vectors == [] then [] else Flatten(vectors[..|vectors| - 1]) + vectors[|vectors| - 1]
  }

  /** The values at positions from `from` on that are multiples of `step`. */
  function Kept(values: Vector, step: nat, from: nat): Vector
    requires step > 0 && from <= |values|
    decreases |values| - from
  {
    if from == |values| then []
    else (if from % step == 0 then [values[from]] else []) + Kept(values, step, from + 1)
  }

  function Samples(values: Vector): Vector {
    if |values| > MAX_SAMPLES then
      var kept := Kept(values, |values| / MAX_SAMPLES, 0);
      if |kept| > MAX_SAMPLES then kept[..MAX_SAMPLES] else kept
    else values
  }

  /** Multiples of `step` below `n`. */
  function Multiples(n: nat, step: nat): nat
    requires step > 0
  {
    if n == 0 then 0 else Multiples(n - 1, step) + (if (n - 1) % step == 0 then 1 else 0)
  }

  lemma {:induction false} KeptLength(values: Vector, step: nat, from: nat)
    requires step > 0 && from <= |values|
    ensures |Kept(values, step, from)| == Multiples(|values|, step) - Multiples(from, step)
    decreases |values| - from
  {
    if from < |values| {
      KeptLength(values, step, from + 1);
    }
  }

  lemma {:induction false} MultiplesCover(n: nat, step: nat)
    requires step > 0
    ensures Multiples(n, step) * step >= n
    ensures n > 0 ==> (Multiples(n, step) - 1) * step <= n - 1
  {
    if n > 0 {
      MultiplesCover(n - 1, step);
      var m := Multiples(n - 1, step);
      if (n - 1) % step == 0 {
        assert (m + 1) * step == m * step + step;
        if n > 1 {
          OnMultiple(m, n - 1, step);
        }
      } else {
        Between(m, n - 1, step);
      }
    }
  }

  lemma OnMultiple(m: nat, n: nat, step: nat)
    requires step > 0 && n % step == 0 && n > 0 && m * step >= n && (m - 1) * step <= n - 1
    ensures m * step <= n
  {
    var k := n / step;
    assert n == k * step;
    Bytes.MulSub(m, k, step);
    Bytes.MulSub(m, 1, step);
    NoGap(m - k, step);
  }

  /** A multiple of `step` below `step` is not positive. */
  lemma NoGap(d: int, step: nat)
    requires d * step < step
    ensures d <= 0 && d * step <= 0
  {
    if d >= 1 {
      Bytes.MulAtLeast(d, step);
      assert false;
    }
  }

  lemma Between(m: nat, n: nat, step: nat)
    requires step > 0 && n % step != 0 && m * step >= n
    ensures m * step >= n + 1
  {
    if m * step == n {
      Bytes.ModUnique(n, step, m, 0);
    }
  }

  /** Subsampling yields exactly the limit, and never changes a small set. */
  lemma {:induction false} SampleCount(values: Vector)
    ensures |Samples(values)| == if |values| > MAX_SAMPLES then MAX_SAMPLES else |values|
  {
    var n := |values|;
    if n > MAX_SAMPLES {
      var step := n / MAX_SAMPLES;
      KeptLength(values, step, 0);
      MultiplesCover(n, step);
      Enough(Multiples(n, step), MAX_SAMPLES, step, n);
    }
  }

  lemma Enough(m: nat, limit: nat, step: nat, n: nat)
    requires step > 0 && limit * step <= n <= m * step
    ensures limit <= m
  {
    Bytes.MulSub(limit, m, step);
    NoGap(limit - m, step);
  }

  lemma OneMore(n: nat, dim: nat)
    ensures (n + 1) * dim == n * dim + dim
  {
  }

  lemma {:induction false} FlattenLength(vectors: seq<Vector>, dim: nat)
    requires forall v <- vectors :: |v| == dim
    ensures |Flatten(vectors)| == |vectors| * dim
  {
    if vectors != [] {
      var n := |vectors| - 1;
      assert vectors[n] in vectors;
      FlattenLength(vectors[..n], dim);
      OneMore(n, dim);
    }
  }

  // ----------------------------------------------------------------- sorting

  ghost predicate Ascending(s: Vector) {
    forall i, j :: 0 <= i < j < |s| ==> s[i] <= s[j]
  }

  /** Putting `x` between the smaller and the larger part keeps the order and adds just `x`. */
  lemma Inserted(t: Vector, k: nat, x: real)
    requires Ascending(t) && k <= |t|
    requires (forall i: nat | i < k :: t[i] <= x) && (forall i: nat | k <= i < |t| :: x <= t[i])
    ensures Ascending(t[..k] + [x] + t[k..])
    ensures multiset(t[..k] + [x] + t[k..]) == multiset(t) + multiset{x}
  {
    Joined(t[..k], x, t[k..]);
    assert t == t[..k] + t[k..];
  }

  lemma Joined(a: Vector, x: real, b: Vector)
    requires Ascending(a) && Ascending(b) && (forall y <- a :: y <= x) && (forall y <- b :: x <= y)
    ensures Ascending(a + [x] + b)
  {
    var t := a + [x] + b;
    forall i, j | 0 <= i < j < |t| ensures t[i] <= t[j] {
      if i < |a| { assert t[i] == a[i] && a[i] in a; }
      if j > |a| { assert t[j] == b[j - |a| - 1] && b[j - |a| - 1] in b; }
      if i > |a| { assert t[i] == b[i - |a| - 1]; }
      if j < |a| { assert t[j] == a[j]; }
    }
  }

  method Sort(s: Vector) returns (t: Vector)
    ensures Ascending(t) && multiset(t) == multiset(s)
  {
    t := [];
    for n := 0 to |s|
      invariant Ascending(t) && multiset(t) == multiset(s[..n])
    {
      var k := 0;
      while k < |t| && t[k] < s[n]
        invariant k <= |t| && forall i: nat | i < k :: t[i] < s[n]
      {
        k := k + 1;
      }
      Inserted(t, k, s[n]);
      assert s[..n + 1] == s[..n] + [s[n]];
      t := t[..k] + [s[n]] + t[k..];
    }
    assert s[..|s|] == s;
  }

  // ---------------------------------------------------------------- coverage

  function CountIn(s: Vector, lo: real, hi: real): nat {
    if s == [] then 0 else CountIn(s[..|s| - 1], lo, hi) + (if lo <= s[|s| - 1] <= hi then 1 else 0)
  }

  lemma {:induction false} CountConcat(a: Vector, b: Vector, lo: real, hi: real)
    ensures CountIn(a + b, lo, hi) == CountIn(a, lo, hi) + CountIn(b, lo, hi)
  {
    if b == [] {
      assert a + b == a;
    } else {
      assert (a + b)[..|a + b| - 1] == a + b[..|b| - 1];
      CountConcat(a, b[..|b| - 1], lo, hi);
    }
  }

  /** Counting does not notice an element taken out from anywhere and put last. */
  lemma CountMoved(t: Vector, j: nat, lo: real, hi: real)
    requires j < |t|
    ensures CountIn(t, lo, hi) == CountIn(t[..j] + t[j + 1..], lo, hi) + (if lo <= t[j] <= hi then 1 else 0)
  {
    var a, x, b := t[..j], [t[j]], t[j + 1..];
    assert t == (a + x) + b;
    CountConcat(a + x, b, lo, hi);
    CountConcat(a, x, lo, hi);
    CountConcat(a, b, lo, hi);
    assert x[..0] == [];
  }

  lemma MultisetMoved(t: Vector, j: nat)
    requires j < |t|
    ensures multiset(t) == multiset(t[..j] + t[j + 1..]) + multiset{t[j]}
  {
    assert t == t[..j] + [t[j]] + t[j + 1..];
  }

  lemma {:induction false} CountPermuted(s: Vector, t: Vector, lo: real, hi: real)
    requires multiset(s) == multiset(t)
    ensures CountIn(s, lo, hi) == CountIn(t, lo, hi)
    decreases |s|
  {
    assert |multiset(s)| == |s| && |multiset(t)| == |t|;
    if s != [] {
      var x, front := s[|s| - 1], s[..|s| - 1];
      assert s == front + [x];
      assert x in multiset(s);
      var j: nat :| j < |t| && t[j] == x;
      CountMoved(t, j, lo, hi);
      MultisetMoved(t, j);
      var rest := t[..j] + t[j + 1..];
      assert multiset(front) + multiset{x} == multiset(rest) + multiset{x};
      assert multiset(front) == multiset(s) - multiset{x} == multiset(rest);
      CountPermuted(front, rest, lo, hi);
    }
  }

  lemma {:induction false} CountAll(s: Vector, lo: real, hi: real)
    requires forall x <- s :: lo <= x <= hi
    ensures CountIn(s, lo, hi) == |s|
  {
    if s != [] {
      var front := s[..|s| - 1];
      assert s[|s| - 1] in s;
      forall x <- front ensures lo <= x <= hi {
        assert x in s;
      }
      CountAll(front, lo, hi);
    }
  }

  /** Everything between two ranks of a sorted list lies between their values. */
  lemma {:induction false} RanksCovered(t: Vector, l: nat, u: nat, lo: real, hi: real)
    requires Ascending(t) && l <= u < |t| && lo <= t[l] && t[u] <= hi
    ensures CountIn(t, lo, hi) >= u - l + 1
  {
    var mid := t[l..u + 1];
    assert t == t[..l] + mid + t[u + 1..];
    CountConcat(t[..l] + mid, t[u + 1..], lo, hi);
    CountConcat(t[..l], mid, lo, hi);
    forall x <- mid ensures lo <= x <= hi {
      var i :| 0 <= i < |mid| && mid[i] == x;
      assert t[l + i] == x;
    }
    CountAll(mid, lo, hi);
  }

  // ---------------------------------------------------------------- training

  /** The rank a percentile selects: the cast saturates at 0, the list's end bounds it. */
  function Rank(n: nat, percentile: real): nat
    requires n > 0
  {
    var x := (n as real * percentile).Floor;
    if x < 0 then 0 else if x > n - 1 then n - 1 else x
  }

  lemma RankOrdered(n: nat, lower: real, upper: real)
    requires n > 0 && lower <= upper
    ensures Rank(n, lower) <= Rank(n, upper)
  {
    ScalarProofs.NonNegative(n as real, upper - lower);
    ScalarProofs.Dist(n as real, upper, lower);
  }

  datatype Result = Trained(params: Params) | NoVectors | MixedDimensions | TooManyDimensions | Panics

  /** Training on values: the scale is positive, and the range between the two ranks' values is representable. */
  method FromSamples(samples: Vector, lower: real, upper: real, dimensions: nat) returns (p: Params)
    requires samples != []
    ensures p.Usable() && p.dimensions == dimensions
    ensures lower <= upper ==>
              CountIn(samples, p.offset, p.offset + 255.0 * p.scale)
                >= Rank(|samples|, upper) - Rank(|samples|, lower) + 1
  {
    var sorted := Sort(samples);
    assert |multiset(sorted)| == |sorted| && |multiset(samples)| == |samples|;
    var n := |samples|;
    var min, max := sorted[Rank(n, lower)], sorted[Rank(n, upper)];
    var range := max - min;
    if range < NARROW {
      p := Params(1.0 / 255.0, min - 0.5, dimensions);
    } else {
      p := Params(range / 255.0, min, dimensions);
    }
    if lower <= upper {
      RankOrdered(n, lower, upper);
      var hi := p.offset + 255.0 * p.scale;
      assert max <= hi;
      RanksCovered(sorted, Rank(n, lower), Rank(n, upper), p.offset, hi);
      CountPermuted(sorted, samples, p.offset, hi);
    }
  }

  /** Each error exactly when its test fires; otherwise usable parameters covering the percentile range of
      exactly the samples taken. Vectors of dimension 0 leave no sample to index, and training panics. */
  method TrainWithPercentiles(vectors: seq<Vector>, lower: real, upper: real) returns (r: Result, ghost samples: Vector)
    ensures r.NoVectors? <==> vectors == []
    ensures vectors != [] ==>
              var dim := |vectors[0]|;
              && (r.MixedDimensions? <==> exists v <- vectors :: |v| != dim)
              && (r.TooManyDimensions? <==> (forall v <- vectors :: |v| == dim) && dim > IntKernels.MAX_DIMENSIONS)
              && (r.Panics? <==> (forall v <- vectors :: |v| == dim) && dim == 0)
    ensures r.Trained? ==>
              var total := |vectors| * |vectors[0]|;
              && r.params.Usable() && r.params.dimensions == |vectors[0]| <= IntKernels.MAX_DIMENSIONS
              && samples == Samples(Flatten(vectors))
              && |samples| == (if total > MAX_SAMPLES then MAX_SAMPLES else total) > 0
              && (lower <= upper ==>
                    CountIn(samples, r.params.offset, r.params.offset + 255.0 * r.params.scale)
                      >= Rank(|samples|, upper) - Rank(|samples|, lower) + 1)
  {
    samples := [];
    if vectors == [] { return NoVectors, []; }
    var dim := |vectors[0]|;
    if exists v <- vectors :: |v| != dim { return MixedDimensions, []; }
    if dim > IntKernels.MAX_DIMENSIONS { return TooManyDimensions, []; }
    var taken := Samples(Flatten(vectors));
    FlattenLength(vectors, dim);
    SampleCount(Flatten(vectors));
    assert |vectors| * dim == 0 <==> dim == 0;
    if taken == [] { return Panics, []; }
    var p := FromSamples(taken, lower, upper, dim);
    r, samples := Trained(p), taken;
  }
}
