/** SQ8: one scale and offset for all dimensions, distances from integer dot products, over exact reals. */
module Scalar {
  import opened Bytes
  import IntKernels

  type Vector = seq<real>

  datatype Params = Params(scale: real, offset: real, dimensions: nat) {
    /** What training and the untrained default both guarantee. */
    predicate Usable() {
      scale > 0.0
    }

    /** A coordinate measured in steps from the offset. */
    function InSteps(v: real): real
      requires Usable()
    {
      (v - offset) * (1.0 / scale)
    }

    function Code(v: real): byte
      requires Usable()
    {
      Round(Clamp(InSteps(v)))
    }

    function Decode(q: byte): real {
      FromSteps(q as real)
    }

    function FromSteps(x: real): real {
      x * scale + offset
    }

    /** A squared distance of `n` squared steps. */
    function SquaredSteps(n: nat): real {
      scale * scale * n as real
    }

    function QuantizeToBytes(v: Vector): (r: seq<byte>)
      requires Usable()
      ensures |r| == |v|
    {
      seq(|v|, i requires 0 <= i < |v| => Code(v[i]))
    }

    function Dequantize(q: seq<byte>): (r: Vector)
      ensures |r| == |q|
    {
      seq(|q|, i requires 0 <= i < |q| => Decode(q[i]))
    }

    function Quantize(v: Vector): Quantized
      requires Usable()
    {
      var q := QuantizeToBytes(v);
      Quantized(q, Total(q), NormSquared(Dequantize(q)))
    }

    function PrepareQuery(v: Vector): Query
      requires Usable()
    {
      var q := QuantizeToBytes(v);
      Query(q, NormSquared(v), Total(q))
    }

    /** From an integer dot product back to the dot product of the dequantized vectors. */
    function Reconstruct(dot: nat, sums: int): real {
      scale * scale * dot as real + scale * offset * sums as real + offset * offset * dimensions as real
    }

    function Distance(q: Query, v: Quantized): real
      requires |q.data| == |v.data|
    {
      q.normSquared + v.normSquared - 2.0 * Reconstruct(WrappedDot(q.data, v.data), q.sum + v.sum)
    }

    /** The raw form is the same distance, from the parts of a stored vector. */
    function DistanceRaw(q: Query, data: seq<byte>, sum: int, normSquared: real): (r: real)
      requires |q.data| == |data|
      ensures r == Distance(q, Quantized(data, sum, normSquared))
    {
      var scaleSquared := scale * scale;
      var dot := scaleSquared * WrappedDot(q.data, data) as real
        + scale * offset * (q.sum + sum) as real + offset * offset * dimensions as real;
      q.normSquared + normSquared - 2.0 * dot
    }
  }

  /** What every integer kernel returns. */
  function WrappedDot(q: seq<byte>, v: seq<byte>): nat
    requires |q| == |v|
  {
    IntKernels.Dot(q, v) % TWO32
  }

  function Clamp(x: real): (r: real)
    ensures 0.0 <= r <= 255.0
  {
    if x < 0.0 then 0.0 else if x > 255.0 then 255.0 else x
  }

  /** Round half away from zero, on 0 to 255. */
  function Round(x: real): byte
    requires 0.0 <= x <= 255.0
  {
    (x + 0.5).Floor
  }

  datatype Quantized = Quantized(data: seq<byte>, sum: int, normSquared: real)

  datatype Query = Query(data: seq<byte>, normSquared: real, sum: int)

  function Total(q: seq<byte>): nat {
    if q == [] then 0 else Total(q[..|q| - 1]) + q[|q| - 1]
  }

  function Sum(s: seq<real>): real {
    if s == [] then 0.0 else Sum(s[..|s| - 1]) + s[|s| - 1]
  }

  /** The terms of a sum over two vectors. */
  function Zip(f: (real, real) -> real, a: Vector, b: Vector): (r: seq<real>)
    requires |a| == |b|
    ensures |r| == |a|
  {
    seq(|a|, i requires 0 <= i < |a| => f(a[i], b[i]))
  }

  function Times(x: real, y: real): real {
    x * y
  }

  function Gap(x: real, y: real): real {
    (x - y) * (x - y)
  }

  function NormSquared(v: Vector): real {
    Sum(Zip(Times, v, v))
  }

  /** The exact squared distance. */
  function L2(a: Vector, b: Vector): real
    requires |a| == |b|
  {
    Sum(Zip(Gap, a, b))
  }

  /** `symmetric_l2_squared_u8`: the integer distance between two codes. */
  function Symmetric(a: seq<byte>, b: seq<byte>): nat
    requires |a| == |b|
  {
    if a == [] then 0
    else
      var n := |a| - 1;
      Symmetric(a[..n], b[..n]) + Square(a[n] as int - b[n] as int)
  }

  function Square(x: int): nat {
    x * x
  }

  /** One distance per vector into the caller's buffer; what lies beyond is left alone. */
  method DistanceBatch(t: IntKernels.Target, p: Params, q: Query, vectors: seq<Quantized>, distances: array<real>)
    requires |vectors| <= distances.Length
    requires forall i: nat | i < |vectors| :: |vectors[i].data| == |q.data|
    modifies distances
    ensures forall i: nat | i < |vectors| :: distances[i] == p.Distance(q, vectors[i])
    ensures forall i: nat | |vectors| <= i < distances.Length :: distances[i] == old(distances[i])
  {
    var scaleSquared := p.scale * p.scale;
    var offsetTerm := p.offset * p.offset * p.dimensions as real;
    for i := 0 to |vectors|
      invariant forall k: nat | k < i :: distances[k] == p.Distance(q, vectors[k])
      invariant forall k: nat | i <= k < distances.Length :: distances[k] == old(distances[k])
    {
      var v := vectors[i];
      var intDot := IntKernels.IntDotProduct(t, q.data, v.data);
      var dot := scaleSquared * intDot as real + p.scale * p.offset * (q.sum + v.sum) as real + offsetTerm;
      distances[i] := q.normSquared + v.normSquared - 2.0 * dot;
    }
  }
}
