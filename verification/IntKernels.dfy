/** The integer dot products of the quantizer: blocked kernels on wrapping 32-bit lanes. */
module IntKernels {
  import opened Bytes

  function Product(a: byte, b: byte): (p: nat)
    ensures p <= 65025
  {
    MulRange(a, b);
    (a as int) * (b as int)
  }

  lemma MulRange(x: int, y: int)
    requires 0 <= x <= 255 && 0 <= y <= 255
    ensures 0 <= x * y <= 65025
  {
    assert 0 <= (255 - x) * y;
    assert (255 - x) * y == 255 * y - x * y;
  }

  /** The exact sum of `n` products from position `i`. */
  function Products(q: seq<byte>, v: seq<byte>, i: nat, n: nat): nat
    requires i + n <= |q| && |q| == |v|
  {
    if n == 0 then 0 else Products(q, v, i, n - 1) + Product(q[i + n - 1], v[i + n - 1])
  }

  /** The plain sum, before any wrapping. */
  function Dot(q: seq<byte>, v: seq<byte>): nat
    requires |q| == |v|
  {
    Products(q, v, 0, |q|)
  }

  lemma {:induction false} ProductsSplit(q: seq<byte>, v: seq<byte>, i: nat, n: nat, m: nat)
    requires i + n + m <= |q| && |q| == |v|
    ensures Products(q, v, i, n + m) == Products(q, v, i, n) + Products(q, v, i + n, m)
  {
    if m > 0 {
      ProductsSplit(q, v, i, n, m - 1);
    }
  }

  lemma {:induction false} ProductsBound(q: seq<byte>, v: seq<byte>, i: nat, n: nat)
    requires i + n <= |q| && |q| == |v|
    ensures Products(q, v, i, n) <= 65025 * n
  {
    if n > 0 {
      ProductsBound(q, v, i, n - 1);
    }
  }

  // ------------------------------------------------------------------- lanes

  /** A register of 32-bit lanes. */
  type Lanes = seq<u32>

  function LaneSum(s: Lanes): nat {
    if s == [] then 0 else LaneSum(s[..|s| - 1]) + s[|s| - 1]
  }

  function AddU32(a: int, b: int): u32 {
    (a + b) % TWO32
  }

  function AddLanes(a: Lanes, b: Lanes): (r: Lanes)
    requires |a| == |b|
    ensures |r| == |a|
  {
    seq(|a|, k requires 0 <= k < |a| => AddU32(a[k], b[k]))
  }

  function Pair(q: seq<byte>, v: seq<byte>, i: nat): u32
    requires i + 2 <= |q| == |v|
  {
    Product(q[i], v[i]) + Product(q[i + 1], v[i + 1])
  }

  /** `n` pairs of neighbouring products, added pairwise. */
  function Pairwise(q: seq<byte>, v: seq<byte>, i: nat, n: nat): (r: Lanes)
    requires i + 2 * n <= |q| && |q| == |v|
    ensures |r| == n
  {
    seq(n, k requires 0 <= k < n => Pair(q, v, i + 2 * k))
  }

  lemma {:induction false} PairwiseSum(q: seq<byte>, v: seq<byte>, i: nat, n: nat)
    requires i + 2 * n <= |q| && |q| == |v|
    ensures LaneSum(Pairwise(q, v, i, n)) == Products(q, v, i, 2 * n)
  {
    if n > 0 {
      PairwiseSum(q, v, i, n - 1);
      assert Pairwise(q, v, i, n)[..n - 1] == Pairwise(q, v, i, n - 1);
      assert Pairwise(q, v, i, n)[n - 1] == Pair(q, v, i + 2 * (n - 1));
      PairSum(q, v, i, 2 * (n - 1));
    }
  }

  lemma PairSum(q: seq<byte>, v: seq<byte>, i: nat, n: nat)
    requires i + n + 2 <= |q| == |v|
    ensures Products(q, v, i, n + 2) == Products(q, v, i, n) + Pair(q, v, i + n)
  {
    assert Products(q, v, i, n + 2) == Products(q, v, i, n + 1) + Product(q[i + n + 1], v[i + n + 1]);
  }

  /** Equal modulo 2^32. */
  ghost predicate Same(a: int, b: int) {
    exists k: int :: a == b + k * TWO32
  }

  lemma SameBy(a: int, b: int, k: int)
    requires a == b + k * TWO32
    ensures Same(a, b)
  {
  }

  lemma SameTrans(a: int, b: int, c: int)
    requires Same(a, b) && Same(b, c)
    ensures Same(a, c)
  {
    var k: int :| a == b + k * TWO32;
    var m: int :| b == c + m * TWO32;
    SameBy(a, c, k + m);
  }

  lemma SameSum(a: int, b: int, c: int, d: int)
    requires Same(a, b) && Same(c, d)
    ensures Same(a + c, b + d)
  {
    var k: int :| a == b + k * TWO32;
    var m: int :| c == d + m * TWO32;
    SameBy(a + c, b + d, k + m);
  }

  lemma SameWrapped(a: int)
    ensures Same(a % TWO32, a)
  {
    SameBy(a % TWO32, a, -(a / TWO32));
  }

  lemma SameRemainder(a: nat, b: nat)
    requires Same(a, b)
    ensures a % TWO32 == b % TWO32
  {
    var k: int :| a == b + k * TWO32;
  }

  /** Adding registers lane by lane adds their sums, whatever wraps. */
  lemma {:induction false} AddLanesSum(a: Lanes, b: Lanes)
    requires |a| == |b|
    ensures Same(LaneSum(AddLanes(a, b)), LaneSum(a) + LaneSum(b))
  {
    if a == [] {
      SameBy(0, 0, 0);
    } else {
      var n := |a| - 1;
      AddLanesSum(a[..n], b[..n]);
      assert AddLanes(a, b)[..n] == AddLanes(a[..n], b[..n]);
      var x: int, y: int := a[n], b[n];
      SameWrapped(x + y);
      SameSum(LaneSum(AddLanes(a[..n], b[..n])), LaneSum(a[..n]) + LaneSum(b[..n]), AddU32(x, y), x + y);
    }
  }

  /** One accumulation: the register held the products before `i`, and gains `n` pairs from `i`. */
  lemma Accumulate(sum: Lanes, q: seq<byte>, v: seq<byte>, before: nat, i: nat, n: nat)
    requires |sum| == n && i + 2 * n <= |q| && |q| == |v| && Same(LaneSum(sum), before)
    ensures Same(LaneSum(AddLanes(sum, Pairwise(q, v, i, n))), before + Products(q, v, i, 2 * n))
  {
    var p := Pairwise(q, v, i, n);
    PairwiseSum(q, v, i, n);
    AddLanesSum(sum, p);
    SameBy(LaneSum(p), LaneSum(p), 0);
    SameSum(LaneSum(sum), before, LaneSum(p), LaneSum(p));
    SameTrans(LaneSum(AddLanes(sum, p)), LaneSum(sum) + LaneSum(p), before + LaneSum(p));
  }

  /** Shifting a four-lane register right by `k` lanes. */
  function ShiftLanes(s: Lanes, k: nat): (r: Lanes)
    requires |s| == 4 && k <= 4
    ensures |r| == 4
  {
    s[k..] + seq(k, _ => 0)
  }

  function Zero(n: nat): (r: Lanes)
    ensures |r| == n
  {
    seq(n, _ => 0)
  }

  lemma {:induction false} ZeroSum(n: nat)
    ensures LaneSum(Zero(n)) == 0
  {
    if n > 0 {
      assert Zero(n)[..n - 1] == Zero(n - 1);
      ZeroSum(n - 1);
    }
  }

  /** Folding eight lanes to one by halves, each addition wrapping. */
  function Reduce8(s: Lanes): u32
    requires |s| == 8
  {
    var sum128 := AddLanes(s[..4], s[4..]);
    var sum64 := AddLanes(sum128, ShiftLanes(sum128, 2));
    var sum32 := AddLanes(sum64, ShiftLanes(sum64, 1));
    sum32[0]
  }

  function Four(s: Lanes): nat
    requires |s| == 4
  {
    var t: nat := s[0];
    t + s[1] + s[2] + s[3]
  }

  lemma LaneSum4(s: Lanes)
    requires |s| == 4
    ensures LaneSum(s) == Four(s)
  {
    assert LaneSum(s) == LaneSum(s[..3]) + s[3];
    assert s[..3][..2] == s[..2] && s[..2][..1] == s[..1] && s[..1][..0] == [];
    assert LaneSum(s[..3]) == LaneSum(s[..2]) + s[2];
    assert LaneSum(s[..2]) == LaneSum(s[..1]) + s[1];
    assert LaneSum(s[..1]) == s[0];
  }

  lemma {:induction false} LaneSumConcat(a: Lanes, b: Lanes)
    ensures LaneSum(a + b) == LaneSum(a) + LaneSum(b)
  {
    if b == [] {
      assert a + b == a;
    } else {
      var n := |b| - 1;
      assert (a + b)[..|a| + n] == a + b[..n];
      LaneSumConcat(a, b[..n]);
    }
  }

  lemma {:induction false} Reduce8Sum(s: Lanes)
    requires |s| == 8
    ensures Same(Reduce8(s), LaneSum(s))
  {
    var h := AddLanes(s[..4], s[4..]);
    assert s == s[..4] + s[4..];
    LaneSumConcat(s[..4], s[4..]);
    AddLanesSum(s[..4], s[4..]);
    Fold(h);
    SameTrans(Reduce8(s), LaneSum(h), LaneSum(s));
  }

  lemma Fold(h: Lanes)
    requires |h| == 4
    ensures var sum64 := AddLanes(h, ShiftLanes(h, 2));
            Same(AddLanes(sum64, ShiftLanes(sum64, 1))[0], LaneSum(h))
  {
    var t := AddLanes(h, ShiftLanes(h, 2));
    assert ShiftLanes(h, 2)[0] == h[2] && ShiftLanes(h, 2)[1] == h[3];
    assert ShiftLanes(t, 1)[0] == t[1];
    LaneSum4(h);
    FoldedPairs(h[0], h[1], h[2], h[3]);
  }

  lemma FoldedPairs(a: int, b: int, c: int, d: int)
    ensures Same(AddU32(AddU32(a, c), AddU32(b, d)), a + b + c + d)
  {
    var x: int, y: int := AddU32(a, c), AddU32(b, d);
    SameWrapped(a + c);
    SameWrapped(b + d);
    SameSum(x, a + c, y, b + d);
    SameWrapped(x + y);
    SameTrans(AddU32(x, y), x + y, a + b + c + d);
  }

  // ----------------------------------------------------------------- kernels

  /** One scalar step. */
  method Tail(q: seq<byte>, v: seq<byte>, j: nat, sum: u32) returns (r: u32)
    requires j < |q| == |v| && Same(sum, Products(q, v, 0, j))
    ensures Same(r, Products(q, v, 0, j + 1))
  {
    var p := Product(q[j], v[j]);
    r := AddU32(sum, p);
    SameWrapped(sum + p);
    SameBy(p, p, 0);
    SameSum(sum, Products(q, v, 0, j), p, p);
    SameTrans(r, sum + p, Products(q, v, 0, j + 1));
  }

  /** The loop over the elements from `i` on that every kernel ends with. */
  method Remainder(q: seq<byte>, v: seq<byte>, i: nat, sum: u32) returns (result: u32)
    requires i <= |q| == |v| && Same(sum, Products(q, v, 0, i))
    ensures result == Dot(q, v) % TWO32
  {
    result := sum;
    for j := i to |q|
      invariant Same(result, Products(q, v, 0, j))
    {
      result := Tail(q, v, j, result);
    }
    SameRemainder(result, Dot(q, v));
  }

  /** The reference: one wrapping sum. */
  method DotScalar(q: seq<byte>, v: seq<byte>) returns (result: u32)
    requires |q| == |v|
    ensures result == Dot(q, v) % TWO32
  {
    SameBy(0, 0, 0);
    result := Remainder(q, v, 0, 0);
  }

  /** Widen, multiply and add pairs of 16 bytes, then accumulate. */
  method Step16(sum: Lanes, q: seq<byte>, v: seq<byte>, i: nat) returns (r: Lanes)
    requires i + 16 <= |q| == |v| && |sum| == 8 && Same(LaneSum(sum), Products(q, v, 0, i))
    ensures |r| == 8 && Same(LaneSum(r), Products(q, v, 0, i + 16))
  {
    Accumulate(sum, q, v, Products(q, v, 0, i), i, 8);
    r := AddLanes(sum, Pairwise(q, v, i, 8));
    ProductsSplit(q, v, 0, i, 16);
  }

  /** AVX2: 32 bytes at a time, then 16, then one by one. */
  method DotAvx2(q: seq<byte>, v: seq<byte>) returns (result: u32)
    requires |q| == |v|
    ensures result == Dot(q, v) % TWO32
  {
    var sum := Zero(8);
    var i := 0;
    ZeroSum(8);
    SameBy(0, 0, 0);
    while i + 32 <= |q|
      invariant i <= |q| && |sum| == 8 && Same(LaneSum(sum), Products(q, v, 0, i))
    {
      sum := Step16(sum, q, v, i);
      sum := Step16(sum, q, v, i + 16);
      i := i + 32;
    }
    while i + 16 <= |q|
      invariant i <= |q| && |sum| == 8 && Same(LaneSum(sum), Products(q, v, 0, i))
    {
      sum := Step16(sum, q, v, i);
      i := i + 16;
    }
    result := Reduce8(sum);
    Reduce8Sum(sum);
    SameTrans(result, LaneSum(sum), Products(q, v, 0, i));
    result := Remainder(q, v, i, result);
  }

  /** Two pairwise accumulations: the low and high halves of 16 bytes. */
  function Block16(sum: Lanes, q: seq<byte>, v: seq<byte>, i: nat): (r: Lanes)
    requires |sum| == 4 && i + 16 <= |q| && |q| == |v|
    ensures |r| == 4
  {
    AddLanes(AddLanes(sum, Pairwise(q, v, i, 4)), Pairwise(q, v, i + 8, 4))
  }

  lemma Block16Sum(sum: Lanes, q: seq<byte>, v: seq<byte>, before: nat, i: nat)
    requires |sum| == 4 && i + 16 <= |q| && |q| == |v| && Same(LaneSum(sum), before)
    ensures Same(LaneSum(Block16(sum, q, v, i)), before + Products(q, v, i, 16))
  {
    Accumulate(sum, q, v, before, i, 4);
    Accumulate(AddLanes(sum, Pairwise(q, v, i, 4)), q, v, before + Products(q, v, i, 8), i + 8, 4);
    ProductsSplit(q, v, i, 8, 8);
  }

  /** One round of the unrolled loop. */
  lemma Blocks64(
    sum0: Lanes, sum1: Lanes, sum2: Lanes, sum3: Lanes, q: seq<byte>, v: seq<byte>,
    p0: nat, p1: nat, p2: nat, p3: nat, i: nat)
    requires |sum0| == |sum1| == |sum2| == |sum3| == 4 && i + 64 <= |q| && |q| == |v|
    requires Same(LaneSum(sum0), p0) && Same(LaneSum(sum1), p1) && Same(LaneSum(sum2), p2) && Same(LaneSum(sum3), p3)
    requires p0 + p1 + p2 + p3 == Products(q, v, 0, i)
    ensures Same(LaneSum(Block16(sum0, q, v, i)), p0 + Products(q, v, i, 16))
    ensures Same(LaneSum(Block16(sum1, q, v, i + 16)), p1 + Products(q, v, i + 16, 16))
    ensures Same(LaneSum(Block16(sum2, q, v, i + 32)), p2 + Products(q, v, i + 32, 16))
    ensures Same(LaneSum(Block16(sum3, q, v, i + 48)), p3 + Products(q, v, i + 48, 16))
    ensures p0 + Products(q, v, i, 16) + (p1 + Products(q, v, i + 16, 16)) + (p2 + Products(q, v, i + 32, 16))
            + (p3 + Products(q, v, i + 48, 16)) == Products(q, v, 0, i + 64)
  {
    Block16Sum(sum0, q, v, p0, i);
    Block16Sum(sum1, q, v, p1, i + 16);
    Block16Sum(sum2, q, v, p2, i + 32);
    Block16Sum(sum3, q, v, p3, i + 48);
    Split64(q, v, i);
  }

  method ReduceNeon(sum0: Lanes, sum1: Lanes, sum2: Lanes, sum3: Lanes, ghost p0: nat, ghost p1: nat, ghost p2: nat,
      ghost p3: nat)
    returns (r: u32)
    requires |sum0| == |sum1| == |sum2| == |sum3| == 4
    requires Same(LaneSum(sum0), p0) && Same(LaneSum(sum1), p1) && Same(LaneSum(sum2), p2) && Same(LaneSum(sum3), p3)
    ensures Same(r, p0 + p1 + p2 + p3)
  {
    var sum01 := AddLanes(sum0, sum1);
    var sum23 := AddLanes(sum2, sum3);
    var all := AddLanes(sum01, sum23);
    r := Four(all) % TWO32;
    Gather(sum0, sum1, p0, p1);
    Gather(sum2, sum3, p2, p3);
    Gather(sum01, sum23, p0 + p1, p2 + p3);
    LaneSum4(all);
    SameWrapped(LaneSum(all));
    SameTrans(r, LaneSum(all), p0 + p1 + p2 + p3);
  }

  /** The rounds of 64 bytes, on four accumulators. */
  method Rounds64(q: seq<byte>, v: seq<byte>)
    returns (sum0: Lanes, sum1: Lanes, sum2: Lanes, sum3: Lanes, i: nat,
      ghost p0: nat, ghost p1: nat, ghost p2: nat, ghost p3: nat)
    requires |q| == |v|
    ensures i <= |q| < i + 64 && |sum0| == |sum1| == |sum2| == |sum3| == 4
    ensures Same(LaneSum(sum0), p0) && Same(LaneSum(sum1), p1) && Same(LaneSum(sum2), p2) && Same(LaneSum(sum3), p3)
    ensures p0 + p1 + p2 + p3 == Products(q, v, 0, i)
  {
    sum0, sum1, sum2, sum3 := Zero(4), Zero(4), Zero(4), Zero(4);
    p0, p1, p2, p3, i := 0, 0, 0, 0, 0;
    ZeroSum(4);
    SameBy(0, 0, 0);
    while i + 64 <= |q|
      invariant i <= |q| && |sum0| == |sum1| == |sum2| == |sum3| == 4
      invariant Same(LaneSum(sum0), p0) && Same(LaneSum(sum1), p1) && Same(LaneSum(sum2), p2) && Same(LaneSum(sum3), p3)
      invariant p0 + p1 + p2 + p3 == Products(q, v, 0, i)
    {
      Blocks64(sum0, sum1, sum2, sum3, q, v, p0, p1, p2, p3, i);
      sum0, p0 := Block16(sum0, q, v, i), p0 + Products(q, v, i, 16);
      sum1, p1 := Block16(sum1, q, v, i + 16), p1 + Products(q, v, i + 16, 16);
      sum2, p2 := Block16(sum2, q, v, i + 32), p2 + Products(q, v, i + 32, 16);
      sum3, p3 := Block16(sum3, q, v, i + 48), p3 + Products(q, v, i + 48, 16);
      i := i + 64;
    }
  }

  /** NEON: four accumulators over 64 bytes at a time, then 16 on the first, then one by one. */
  method DotNeon(q: seq<byte>, v: seq<byte>) returns (result: u32)
    requires |q| == |v|
    ensures result == Dot(q, v) % TWO32
  {
    ghost var p0: nat, p1: nat, p2: nat, p3: nat;
    var sum0, sum1, sum2, sum3, i;
    sum0, sum1, sum2, sum3, i, p0, p1, p2, p3 := Rounds64(q, v);
    while i + 16 <= |q|
      invariant 0 <= i <= |q| && |sum0| == 4 && Same(LaneSum(sum0), p0)
      invariant p0 + p1 + p2 + p3 == Products(q, v, 0, i)
    {
      Block16Sum(sum0, q, v, p0, i);
      sum0, p0 := Block16(sum0, q, v, i), p0 + Products(q, v, i, 16);
      ProductsSplit(q, v, 0, i, 16);
      i := i + 16;
    }
    result := ReduceNeon(sum0, sum1, sum2, sum3, p0, p1, p2, p3);
    result := Remainder(q, v, i, result);
  }

  lemma Split64(q: seq<byte>, v: seq<byte>, i: nat)
    requires i + 64 <= |q| && |q| == |v|
    ensures Products(q, v, 0, i + 64) == Products(q, v, 0, i) + Products(q, v, i, 16) + Products(q, v, i + 16, 16)
                                          + Products(q, v, i + 32, 16) + Products(q, v, i + 48, 16)
  {
    ProductsSplit(q, v, 0, i, 16);
    ProductsSplit(q, v, 0, i + 16, 16);
    ProductsSplit(q, v, 0, i + 32, 16);
    ProductsSplit(q, v, 0, i + 48, 16);
  }

  lemma Gather(a: Lanes, b: Lanes, p: nat, r: nat)
    requires |a| == |b| && Same(LaneSum(a), p) && Same(LaneSum(b), r)
    ensures Same(LaneSum(AddLanes(a, b)), p + r)
  {
    AddLanesSum(a, b);
    SameSum(LaneSum(a), p, LaneSum(b), r);
    SameTrans(LaneSum(AddLanes(a, b)), LaneSum(a) + LaneSum(b), p + r);
  }

  // ------------------------------------------------------------------ bounds

  const MAX_DIMENSIONS := 65_535

  /** The longest vectors whose sum never wraps. */
  const MAX_EXACT := 66_051

  lemma {:induction false} ProductsOfOnes(n: nat, len: nat)
    requires n <= len
    ensures Products(seq(len, _ => 255), seq(len, _ => 255), 0, n) == 65025 * n
  {
    if n > 0 {
      ProductsOfOnes(n - 1, len);
    }
  }

  /** At a given length every sum fits in 32 bits exactly up to `MAX_EXACT`, beyond the trained maximum. */
  lemma {:induction false} FitsExactly(n: nat)
    ensures (forall q: seq<byte>, v: seq<byte> | |q| == n && |v| == n :: Dot(q, v) < TWO32) <==> n <= MAX_EXACT
    ensures MAX_DIMENSIONS <= MAX_EXACT
  {
    if n <= MAX_EXACT {
      forall q: seq<byte>, v: seq<byte> | |q| == n && |v| == n ensures Dot(q, v) < TWO32 {
        ProductsBound(q, v, 0, n);
      }
    } else {
      var q: seq<byte> := seq(n, _ => 255);
      ProductsOfOnes(n, n);
      assert Dot(q, q) >= TWO32;
    }
  }

  /** Kernels agree with the plain sum itself on every vector the quantizer can be trained for. */
  lemma TrainedExact(q: seq<byte>, v: seq<byte>)
    requires |q| == |v| <= MAX_DIMENSIONS
    ensures Dot(q, v) % TWO32 == Dot(q, v)
  {
    FitsExactly(|q|);
    Small(Dot(q, v));
  }

  lemma Small(n: nat)
    requires n < TWO32
    ensures n % TWO32 == n
  {
  }

  datatype Target = X86(avx2: bool) | Arm | Other

  /** Whatever the target, the sum is the plain one on every length the quantizer can be trained for. */
  method IntDotProduct(t: Target, q: seq<byte>, v: seq<byte>) returns (r: u32)
    requires |q| == |v|
    ensures r == Dot(q, v) % TWO32
    ensures |q| <= MAX_DIMENSIONS ==> r == Dot(q, v)
  {
    match t {
    case X86(true) => r := DotAvx2(q, v);
    case X86(false) => r := DotScalar(q, v);
    case Arm => r := DotNeon(q, v);
    case Other => r := DotScalar(q, v);
    }
    if |q| <= MAX_DIMENSIONS {
      TrainedExact(q, v);
    }
  }
}
