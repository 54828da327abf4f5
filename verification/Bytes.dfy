/** Little-endian byte strings. */
module Bytes {

  type byte = b: int | 0 <= b < 256

  type u16 = n: int | 0 <= n < 0x1_0000

  type u32 = n: int | 0 <= n < TWO32

  type u64 = n: int | 0 <= n < TWO64

  const TWO32 := 0x1_0000_0000
  const TWO64 := 0x1_0000_0000_0000_0000

  function Pow256(w: nat): (p: nat)
    ensures p > 0
  {
    if w == 0 then 1 else 256 * Pow256(w - 1)
  }

  /** The low `w` bytes of `n`: `n` as a `w`-byte integer, truncated as a cast truncates. */
  function LE(n: nat, w: nat): (s: seq<byte>)
    ensures |s| == w
  {
    if w == 0 then [] else [n % 256] + LE(n / 256, w - 1)
  }

  function UnLE(s: seq<byte>): (n: nat)
    ensures n < Pow256(|s|)
  {
    if s == [] then 0 else s[0] + 256 * UnLE(s[1..])
  }

  /** Reading back a written integer gives it modulo the width. */
  lemma {:induction false} LERoundTrip(n: nat, w: nat)
    ensures UnLE(LE(n, w)) == n % Pow256(w)
  {
    if w > 0 {
      LERoundTrip(n / 256, w - 1);
      assert LE(n, w)[1..] == LE(n / 256, w - 1);
      ModSplit(n, Pow256(w - 1));
    }
  }

  lemma ModSplit(n: nat, p: nat)
    requires p > 0
    ensures n % (256 * p) == n % 256 + 256 * ((n / 256) % p)
  {
    var q, r := n / 256, n % 256;
    var a, b := q / p, q % p;
    assert q == a * p + b;
    assert n == 256 * (a * p + b) + r;
    assert n == a * (256 * p) + (256 * b + r) by {
      assert 256 * (a * p + b) == a * (256 * p) + 256 * b;
    }
    assert 256 * b + r < 256 * p;
    ModUnique(n, 256 * p, a, 256 * b + r);
  }

  lemma MulAtLeast(k: int, m: nat)
    requires k >= 1
    ensures k * m >= m
  {
  }

  lemma MulSub(a: int, b: int, m: int)
    ensures (a - b) * m == a * m - b * m
  {
  }

  lemma ModUnique(n: nat, m: nat, a: int, r: nat)
    requires m > 0 && n == a * m + r && r < m
    ensures n % m == r
  {
    var a', r' := n / m, n % m;
    DivMod(n, m);
    MulSub(a, a', m);
    MulSub(a', a, m);
    if a > a' {
      MulAtLeast(a - a', m);
    } else if a < a' {
      MulAtLeast(a' - a, m);
    }
  }

  lemma DivMod(n: nat, m: nat)
    requires m > 0
    ensures n == (n / m) * m + n % m && n % m < m
  {
  }

  lemma Widths()
    ensures Pow256(4) == TWO32 && Pow256(8) == TWO64
  {
    assert Pow256(4) == 256 * Pow256(3) && Pow256(3) == 256 * Pow256(2)
           && Pow256(2) == 256 * Pow256(1) && Pow256(1) == 256 * Pow256(0);
    assert Pow256(8) == 256 * Pow256(7) && Pow256(7) == 256 * Pow256(6)
           && Pow256(6) == 256 * Pow256(5) && Pow256(5) == 256 * Pow256(4);
  }

  function UnLE32(s: seq<byte>): u32
    requires |s| == 4
  {
    Widths();
    UnLE(s)
  }

  function UnLE64(s: seq<byte>): u64
    requires |s| == 8
  {
    Widths();
    UnLE(s)
  }

  function UnLE16(s: seq<byte>): u16
    requires |s| == 2
  {
    assert Pow256(2) == 256 * Pow256(1) && Pow256(1) == 256 * Pow256(0);
    UnLE(s)
  }

  lemma Exact16(n: u16)
    ensures UnLE16(LE(n, 2)) == n
  {
    LERoundTrip(n, 2);
    assert Pow256(2) == 256 * Pow256(1) && Pow256(1) == 256 * Pow256(0);
  }

  lemma Exact64(n: u64)
    ensures UnLE64(LE(n, 8)) == n
  {
    RoundTrip64(n);
  }

  function ZeroBytes(n: nat): (s: seq<byte>)
    ensures |s| == n
  {
    seq(n, _ => 0)
  }

  lemma RoundTrip32(n: nat)
    ensures UnLE32(LE(n, 4)) == n % TWO32
  {
    LERoundTrip(n, 4);
    Widths();
  }

  lemma Exact32(n: u32)
    ensures UnLE32(LE(n, 4)) == n
  {
    RoundTrip32(n);
  }

  lemma RoundTrip64(n: nat)
    ensures UnLE64(LE(n, 8)) == n % TWO64
  {
    LERoundTrip(n, 8);
    Widths();
  }

  lemma Assoc(a: seq<byte>, b: seq<byte>, c: seq<byte>)
    ensures (a + b) + c == a + (b + c)
  {
  }
}
