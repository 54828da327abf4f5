/** Runs of little-endian 32-bit words. */
module Words {
  import opened Bytes

  function WordBytes(list: seq<u32>): (s: seq<byte>)
    ensures |s| == 4 * |list|
  {
    if list == [] then [] else WordBytes(list[..|list| - 1]) + LE(list[|list| - 1], 4)
  }

  function Word(d: seq<byte>, p: nat): u32
    requires p + 4 <= |d|
  {
    UnLE32(d[p..p + 4])
  }

  function WordsAt(d: seq<byte>, p: nat, n: nat): seq<u32>
    requires p + 4 * n <= |d|
  {
    if n == 0 then [] else WordsAt(d, p, n - 1) + [Word(d, p + 4 * (n - 1))]
  }

  lemma Within(a: seq<byte>, b: seq<byte>, c: seq<byte>, s: nat, e: nat)
    requires s <= e <= |b|
    ensures (a + b + c)[|a| + s..|a| + e] == b[s..e]
  {
  }

  lemma Split(d: seq<byte>, p: nat, m: nat, a: seq<byte>, b: seq<byte>)
    requires m == |a| && p + m + |b| <= |d| && d[p..p + m + |b|] == a + b
    ensures d[p..p + m] == a && d[p + m..p + m + |b|] == b
  {
    var s := d[p..p + m + |b|];
    assert d[p..p + m] == s[..m];
    assert d[p + m..p + m + |b|] == s[m..];
  }

  lemma ReadLast(d: seq<byte>, p: nat, front: seq<byte>, x: u32)
    requires p + |front| + 4 <= |d| && d[p..p + |front| + 4] == front + LE(x, 4)
    ensures d[p..p + |front|] == front && Word(d, p + |front|) == x
  {
    Split(d, p, |front|, front, LE(x, 4));
    Exact32(x);
  }

  lemma {:induction false} ReadWords(d: seq<byte>, p: nat, list: seq<u32>)
    requires p + 4 * |list| <= |d| && d[p..p + 4 * |list|] == WordBytes(list)
    ensures WordsAt(d, p, |list|) == list
  {
    if list != [] {
      var n, x := |list| - 1, list[|list| - 1];
      var front := WordBytes(list[..n]);
      assert |front| + 4 == 4 * |list|;
      ReadLast(d, p, front, x);
      ReadWords(d, p, list[..n]);
      assert list == list[..n] + [x];
    }
  }
}
