/** The neighbour-list section: levels, an offset table, then one length-prefixed list per node. */
module Graph {
  import opened Bytes
  import opened Records
  import opened Words

  type Neighbors = seq<seq<u32>>

  // ----------------------------------------------------------------- layout

  function ListBytes(list: seq<u32>): seq<byte> {
    LE(|list|, 4) + WordBytes(list)
  }

  /** The lists laid end to end. */
  function Lists(ns: Neighbors): seq<byte> {
    if ns == [] then [] else Lists(ns[..|ns| - 1]) + ListBytes(ns[|ns| - 1])
  }

  /** Where list `i` begins among the lists: the true position, not the stored one. */
  function Start(ns: Neighbors, i: nat): nat
    requires i <= |ns|
  {
    if i == 0 then 0 else Start(ns, i - 1) + 4 + 4 * |ns[i - 1]|
  }

  function Offsets(ns: Neighbors, n: nat): (s: seq<byte>)
    requires n <= |ns|
    ensures |s| == 4 * n
  {
    if n == 0 then [] else Offsets(ns, n - 1) + LE(Start(ns, n - 1) % TWO32, 4)
  }

  function GraphBytes(levels: seq<byte>, ns: Neighbors): seq<byte> {
    levels + Offsets(ns, |ns|) + Lists(ns)
  }

  // ----------------------------------------------------------------- writer

  method WriteGraph(levels: seq<byte>, ns: Neighbors) returns (w: seq<byte>)
    requires |levels| == |ns|
    ensures w == GraphBytes(levels, ns)
  {
    w := levels;
    var offset: u32 := 0;
    for i := 0 to |ns|
      invariant w == levels + Offsets(ns, i)
      invariant offset == Start(ns, i) % TWO32
    {
      Assoc(levels, Offsets(ns, i), LE(offset, 4));
      w := w + LE(offset, 4);
      var bytes := (4 + (|ns[i]| % TWO32) * 4 % TWO32) % TWO32;
      WrappingSum(Start(ns, i), |ns[i]|);
      offset := (offset + bytes) % TWO32;
    }
    ghost var table := w;
    assert ns[..0] == [];
    for i := 0 to |ns|
      invariant w == table + Lists(ns[..i])
    {
      assert ns[..i + 1][..i] == ns[..i];
      ghost var done := Lists(ns[..i]);
      w := w + LE(|ns[i]|, 4);
      Assoc(table, done, LE(|ns[i]|, 4));
      assert ns[i][..0] == [];
      for k := 0 to |ns[i]|
        invariant w == table + (done + (LE(|ns[i]|, 4) + WordBytes(ns[i][..k])))
      {
        assert ns[i][..k + 1][..k] == ns[i][..k];
        AppendInner(table, done, LE(|ns[i]|, 4), WordBytes(ns[i][..k]), LE(ns[i][k], 4));
        w := w + LE(ns[i][k], 4);
      }
      assert ns[i][..|ns[i]|] == ns[i];
    }
    assert ns[..|ns|] == ns;
  }

  lemma AppendInner(a: seq<byte>, b: seq<byte>, c: seq<byte>, d: seq<byte>, e: seq<byte>)
    ensures (a + (b + (c + d))) + e == a + (b + (c + (d + e)))
  {
    Assoc(a, b + (c + d), e);
    Assoc(b, c + d, e);
    Assoc(c, d, e);
  }

  /** The running `u32` offset wraps to the true position modulo 2^32. */
  lemma WrappingSum(start: nat, n: nat)
    ensures (start % TWO32 + (4 + (n % TWO32) * 4 % TWO32) % TWO32) % TWO32 == (start + 4 + 4 * n) % TWO32
  {
    var bytes := (n % TWO32) * 4;
    var wrapped := start % TWO32 + (4 + bytes % TWO32) % TWO32;
    var k := start / TWO32 + 4 * (n / TWO32) + bytes / TWO32 + (4 + bytes % TWO32) / TWO32;
    assert start + 4 + 4 * n == wrapped + k * TWO32;
    WholeWraps(wrapped, k);
  }

  lemma WholeWraps(x: nat, k: nat)
    ensures (x + k * TWO32) % TWO32 == x % TWO32
  {
  }

  function SizeForGraph(levels: seq<byte>, ns: Neighbors): nat {
    |levels| + 4 * |levels| + Start(ns, |ns|)
  }

  // ----------------------------------------------------------------- reader

  /** A mapped section of `|data|` bytes. Sizes are below 2^64, so the checked additions of the source
      fail only where the bound checks below fail too. */
  datatype Section = Section(count: nat, data: seq<byte>) {
    function Level(node: u32): Option<byte>
      requires count <= |data|
    {
      if node >= count then None else Some(data[node])
    }

    function Neighbors(node: u32): Option<seq<u32>> {
      if node >= count then None
      else
        var pos := count + 4 * node;
        if pos + 4 > |data| then None
        else
          var start := 5 * count + Word(data, pos);
          if start + 4 > |data| then None
          else
            var n := Word(data, start);
            if n == 0 then Some([])
            else if start + 4 + 4 * n > |data| then None
            else Some(WordsAt(data, start + 4, n))
    }
  }

  /** `None` is the error returned when the size of the tables overflows. */
  function FromMmap(count: nat, data: seq<byte>): Option<Section> {
    if |data| == 0 || count == 0 then Some(Section(0, []))
    else if 5 * count >= TWO64 then None
    else Some(Section(count, data))
  }
}
