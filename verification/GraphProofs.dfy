/** Reading a written neighbour-list section back. */
module GraphProofs {
  import opened Bytes
  import opened Records
  import opened Graph
  import opened Words

  lemma {:induction false} OffsetsAt(ns: Neighbors, n: nat, i: nat)
    requires i < n <= |ns|
    ensures Offsets(ns, n)[4 * i..4 * i + 4] == LE(Start(ns, i) % TWO32, 4)
  {
    var front, last := Offsets(ns, n - 1), LE(Start(ns, n - 1) % TWO32, 4);
    assert Offsets(ns, n) == front + last;
    if i < n - 1 {
      OffsetsAt(ns, n - 1, i);
      assert (front + last)[4 * i..4 * i + 4] == front[4 * i..4 * i + 4];
    }
  }

  lemma {:induction false} StartPrefix(ns: Neighbors, m: nat, i: nat)
    requires i <= m <= |ns|
    ensures Start(ns[..m], i) == Start(ns, i)
  {
    if i > 0 {
      StartPrefix(ns, m, i - 1);
    }
  }

  lemma {:induction false} ListsLength(ns: Neighbors)
    ensures |Lists(ns)| == Start(ns, |ns|)
  {
    if ns != [] {
      var n := |ns| - 1;
      ListsLength(ns[..n]);
      StartPrefix(ns, n, n);
    }
  }

  /** List `j` occupies its true position. */
  lemma {:induction false} ListsAt(ns: Neighbors, j: nat)
    requires j < |ns|
    ensures Start(ns, j) + 4 + 4 * |ns[j]| <= |Lists(ns)|
    ensures Lists(ns)[Start(ns, j)..Start(ns, j) + 4 + 4 * |ns[j]|] == ListBytes(ns[j])
  {
    var n := |ns| - 1;
    var front, last := Lists(ns[..n]), ListBytes(ns[n]);
    assert Lists(ns) == front + last;
    ListsLength(ns[..n]);
    StartPrefix(ns, n, n);
    if j < n {
      ListsAt(ns[..n], j);
      StartPrefix(ns, n, j);
    }
  }

  /** `SizeForGraph` is the number of bytes written. */
  lemma {:induction false} SizeExact(levels: seq<byte>, ns: Neighbors)
    requires |levels| == |ns|
    ensures |GraphBytes(levels, ns)| == SizeForGraph(levels, ns)
  {
    ListsLength(ns);
  }

  /** The offset table's entry for node `i`. */
  lemma OffsetPlaced(levels: seq<byte>, ns: Neighbors, i: nat)
    requires |levels| == |ns| && i < |ns|
    ensures |ns| + 4 * i + 4 <= |GraphBytes(levels, ns)|
    ensures Word(GraphBytes(levels, ns), |ns| + 4 * i) == Start(ns, i) % TWO32
  {
    OffsetsAt(ns, |ns|, i);
    Within(levels, Offsets(ns, |ns|), Lists(ns), 4 * i, 4 * i + 4);
    Exact32(Start(ns, i) % TWO32);
  }

  ghost predicate HasList(d: seq<byte>, p: nat, list: seq<u32>) {
    p + 4 + 4 * |list| <= |d| && d[p..p + 4 + 4 * |list|] == ListBytes(list)
  }

  lemma ListPlaced(levels: seq<byte>, ns: Neighbors, j: nat)
    requires |levels| == |ns| && j < |ns|
    ensures HasList(GraphBytes(levels, ns), 5 * |ns| + Start(ns, j), ns[j])
  {
    var head, l := levels + Offsets(ns, |ns|), Lists(ns);
    ListsAt(ns, j);
    assert head + l + [] == GraphBytes(levels, ns);
    Within(head, l, [], Start(ns, j), Start(ns, j) + 4 + 4 * |ns[j]|);
  }

  lemma ReadNode(n: nat, d: seq<byte>, i: u32, offset: nat, list: seq<u32>)
    requires i < n && n + 4 * i + 4 <= |d| && Word(d, n + 4 * i) == offset
    requires HasList(d, 5 * n + offset, list) && |list| < TWO32
    ensures Section(n, d).Neighbors(i) == Some(list)
  {
    var p := 5 * n + offset;
    assert Word(d, p) == |list| && WordsAt(d, p + 4, |list|) == list by {
      Split(d, p, 4, LE(|list|, 4), WordBytes(list));
      Exact32(|list|);
      ReadWords(d, p + 4, list);
    }
  }

  /** Reading node `i` gives the list that really begins where `i`'s offset, wrapped to 32 bits, points. */
  lemma {:induction false} ReadsAliased(levels: seq<byte>, ns: Neighbors, i: u32, j: nat)
    requires |levels| == |ns| && i < |ns| && j < |ns|
    requires Start(ns, i) % TWO32 == Start(ns, j) && |ns[j]| < TWO32
    ensures Section(|ns|, GraphBytes(levels, ns)).Neighbors(i) == Some(ns[j])
  {
    OffsetPlaced(levels, ns, i);
    ListPlaced(levels, ns, j);
    ReadNode(|ns|, GraphBytes(levels, ns), i, Start(ns, j), ns[j]);
  }

  lemma Wrapped(x: nat)
    ensures (x % TWO32) % TWO32 == x % TWO32
    ensures x % TWO32 == x <==> x < TWO32
  {
  }

  /** The stored offset is the true position exactly for lists starting below 2^32. */
  lemma {:induction false} OffsetExact(levels: seq<byte>, ns: Neighbors, i: u32)
    requires |levels| == |ns| && i < |ns|
    ensures |ns| + 4 * i + 4 <= |GraphBytes(levels, ns)|
    ensures Word(GraphBytes(levels, ns), |ns| + 4 * i) == Start(ns, i) <==> Start(ns, i) < TWO32
  {
    OffsetPlaced(levels, ns, i);
    Wrapped(Start(ns, i));
  }

  lemma {:induction false} StartGrows(ns: Neighbors, i: nat, n: nat)
    requires i <= n <= |ns|
    ensures Start(ns, i) + 4 * (n - i) <= Start(ns, n)
    ensures i < n ==> Start(ns, i) + 4 + 4 * |ns[i]| <= Start(ns, n)
    decreases n
  {
    if i < n {
      StartGrows(ns, i, n - 1);
    }
  }

  /** Round trip: with less than 2^32 bytes of lists, the mapped section answers every node as written. */
  lemma {:induction false} GraphRoundTrip(levels: seq<byte>, ns: Neighbors, node: u32)
    requires |levels| == |ns| > 0 && Start(ns, |ns|) < TWO32
    ensures var m := FromMmap(|ns|, GraphBytes(levels, ns));
            && m == Some(Section(|ns|, GraphBytes(levels, ns)))
            && |ns| <= |m.value.data|
            && m.value.Level(node) == (if node < |ns| then Some(levels[node]) else None)
            && m.value.Neighbors(node) == (if node < |ns| then Some(ns[node]) else None)
  {
    StartGrows(ns, 0, |ns|);
    if node < |ns| {
      StartGrows(ns, node, |ns|);
      Wrapped(Start(ns, node));
      ReadsAliased(levels, ns, node, node);
    }
  }

  lemma {:induction false} StartWords(ns: Neighbors, i: nat)
    requires i <= |ns|
    ensures Start(ns, i) % 4 == 0
  {
    if i > 0 { StartWords(ns, i - 1); }
  }

  /** The neighbours handed out are a slice of 32-bit words in the mapping itself. In a section at a
      page boundary the words of every list are aligned if and only if the number of nodes is a
      multiple of four, and otherwise those of none are. */
  lemma {:induction false} ListAlignment(base: nat, ns: Neighbors, i: nat)
    requires base % 4 == 0 && i < |ns|
    ensures (base + 5 * |ns| + Start(ns, i) % TWO32 + 4) % 4 == 0 <==> |ns| % 4 == 0
  {
    StartWords(ns, i);
    WholeWords(Start(ns, i));
    MultiplesOfFour(base / 4 + |ns| + Start(ns, i) % TWO32 / 4 + 1, |ns|);
  }

  lemma WholeWords(start: nat)
    requires start % 4 == 0
    ensures start % TWO32 % 4 == 0
  {
  }

  lemma MultiplesOfFour(k: nat, n: nat)
    ensures (4 * k + n) % 4 == n % 4
  {
  }

  /** Beyond that the lists are lost: after one list of 2^32 bytes the next node reads that list again. */
  lemma {:induction false} WrapMisreads()
    ensures var ns := [seq(0x3FFF_FFFF, _ => 0), [7]];
            Section(2, GraphBytes([0, 0], ns)).Neighbors(1) == Some(ns[0]) != Some(ns[1])
  {
    var ns: Neighbors := [seq(0x3FFF_FFFF, _ => 0), [7]];
    assert Start(ns, 0) == 0 && Start(ns, 1) == TWO32;
    ReadsAliased([0, 0], ns, 1, 0);
    assert |ns[0]| != |ns[1]|;
  }
}
