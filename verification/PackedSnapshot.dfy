/** The packed checkpoint: live vectors written one after another into the container itself. */
module PackedSnapshot {
  import opened Bytes
  import opened Records
  import opened Words
  import opened Pages
  import opened Headers
  import opened Container
  import opened ContainerProofs
  import opened OmenManifest

  /** A vector is the bit patterns of its components. */
  type Vector = seq<u32>

  const BLOCK := 2 * HEADER_SIZE

  predicate Stored(vectors: seq<Option<Vector>>, deleted: set<u32>, k: nat)
    requires k < |vectors|
  {
    vectors[k].Some? && k !in deleted
  }

  /** Live slots below `k`. */
  function LiveBefore(vectors: seq<Option<Vector>>, deleted: set<u32>, k: nat): nat
    requires k <= |vectors|
  {
    if k == 0 then 0 else LiveBefore(vectors, deleted, k - 1) + (if Stored(vectors, deleted, k - 1) then 1 else 0)
  }

  /** Bytes of the live vectors below `k`. */
  function BytesBefore(vectors: seq<Option<Vector>>, deleted: set<u32>, dim: nat, k: nat): nat
    requires k <= |vectors|
  {
    4 * dim * LiveBefore(vectors, deleted, k)
  }

  function Block(vectors: seq<Option<Vector>>, deleted: set<u32>, k: nat): seq<byte>
    requires k <= |vectors|
  {
    if k == 0 then []
    else Block(vectors, deleted, k - 1) +
         (if Stored(vectors, deleted, k - 1) then WordBytes(vectors[k - 1].value) else [])
  }

  ghost predicate Uniform(vectors: seq<Option<Vector>>, deleted: set<u32>, dim: nat) {
    forall k: nat | k < |vectors| && Stored(vectors, deleted, k) :: |vectors[k].value| == dim
  }

  lemma {:induction false} BlockLength(vectors: seq<Option<Vector>>, deleted: set<u32>, dim: nat, k: nat)
    requires k <= |vectors| && Uniform(vectors, deleted, dim)
    ensures |Block(vectors, deleted, k)| == BytesBefore(vectors, deleted, dim, k)
    ensures LiveBefore(vectors, deleted, k) <= k
  {
    if k > 0 {
      BlockLength(vectors, deleted, dim, k - 1);
      Scaled(4 * dim, LiveBefore(vectors, deleted, k - 1), k);
      if Stored(vectors, deleted, k - 1) {
        assert |WordBytes(vectors[k - 1].value)| == 4 * dim;
      }
    }
  }

  /** A live vector's bytes stand after those of the live slots before it. */
  lemma {:induction false} BlockAt(vectors: seq<Option<Vector>>, deleted: set<u32>, dim: nat, n: nat, k: nat)
    requires k < n <= |vectors| && Uniform(vectors, deleted, dim) && Stored(vectors, deleted, k)
    ensures var at := BytesBefore(vectors, deleted, dim, k);
            && at + 4 * dim <= |Block(vectors, deleted, n)|
            && Block(vectors, deleted, n)[at..at + 4 * dim] == WordBytes(vectors[k].value)
  {
    var front := Block(vectors, deleted, n - 1);
    if k == n - 1 {
      BlockLength(vectors, deleted, dim, k);
      LastSlice(front, WordBytes(vectors[k].value), 4 * dim);
    } else {
      BlockAt(vectors, deleted, dim, n - 1, k);
      var more := if Stored(vectors, deleted, n - 1) then WordBytes(vectors[n - 1].value) else [];
      assert Block(vectors, deleted, n) == front + more;
      FrontSlice(front, more, BytesBefore(vectors, deleted, dim, k), 4 * dim);
    }
  }

  lemma LastSlice(a: seq<byte>, b: seq<byte>, n: nat)
    requires |b| == n
    ensures (a + b)[|a|..|a| + n] == b
  {
  }

  lemma FrontSlice(a: seq<byte>, b: seq<byte>, at: nat, n: nat)
    requires at + n <= |a|
    ensures (a + b)[at..at + n] == a[at..at + n]
  {
  }

  /** Two live slots occupy disjoint ranges. */
  lemma {:induction false} Disjoint(vectors: seq<Option<Vector>>, deleted: set<u32>, i: nat, j: nat)
    requires i < j < |vectors| && Stored(vectors, deleted, i)
    ensures LiveBefore(vectors, deleted, i) + 1 <= LiveBefore(vectors, deleted, j)
    decreases j
  {
    if i < j - 1 {
      Disjoint(vectors, deleted, i, j - 1);
    }
  }

  /** Where slot `k` is recorded: a vectorless or deleted slot gets an empty location at 0. */
  ghost predicate LocatedAt(n: NodeLocation, vectors: seq<Option<Vector>>, deleted: set<u32>, dim: nat, k: nat)
    requires k < |vectors|
  {
    && n.kind == Vectors
    && (if Stored(vectors, deleted, k)
        then n.offset == BLOCK + BytesBefore(vectors, deleted, dim, k) && n.length == 4 * dim
        else n.offset == 0 && n.length == 0)
  }

  ghost predicate Located(nodes: seq<NodeLocation>, vectors: seq<Option<Vector>>, deleted: set<u32>, dim: nat,
      count: nat)
    requires count <= |vectors|
  {
    |nodes| >= count && forall k: nat | k < count :: LocatedAt(nodes[k], vectors, deleted, dim, k)
  }

  lemma LocatedNext(nodes: seq<NodeLocation>, n: NodeLocation, vectors: seq<Option<Vector>>, deleted: set<u32>,
      dim: nat, k: nat)
    requires k < |vectors| && |nodes| == k && Located(nodes, vectors, deleted, dim, k)
    requires LocatedAt(n, vectors, deleted, dim, k)
    ensures Located(nodes + [n], vectors, deleted, dim, k + 1)
  {
  }

  lemma AppendAt(file: seq<byte>, pos: nat, a: seq<byte>, b: seq<byte>)
    requires |file| <= pos
    ensures WriteAt(WriteAt(file, pos, a), pos + |a|, b) == WriteAt(file, pos, a + b)
  {
    Appends(file, pos, a);
    Appends(file, pos, a + b);
    if a == [] {
      assert a + b == b;
    } else if b == [] {
      assert a + b == a;
    } else {
      var w := WriteAt(file, pos, a);
      Appends(w, pos + |a|, b);
      assert w + ZeroBytes(0) + b == w + b;
    }
  }

  /** Packing one more live vector. */
  lemma PackNext(header: seq<byte>, vectors: seq<Option<Vector>>, deleted: set<u32>, dim: nat, k: nat)
    requires k < |vectors| && |header| == HEADER_SIZE
    requires |Block(vectors, deleted, k)| == BytesBefore(vectors, deleted, dim, k)
    requires Stored(vectors, deleted, k) && |vectors[k].value| == dim
    ensures WriteAt(WriteAt(header, BLOCK, Block(vectors, deleted, k)), BLOCK + |Block(vectors, deleted, k)|,
                    WordBytes(vectors[k].value))
            == WriteAt(header, BLOCK, Block(vectors, deleted, k + 1))
    ensures |Block(vectors, deleted, k + 1)| == |Block(vectors, deleted, k)| + 4 * dim
    ensures |Block(vectors, deleted, k + 1)| == BytesBefore(vectors, deleted, dim, k + 1)
  {
    AppendAt(header, BLOCK, Block(vectors, deleted, k), WordBytes(vectors[k].value));
    Scaled(4 * dim, LiveBefore(vectors, deleted, k), LiveBefore(vectors, deleted, k));
  }

  /** The bytes of the live slots stay below those of all slots. */
  lemma BlockFits(vectors: seq<Option<Vector>>, deleted: set<u32>, dim: nat, k: nat)
    requires k <= |vectors| && LiveBefore(vectors, deleted, k) <= k
    ensures BytesBefore(vectors, deleted, dim, k) <= 4 * dim * |vectors|
  {
    Scaled(4 * dim, LiveBefore(vectors, deleted, k), |vectors|);
  }

  /** `None` is the error for a vector of the wrong length. */
  method PackVectors(vectors: seq<Option<Vector>>, deleted: set<u32>, dim: nat, header: seq<byte>)
    returns (r: Option<seq<NodeLocation>>, file: seq<byte>, offset: nat)
    requires |header| == HEADER_SIZE && 4 * dim < TWO32 && |vectors| < TWO32 && BLOCK + 4 * dim * |vectors| < BIG
    ensures r.Some? <==> Uniform(vectors, deleted, dim)
    ensures r.Some? ==>
              && Located(r.value, vectors, deleted, dim, |vectors|) && |r.value| == |vectors|
              && file == WriteAt(header, BLOCK, Block(vectors, deleted, |vectors|))
              && offset == BLOCK + |Block(vectors, deleted, |vectors|)| <= BLOCK + 4 * dim * |vectors|
  {
    var nodes: seq<NodeLocation> := [];
    file, offset := header, BLOCK;
    for k := 0 to |vectors|
      invariant |nodes| == k && Located(nodes, vectors, deleted, dim, k)
      invariant file == WriteAt(header, BLOCK, Block(vectors, deleted, k))
      invariant offset == BLOCK + |Block(vectors, deleted, k)|
      invariant |Block(vectors, deleted, k)| == BytesBefore(vectors, deleted, dim, k)
      invariant LiveBefore(vectors, deleted, k) <= k
      invariant forall i: nat | i < k && Stored(vectors, deleted, i) :: |vectors[i].value| == dim
    {
      BlockFits(vectors, deleted, dim, k);
      if k in deleted || vectors[k].None? {
        LocatedNext(nodes, NodeLocation(0, 0, Vectors), vectors, deleted, dim, k);
        nodes := nodes + [NodeLocation(0, 0, Vectors)];
      } else {
        var v := vectors[k].value;
        assert Stored(vectors, deleted, k);
        if |v| != dim {
          return None, file, offset;
        }
        PackNext(header, vectors, deleted, dim, k);
        file := WriteAt(file, offset, WordBytes(v));
        LocatedNext(nodes, NodeLocation(offset, 4 * dim, Vectors), vectors, deleted, dim, k);
        nodes := nodes + [NodeLocation(offset, 4 * dim, Vectors)];
        offset := offset + 4 * dim;
      }
    }
    BlockFits(vectors, deleted, dim, |vectors|);
    r := Some(nodes);
  }

  lemma Scaled(size: nat, a: nat, b: nat)
    requires a <= b
    ensures size * a <= size * b
    ensures size * (a + 1) == size * a + size
  {
  }

  // ----------------------------------------------------------------- loading

  /** What the loader makes of a vector location in the main file. */
  function LoadSlot(d: seq<byte>, n: NodeLocation, gone: bool, dim: nat): Option<Vector> {
    if (n.length == 0 && gone) || n.offset + n.length > |d| then None
    else Some(WordsAt(d, n.offset, if n.length / 4 < dim then n.length / 4 else dim))
  }

  /** The list of loaded vectors ends at the last vector location. */
  method LoadMainFile(d: seq<byte>, nodes: seq<NodeLocation>, deleted: set<u32>,
      dim: nat) returns (v: seq<Option<Vector>>)
    ensures |v| <= |nodes| && (|v| > 0 ==> nodes[|v| - 1].kind == Vectors)
    ensures forall i: nat | |v| <= i < |nodes| :: nodes[i].kind != Vectors
    ensures forall i: nat | i < |v| ::
              v[i] == if nodes[i].kind == Vectors then LoadSlot(d, nodes[i], i in deleted, dim) else None
  {
    v := [];
    for idx := 0 to |nodes|
      invariant |v| <= idx && (|v| > 0 ==> nodes[|v| - 1].kind == Vectors)
      invariant forall i: nat | |v| <= i < idx :: nodes[i].kind != Vectors
      invariant forall i: nat | i < |v| ::
                  v[i] == if nodes[i].kind == Vectors then LoadSlot(d, nodes[i], i in deleted, dim) else None
    {
      var n := nodes[idx];
      if n.kind == Vectors {
        v := v + seq(idx + 1 - |v|, _ => None);
        if !(n.length == 0 && idx in deleted) && n.offset + n.length <= |d| {
          v := v[idx := Some(WordsAt(d, n.offset, if n.length / 4 < dim then n.length / 4 else dim))];
        }
      }
    }
  }

  /** What a slot should load as, and what it does load as. */
  function Wanted(vectors: seq<Option<Vector>>, deleted: set<u32>, k: nat): Option<Vector>
    requires k < |vectors|
  {
    if k in deleted then None else vectors[k]
  }

  function LoadsAs(vectors: seq<Option<Vector>>, deleted: set<u32>, k: nat): Option<Vector>
    requires k < |vectors|
  {
    if k in deleted then None else if vectors[k].Some? then vectors[k] else Some([])
  }

  lemma SliceThrough(d: seq<byte>, w: seq<byte>, pos: nat, block: seq<byte>, at: nat, len: nat)
    requires w <= d && pos + |block| <= |w| && w[pos..pos + |block|] == block && at + len <= |block|
    ensures d[pos + at..pos + at + len] == block[at..at + len]
  {
    assert d[..|w|] == w;
    SliceSlice(d, 0, |w|, pos + at, len);
    SliceSlice(w, pos, pos + |block|, at, len);
  }

  lemma SliceSlice(s: seq<byte>, from: nat, to: nat, at: nat, len: nat)
    requires from <= to <= |s| && at + len <= to - from
    ensures s[from..to][at..at + len] == s[from + at..from + at + len]
  {
    var a, b := s[from..to][at..at + len], s[from + at..from + at + len];
    assert |a| == |b| == len;
    assert forall k :: 0 <= k < len ==> a[k] == b[k];
  }

  lemma LoadedFrom(d: seq<byte>, n: NodeLocation, gone: bool, v: Vector)
    requires n.length == 4 * |v| && !gone && n.offset + n.length <= |d|
    requires d[n.offset..n.offset + 4 * |v|] == WordBytes(v)
    ensures LoadSlot(d, n, gone, |v|) == Some(v)
  {
    ReadWords(d, n.offset, v);
    var words := n.length / 4;
    assert words == |v|;
    assert LoadSlot(d, n, gone, |v|) == Some(WordsAt(d, n.offset, words));
  }

  /** Every file that begins with a packed block loads each vector from where it was placed. */
  lemma {:induction false} SlotRoundTrip(d: seq<byte>, header: seq<byte>, n: NodeLocation,
      vectors: seq<Option<Vector>>, deleted: set<u32>, dim: nat, k: nat)
    requires k < |vectors| && LocatedAt(n, vectors, deleted, dim, k) && Uniform(vectors, deleted, dim)
    requires |header| == HEADER_SIZE && WriteAt(header, BLOCK, Block(vectors, deleted, |vectors|)) <= d && BLOCK <= |d|
    ensures LoadSlot(d, n, k in deleted, dim) == LoadsAs(vectors, deleted, k)
  {
    if Stored(vectors, deleted, k) {
      var v, block := vectors[k].value, Block(vectors, deleted, |vectors|);
      BlockAt(vectors, deleted, dim, |vectors|, k);
      var at := BytesBefore(vectors, deleted, dim, k);
      assert |v| == dim;
      if dim == 0 {
        Scaled(0, 0, LiveBefore(vectors, deleted, k));
        assert at == 0 && d[BLOCK..BLOCK] == [] == WordBytes(v);
      } else {
        Appends(header, BLOCK, block);
        SliceThrough(d, WriteAt(header, BLOCK, block), BLOCK, block, at, 4 * dim);
      }
      LoadedFrom(d, n, k in deleted, v);
    }
  }

  /** A packed file gives every slot back exactly when no live slot lacks a vector: such a slot,
      recorded as an empty location, comes back as an empty vector instead of none. */
  lemma {:induction false} PackedExact(d: seq<byte>, header: seq<byte>, nodes: seq<NodeLocation>,
      vectors: seq<Option<Vector>>, deleted: set<u32>, dim: nat)
    requires Located(nodes, vectors, deleted, dim, |vectors|) && Uniform(vectors, deleted, dim)
    requires |header| == HEADER_SIZE && WriteAt(header, BLOCK, Block(vectors, deleted, |vectors|)) <= d && BLOCK <= |d|
    ensures (forall k: nat | k < |vectors| :: LoadSlot(d, nodes[k], k in deleted, dim) == Wanted(vectors, deleted, k))
            <==> (forall k: nat | k < |vectors| && k !in deleted :: vectors[k].Some?)
  {
    forall k: nat | k < |vectors|
      ensures LoadSlot(d, nodes[k], k in deleted, dim) == Wanted(vectors, deleted, k)
              <==> (k in deleted || vectors[k].Some?)
    {
      SlotRoundTrip(d, header, nodes[k], vectors, deleted, dim, k);
    }
  }

  /** Live vectors occupy disjoint, in-order ranges of the block. */
  lemma {:induction false} RangesDisjoint(nodes: seq<NodeLocation>, vectors: seq<Option<Vector>>, deleted: set<u32>,
      dim: nat, i: nat, j: nat)
    requires Located(nodes, vectors, deleted, dim, |vectors|) && i < j < |vectors|
    requires Stored(vectors, deleted, i) && Stored(vectors, deleted, j)
    ensures nodes[i].offset + nodes[i].length <= nodes[j].offset
  {
    Disjoint(vectors, deleted, i, j);
    Scaled(4 * dim, LiveBefore(vectors, deleted, i) + 1, LiveBefore(vectors, deleted, j));
    Scaled(4 * dim, LiveBefore(vectors, deleted, i), LiveBefore(vectors, deleted, i));
    assert LocatedAt(nodes[i], vectors, deleted, dim, i) && LocatedAt(nodes[j], vectors, deleted, dim, j);
  }

  // ------------------------------------------------------------ the checkpoint

  datatype Outcome =
    | Written(file: seq<byte>, manifest: Manifest)
    | VectorSizeOverflow
    | TooManyVectors
    | WrongLength
    | SegmentTooBig
    | OutOfMemory(manifest: Manifest)

  /** Sealing what was laid after a packed block keeps every slot loadable. */
  lemma SealedLoads(
    c: Codec, h: Header, from: Laid, segs: seq<Segment>, m: Manifest, vectors: seq<Option<Vector>>, deleted: set<u32>)
    requires |c.encode(m)| < BIG && Uniform(vectors, deleted, h.dimensions)
    requires BLOCK <= from.offset && |from.file| <= from.offset && Room(from.offset, segs)
    requires from.file == WriteAt(HeaderBytes(h), BLOCK, Block(vectors, deleted, |vectors|))
    requires |from.nodes| == |vectors| && Located(from.nodes, vectors, deleted, h.dimensions, |vectors|)
    requires Lay(from, segs).offset < 2 * BIG && m.nodes == Lay(from, segs).nodes
    ensures var d := Sealed(c, Lay(from, segs).file, Lay(from, segs).offset, m);
            && Open(c, d) == OpenedAs(c, h, c.encode(m))
            && (c.Lawful() && |c.encode(m)| < TWO32 ==> Open(c, d) == Opened(Effective(h, m), m))
            && Located(m.nodes, vectors, deleted, h.dimensions, |vectors|)
            && forall k: nat | k < |vectors| ::
                 LoadSlot(d, m.nodes[k], k in deleted, h.dimensions) == LoadsAs(vectors, deleted, k)
  {
    var l := Lay(from, segs);
    Appends(HeaderBytes(h), BLOCK, Block(vectors, deleted, |vectors|));
    LayPlaces(from, segs);
    OpenSealed(c, l, h, m);
    var d := Sealed(c, l.file, l.offset, m);
    assert from.file <= d;
    forall k: nat | k < |vectors|
      ensures LocatedAt(m.nodes[k], vectors, deleted, h.dimensions, k)
      ensures LoadSlot(d, m.nodes[k], k in deleted, h.dimensions) == LoadsAs(vectors, deleted, k)
    {
      assert m.nodes[..|vectors|][k] == from.nodes[k];
      SlotRoundTrip(d, HeaderBytes(h), m.nodes[k], vectors, deleted, h.dimensions, k);
    }
  }

  /** The size checks made before anything is written. */
  predicate SizesFit(dim: nat, count: nat) {
    4 * dim < TWO32 && count < TWO32
  }

  /** A written packed checkpoint opens with its manifest, if that is below 4 GiB, and every slot
      loads from it. The file is taken to fit into 2^62 bytes. */
  method CheckpointFromSnapshot(
    c: Codec, h: Header, vectors: seq<Option<Vector>>, deleted: set<u32>,
    hnsw: Option<seq<byte>>, multivec: Option<seq<byte>>, m: Manifest)
    returns (r: Outcome)
    requires SizesFit(h.dimensions, |vectors|) ==> BLOCK + 4 * h.dimensions * |vectors| < BIG
    ensures r.VectorSizeOverflow? <==> 4 * h.dimensions >= TWO32
    ensures r.TooManyVectors? <==> 4 * h.dimensions < TWO32 && |vectors| >= TWO32
    ensures r.WrongLength? <==> SizesFit(h.dimensions, |vectors|) && !Uniform(vectors, deleted, h.dimensions)
    ensures r.SegmentTooBig? <==>
              && SizesFit(h.dimensions, |vectors|) && Uniform(vectors, deleted, h.dimensions)
              && !Small(SegmentsOf(hnsw, multivec))
    ensures r.OutOfMemory? || r.Written? ==>
              && r.manifest == m.(nodes := r.manifest.nodes, deleted := deleted)
              && Located(r.manifest.nodes, vectors, deleted, h.dimensions, |vectors|)
              && (r.OutOfMemory? <==> |c.encode(r.manifest)| >= BIG)
    ensures r.Written? ==> Open(c, r.file) == OpenedAs(c, h, c.encode(r.manifest))
    ensures r.Written? && c.Lawful() && |c.encode(r.manifest)| < TWO32 ==>
              Open(c, r.file) == Opened(Effective(h, r.manifest), r.manifest)
    ensures r.Written? ==>
              forall k: nat | k < |vectors| ::
                LoadSlot(r.file, r.manifest.nodes[k], k in deleted, h.dimensions) == LoadsAs(vectors, deleted, k)
  {
    var dim := h.dimensions;
    if 4 * dim >= TWO32 { return VectorSizeOverflow; }
    if |vectors| >= TWO32 { return TooManyVectors; }
    var header := HeaderToBytes(h);
    var packed, file, offset := PackVectors(vectors, deleted, dim, header[..]);
    if packed.None? { return WrongLength; }
    Appends(header[..], BLOCK, Block(vectors, deleted, |vectors|));
    var w := new SegmentWriter(file, offset);
    var nodes := WriteSegments(w, hnsw, multivec, packed.value);
    if nodes.None? { return Outcome.SegmentTooBig; }
    var manifest := m.(nodes := nodes.value, deleted := deleted);
    LaidNodes(Laid(file, offset, packed.value), SegmentsOf(hnsw, multivec), vectors, deleted, dim);
    if |c.encode(manifest)| >= BIG { return Outcome.OutOfMemory(manifest); }
    SealedLoads(c, h, Laid(file, offset, packed.value), SegmentsOf(hnsw, multivec), manifest, vectors, deleted);
    w.Seal(c, manifest);
    r := Outcome.Written(w.file, manifest);
  }

  /** Laying segments leaves the locations of the packed vectors alone. */
  lemma LaidNodes(from: Laid, segs: seq<Segment>, vectors: seq<Option<Vector>>, deleted: set<u32>, dim: nat)
    requires |from.file| <= from.offset && Room(from.offset, segs)
    requires |from.nodes| == |vectors| && Located(from.nodes, vectors, deleted, dim, |vectors|)
    ensures Located(Lay(from, segs).nodes, vectors, deleted, dim, |vectors|)
  {
    LayPlaces(from, segs);
    forall k: nat | k < |vectors| ensures LocatedAt(Lay(from, segs).nodes[k], vectors, deleted, dim, k) {
      assert Lay(from, segs).nodes[..|vectors|][k] == from.nodes[k];
    }
  }
}
