/** Writing a container with the segment writer. */
module OmenManifest {
  import opened Bytes
  import opened Records
  import opened Pages
  import opened Headers
  import opened Container
  import opened ContainerProofs
  import Recovery

  /** Lengths that a 64-bit machine can hold. */
  const BIG := 0x4000_0000_0000_0000

  function Optional(data: Option<seq<byte>>, kind: Kind): seq<Segment> {
    if data.Some? then [Segment(data.value, kind)] else []
  }

  function SegmentsOf(hnsw: Option<seq<byte>>, multivec: Option<seq<byte>>): seq<Segment> {
    Optional(hnsw, IndexMetadata) + Optional(multivec, MultiVectors)
  }

  ghost predicate Small(segs: seq<Segment>) {
    forall s <- segs :: |s.data| < TWO32
  }

  lemma {:induction false} LayConcat(l: Laid, a: seq<Segment>, b: seq<Segment>)
    requires Room(l.offset, a) && Room(Lay(l, a).offset, b) && Room(l.offset, a + b)
    ensures Lay(l, a + b) == Lay(Lay(l, a), b)
    decreases |a|
  {
    if a == [] {
      assert a + b == b;
    } else {
      AlignBelow(l.offset);
      RoomShrinks(l.offset + PAGE_SIZE + |a[0].data|, LayOne(l, a[0]).offset, a[1..]);
      RoomShrinks(l.offset + PAGE_SIZE + |a[0].data|, LayOne(l, a[0]).offset, (a + b)[1..]);
      assert (a + b)[1..] == a[1..] + b;
      LayConcat(LayOne(l, a[0]), a[1..], b);
    }
  }

  lemma RoomFor(offset: nat, segs: seq<Segment>)
    requires Small(segs) && offset + (|segs| + 1) * (TWO32 + PAGE_SIZE) < TWO64
    ensures Room(offset, segs)
    decreases |segs|
  {
    if segs != [] {
      assert segs[0] in segs;
      RoomFor(offset + PAGE_SIZE + |segs[0].data|, segs[1..]);
    }
  }

  method WriteOptional(w: SegmentWriter, data: Option<seq<byte>>, kind: Kind, nodes: seq<NodeLocation>)
    returns (r: Option<seq<NodeLocation>>)
    requires w.Valid() && w.offset < 2 * BIG
    modifies w
    ensures r.Some? <==> Small(Optional(data, kind))
    ensures r.Some? ==>
              && w.Valid() && w.offset <= old(w.offset) + TWO32 + PAGE_SIZE && Room(old(w.offset), Optional(data, kind))
              && Laid(w.file, w.offset, r.value) == Lay(Laid(old(w.file), old(w.offset), nodes), Optional(data, kind))
  {
    if data.None? { return Some(nodes); }
    ghost var segs := Optional(data, kind);
    ghost var l := Laid(w.file, w.offset, nodes);
    AlignBelow(w.offset);
    var n := w.WriteAligned(data.value, kind);
    if n.None? {
      assert segs[0].data == data.value;
      return None;
    }
    assert Laid(w.file, w.offset, nodes + [n.value]) == LayOne(l, segs[0]);
    assert segs[1..] == [];
    r := Some(nodes + [n.value]);
  }

  /** Two optional segments after whatever is already in the file; `None` is a segment over 4 GiB. */
  method WriteSegments(w: SegmentWriter, hnsw: Option<seq<byte>>, multivec: Option<seq<byte>>, nodes: seq<NodeLocation>)
    returns (r: Option<seq<NodeLocation>>)
    requires w.Valid() && w.offset < BIG
    modifies w
    ensures r.Some? <==> Small(SegmentsOf(hnsw, multivec))
    ensures r.Some? ==>
              && w.Valid() && w.offset < 2 * BIG && Room(old(w.offset), SegmentsOf(hnsw, multivec))
              && Laid(w.file, w.offset, r.value) ==
                 Lay(Laid(old(w.file), old(w.offset), nodes), SegmentsOf(hnsw, multivec))
  {
    ghost var a, b := Optional(hnsw, IndexMetadata), Optional(multivec, MultiVectors);
    ghost var l := Laid(w.file, w.offset, nodes);
    assert Small(a + b) <==> Small(a) && Small(b) by {
      if Small(a + b) {
        forall s <- a ensures |s.data| < TWO32 { assert s in a + b; }
        forall s <- b ensures |s.data| < TWO32 { assert s in a + b; }
      }
    }
    var first := WriteOptional(w, hnsw, IndexMetadata, nodes);
    if first.None? { return None; }
    r := WriteOptional(w, multivec, MultiVectors, first.value);
    if r.Some? {
      RoomFor(l.offset, a + b);
      LayConcat(l, a, b);
    }
  }

  lemma FirstPage()
    ensures AlignToPage(HEADER_SIZE) == 2 * HEADER_SIZE
  {
    AlignBelow(HEADER_SIZE);
  }

  /** A written file and its manifest; or the error for a segment over 4 GiB; or an encoded manifest
      that no address space holds. */
  datatype Outcome = Written(file: seq<byte>, manifest: Manifest) | SegmentTooBig | OutOfMemory(manifest: Manifest)

  /** The `.omen` file of a manifest checkpoint: if its manifest is below 4 GiB, it opens with the
      manifest written, the header it was written with and the live count, and the cutoff for replay;
      and every segment is found again. */
  method WriteOmenManifest(
    c: Codec, h: Header, hnsw: Option<seq<byte>>, multivec: Option<seq<byte>>, m: Manifest, t: Settings)
    returns (r: Outcome)
    requires OnlyMuvera(t.muvera)
    ensures r.SegmentTooBig? <==> !Small(SegmentsOf(hnsw, multivec))
    ensures !r.SegmentTooBig? ==>
              && Room(Start(h).offset, SegmentsOf(hnsw, multivec))
              && r.manifest == m.(nodes := Lay(Start(h), SegmentsOf(hnsw, multivec)).nodes, config := t.Configured(h))
              && (r.OutOfMemory? <==> |c.encode(r.manifest)| >= BIG)
              && ReplayCutoff(r.manifest.config) == Some(Recovery.Cutoff(t.epoch, t.maxTs))
              && (Get(r.manifest.config, VecFile, 0) == 1 <==> t.vecFile)
    ensures r.Written? ==> Open(c, r.file) == OpenedAs(c, h, c.encode(r.manifest))
    ensures r.Written? && c.Lawful() && |c.encode(r.manifest)| < TWO32 ==>
              Open(c, r.file) == Opened(Effective(h, r.manifest), r.manifest)
    ensures r.Written? && (m.schema.Some? ==> m.schema.value == Schema(h.dimensions, h.metric)) ==>
              Effective(h, r.manifest) == h.(count := t.live)
    ensures r.Written? ==>
              var at := ManifestStart(h, hnsw, multivec);
              && at % PAGE_SIZE == 0 && at <= |r.file|
              && SegmentsFound(r.file, r.manifest.nodes, SegmentsOf(hnsw, multivec), at)
  {
    FirstPage();
    var header := HeaderToBytes(h);
    var w := new SegmentWriter(header[..], AlignToPage(HEADER_SIZE));
    var nodes := WriteSegments(w, hnsw, multivec, []);
    if nodes.None? { return SegmentTooBig; }
    var manifest := m.(nodes := nodes.value, config := t.Configured(h));
    BuiltReads(h, t, manifest);
    if |c.encode(manifest)| >= BIG { return OutOfMemory(manifest); }
    SealedFinds(c, h, SegmentsOf(hnsw, multivec), manifest);
    w.Seal(c, manifest);
    r := Written(w.file, manifest);
  }

  /** What a configured manifest reads back as, with or without a schema. */
  lemma BuiltReads(h: Header, t: Settings, m: Manifest)
    requires OnlyMuvera(t.muvera) && m.config == t.Configured(h)
    ensures ReplayCutoff(m.config) == Some(Recovery.Cutoff(t.epoch, t.maxTs))
    ensures Get(m.config, VecFile, 0) == 1 <==> t.vecFile
    ensures (m.schema.Some? ==> m.schema.value == Schema(h.dimensions, h.metric)) ==>
              Effective(h, m) == h.(count := t.live)
  {
    ConfiguredReads(h, t, m.(schema := None));
    if m.schema.Some? && m.schema.value == Schema(h.dimensions, h.metric) { ConfiguredReads(h, t, m); }
  }

  /** Where the manifest begins: on the page after the last segment. */
  ghost function ManifestStart(h: Header, hnsw: Option<seq<byte>>, multivec: Option<seq<byte>>): nat
    requires Room(Start(h).offset, SegmentsOf(hnsw, multivec))
  {
    AlignToPage(Lay(Start(h), SegmentsOf(hnsw, multivec)).offset)
  }

  lemma SealedFinds(c: Codec, h: Header, segs: seq<Segment>, m: Manifest)
    requires Room(Start(h).offset, segs) && Lay(Start(h), segs).offset < 2 * BIG && |c.encode(m)| < BIG
    requires m.nodes == Lay(Start(h), segs).nodes
    ensures var l := Lay(Start(h), segs);
            var d := Sealed(c, l.file, l.offset, m);
            && Open(c, d) == OpenedAs(c, h, c.encode(m))
            && (c.Lawful() && |c.encode(m)| < TWO32 ==> Open(c, d) == Opened(Effective(h, m), m))
            && AlignToPage(l.offset) % PAGE_SIZE == 0 && AlignToPage(l.offset) <= |d|
            && SegmentsFound(d, m.nodes, segs, AlignToPage(l.offset))
  {
    var l := Lay(Start(h), segs);
    LayPlaces(Start(h), segs);
    OpenSealed(c, l, h, m);
    AlignBelow(l.offset);
    AllSegmentsFound(Start(h), segs, l, Sealed(c, l.file, l.offset, m), AlignToPage(l.offset));
  }
}
