/** Opening a written container. */
module ContainerProofs {
  import opened Bytes
  import opened Records
  import opened Pages
  import opened Headers
  import opened Container
  import Recovery

  /** A write at or after the end of the file appends. */
  lemma Appends(file: seq<byte>, pos: nat, data: seq<byte>)
    requires |file| <= pos
    ensures var w := WriteAt(file, pos, data);
            && file <= w && |w| == (if data == [] then |file| else pos + |data|)
            && (data != [] ==> w == file + ZeroBytes(pos - |file|) + data && w[pos..pos + |data|] == data)
  {
    if data != [] {
      var padded := file + ZeroBytes(pos - |file|);
      assert (if |file| < pos then padded else file) == padded;
      assert padded[..pos] == padded;
      assert WriteAt(file, pos, data) == padded + data + [];
    }
  }

  /** Segment `i` of `segs` lies in `file` where its location says. */
  ghost predicate Holds(file: seq<byte>, n: NodeLocation, s: Segment) {
    && n.kind == s.kind && n.length == |s.data| && n.offset % PAGE_SIZE == 0
    && (s.data != [] ==> n.offset + n.length <= |file| && file[n.offset..n.offset + n.length] == s.data)
  }

  /** Location `n` of segment `s`, between the offsets of two states of the writer. */
  ghost predicate SegmentAt(from: nat, to: Laid, n: NodeLocation, s: Segment) {
    Holds(to.file, n, s) && from <= n.offset && n.offset + n.length <= to.offset
  }

  ghost predicate SegmentsAt(from: nat, b: nat, segs: seq<Segment>, to: Laid) {
    |to.nodes| == b + |segs| && forall i: nat | i < |segs| :: SegmentAt(from, to, to.nodes[b + i], segs[i])
  }

  ghost predicate Placed(from: Laid, segs: seq<Segment>, to: Laid) {
    && from.offset <= to.offset && |to.file| <= to.offset && from.file <= to.file
    && SegmentsAt(from.offset, |from.nodes|, segs, to)
    && to.nodes[..|from.nodes|] == from.nodes && InOrder(to.nodes, |from.nodes|)
  }

  /** From location `b` on, each ends before the next begins. */
  ghost predicate InOrder(nodes: seq<NodeLocation>, b: nat) {
    forall i, j :: b <= i < j < |nodes| ==> nodes[i].offset + nodes[i].length <= nodes[j].offset
  }

  lemma InOrderFirst(nodes: seq<NodeLocation>, b: nat)
    requires b < |nodes| && InOrder(nodes, b + 1)
    requires forall j | b < j < |nodes| :: nodes[b].offset + nodes[b].length <= nodes[j].offset
    ensures InOrder(nodes, b)
  {
  }

  lemma FirstNode(before: seq<NodeLocation>, n: NodeLocation, nodes: seq<NodeLocation>)
    requires |before| < |nodes| && nodes[..|before| + 1] == before + [n]
    ensures nodes[|before|] == n && nodes[..|before|] == before
  {
    var b := |before|;
    assert nodes[b] == nodes[..b + 1][b];
    assert nodes[..b] == nodes[..b + 1][..b];
  }

  lemma HoldsLater(file: seq<byte>, later: seq<byte>, n: NodeLocation, s: Segment)
    requires Holds(file, n, s) && file <= later
    ensures Holds(later, n, s)
  {
    if s.data != [] {
      assert later[n.offset..n.offset + n.length] == file[n.offset..n.offset + n.length];
    }
  }

  lemma SegmentsAtFirst(from: nat, next: nat, b: nat, segs: seq<Segment>, to: Laid)
    requires segs != [] && SegmentsAt(next, b + 1, segs[1..], to) && from <= next
    requires SegmentAt(from, to, to.nodes[b], segs[0])
    ensures SegmentsAt(from, b, segs, to)
  {
    forall i: nat | i < |segs| ensures SegmentAt(from, to, to.nodes[b + i], segs[i]) {
      if i > 0 {
        assert SegmentAt(next, to, to.nodes[b + 1 + (i - 1)], segs[1..][i - 1]);
      }
    }
  }

  lemma InOrderAfter(next: nat, b: nat, segs: seq<Segment>, to: Laid)
    requires segs != [] && SegmentsAt(next, b + 1, segs[1..], to) && InOrder(to.nodes, b + 1)
    requires to.nodes[b].offset + to.nodes[b].length <= next
    ensures InOrder(to.nodes, b)
  {
    forall j | b < j < |to.nodes| ensures to.nodes[b].offset + to.nodes[b].length <= to.nodes[j].offset {
      assert SegmentAt(next, to, to.nodes[b + 1 + (j - b - 1)], segs[1..][j - b - 1]);
    }
    InOrderFirst(to.nodes, b);
  }

  lemma PlacedFirst(l: Laid, one: Laid, segs: seq<Segment>, to: Laid, n: NodeLocation)
    requires segs != [] && one.nodes == l.nodes + [n] && Placed(one, segs[1..], to)
    requires l.file <= one.file && l.offset <= n.offset && n.offset + n.length == one.offset
    requires Holds(one.file, n, segs[0])
    ensures Placed(l, segs, to)
  {
    FirstNode(l.nodes, n, to.nodes);
    HoldsLater(one.file, to.file, n, segs[0]);
    SegmentsAtFirst(l.offset, one.offset, |l.nodes|, segs, to);
    InOrderAfter(one.offset, |l.nodes|, segs, to);
  }

  /** Segments are laid on page boundaries, in order, without overlap, and later writes leave earlier ones alone. */
  lemma {:induction false} LayPlaces(l: Laid, segs: seq<Segment>)
    requires Room(l.offset, segs) && |l.file| <= l.offset
    ensures Placed(l, segs, Lay(l, segs))
    decreases |segs|
  {
    if segs != [] {
      AlignBelow(l.offset);
      var at, one := AlignToPage(l.offset), LayOne(l, segs[0]);
      Appends(l.file, at, segs[0].data);
      RoomShrinks(l.offset + PAGE_SIZE + |segs[0].data|, one.offset, segs[1..]);
      LayPlaces(one, segs[1..]);
      PlacedFirst(l, one, segs, Lay(l, segs), NodeLocation(at, |segs[0].data|, segs[0].kind));
    }
  }

  /** The parts of a sealed file. */
  lemma SealedParts(c: Codec, l: Laid, m: Manifest)
    requires |l.file| <= l.offset && l.offset + PAGE_SIZE + 8 + |c.encode(m)| < TWO64
    ensures var at, bytes := AlignToPage(l.offset), c.encode(m);
            && l.offset <= at && at + 8 + |bytes| < TWO64
            && Sealed(c, l.file, l.offset, m) ==
                  (l.file + ZeroBytes(at - |l.file|) + (ManifestHeaderBytes(NewManifestHeader(c.crc, bytes)) + bytes))
                                  + FooterBytes(NewFooter(c.crc, at, at + 8 + |bytes|))
  {
    AlignBelow(l.offset);
    var mh := ManifestHeaderBytes(NewManifestHeader(c.crc, c.encode(m)));
    Appends(l.file, AlignToPage(l.offset), mh + c.encode(m));
  }

  lemma Parts(a: seq<byte>, mh: seq<byte>, bytes: seq<byte>, footer: seq<byte>)
    ensures var d := a + (mh + bytes) + footer;
            && d[|a|..|a| + |mh|] == mh && d[|a| + |mh|..|a| + |mh| + |bytes|] == bytes
            && d[|d| - |footer|..] == footer && a <= d
  {
  }

  /** What `open` makes of an encoded manifest: its length was cast to 32 bits, so that it reads the
      first bytes only when there are 2^32 or more. */
  function ReadBack(c: Codec, bytes: seq<byte>): Option<Manifest> {
    var seen := bytes[..|bytes| % TWO32];
    if c.crc(seen) == c.crc(bytes) then c.decode(seen) else None
  }

  function OpenedAs(c: Codec, h: Header, bytes: seq<byte>): Opened {
    match ReadBack(c, bytes)
    case Some(m) => Opened(Effective(h, m), m)
    case None => BadManifest
  }

  lemma ReadWhole(c: Codec, m: Manifest)
    requires c.Lawful() && |c.encode(m)| < TWO32
    ensures ReadBack(c, c.encode(m)) == Some(m)
  {
    var bytes := c.encode(m);
    assert |bytes| % TWO32 == |bytes| && bytes[..|bytes|] == bytes;
  }

  lemma ManifestFound(c: Codec, d: seq<byte>, at: nat, bytes: seq<byte>)
    requires at + 8 + |bytes| <= |d|
    requires d[at..at + 8] == ManifestHeaderBytes(NewManifestHeader(c.crc, bytes))
    requires d[at + 8..at + 8 + |bytes|] == bytes
    ensures ReadManifest(c, d, at) == ReadBack(c, bytes)
  {
    var n := |bytes| % TWO32;
    ManifestHeaderRoundTrip(NewManifestHeader(c.crc, bytes));
    assert d[at + 8..at + 8 + n] == bytes[..n];
  }

  lemma FooterFound(c: Codec, d: seq<byte>, at: u64, total: u64)
    requires |d| >= HEADER_SIZE + FOOTER_SIZE && d[|d| - FOOTER_SIZE..] == FooterBytes(NewFooter(c.crc, at, total))
    ensures ReadFooter(c, d).Some? && ReadFooter(c, d).value.manifestOffset == at
  {
    FooterVerifies(c.crc, at, total);
  }

  /** Whatever was laid after a header, sealing it gives a file that opens with what its manifest
      reads back as: the manifest itself, if it is shorter than 2^32 bytes. */
  lemma {:induction false} OpenSealed(c: Codec, l: Laid, h: Header, m: Manifest)
    requires HeaderBytes(h) <= l.file && |l.file| <= l.offset
    requires l.offset + PAGE_SIZE + 8 + |c.encode(m)| < TWO64
    ensures var d := Sealed(c, l.file, l.offset, m);
            && Open(c, d) == OpenedAs(c, h, c.encode(m))
            && (c.Lawful() && |c.encode(m)| < TWO32 ==> Open(c, d) == Opened(Effective(h, m), m))
            && l.file <= d && l.offset <= AlignToPage(l.offset) < |d|
  {
    var d := Sealed(c, l.file, l.offset, m);
    SealedReads(c, l, m);
    assert HeaderBytes(h) <= d;
    HeaderRead(h, d);
    if c.Lawful() && |c.encode(m)| < TWO32 { ReadWhole(c, m); }
  }

  lemma SealedReads(c: Codec, l: Laid, m: Manifest)
    requires HEADER_SIZE <= |l.file| <= l.offset && l.offset + PAGE_SIZE + 8 + |c.encode(m)| < TWO64
    ensures var d := Sealed(c, l.file, l.offset, m);
            && l.file <= d && l.offset <= AlignToPage(l.offset) < |d| && ReadFooter(c, d).Some?
            && ReadManifest(c, d, ReadFooter(c, d).value.manifestOffset) == ReadBack(c, c.encode(m))
  {
    SealedParts(c, l, m);
    var at: u64, bytes := AlignToPage(l.offset), c.encode(m);
    PartsRead(c, Sealed(c, l.file, l.offset, m), l.file + ZeroBytes(at - |l.file|), at, bytes);
  }

  /** A body of `at` bytes, the manifest and the footer, read back. */
  lemma PartsRead(c: Codec, d: seq<byte>, a: seq<byte>, at: u64, bytes: seq<byte>)
    requires |a| == at >= HEADER_SIZE && at + 8 + |bytes| < TWO64
    requires d == a + (ManifestHeaderBytes(NewManifestHeader(c.crc, bytes)) + bytes)
                  + FooterBytes(NewFooter(c.crc, at, at + 8 + |bytes|))
    ensures a <= d && ReadFooter(c, d).Some?
    ensures ReadManifest(c, d, ReadFooter(c, d).value.manifestOffset) == ReadBack(c, bytes)
  {
    Parts(a, ManifestHeaderBytes(NewManifestHeader(c.crc, bytes)), bytes,
          FooterBytes(NewFooter(c.crc, at, at + 8 + |bytes|)));
    FooterFound(c, d, at, at + 8 + |bytes|);
    ManifestFound(c, d, at, bytes);
  }

  lemma HeaderRead(h: Header, d: seq<byte>)
    requires HeaderBytes(h) <= d
    ensures ParseHeader(d[..HEADER_SIZE]) == Some(h)
  {
    HeaderRoundTrip(h, []);
    assert d[..HEADER_SIZE] == HeaderBytes(h) + [];
  }

  // ------------------------------------------------------------ whole files

  /** The file as `WriteOmenManifest` lays it out: header, segments from the next page, manifest, footer. */
  function Start(h: Header): Laid {
    Laid(HeaderBytes(h), 2 * HEADER_SIZE, [])
  }

  /** A segment laid in a file is read back through its location, whatever is appended to the file later. */
  lemma SegmentRead(from: Laid, segs: seq<Segment>, to: Laid, d: seq<byte>, i: nat)
    requires Placed(from, segs, to) && i < |segs| && to.file <= d && to.offset <= |d|
    ensures var n := to.nodes[|from.nodes| + i];
            && n.kind == segs[i].kind && n.offset % PAGE_SIZE == 0
            && from.offset <= n.offset && n.offset + n.length <= to.offset && NodeBytes(d, n) == Some(segs[i].data)
  {
    var n := to.nodes[|from.nodes| + i];
    assert SegmentAt(from.offset, to, n, segs[i]);
    HoldsLater(to.file, d, n, segs[i]);
    if segs[i].data == [] {
      assert d[n.offset..n.offset] == [];
    }
  }

  /** Every segment is aligned, between the header and the manifest, apart from the others, and reads back. */
  ghost predicate SegmentsFound(d: seq<byte>, nodes: seq<NodeLocation>, segs: seq<Segment>, manifestAt: nat) {
    && |nodes| == |segs|
    && (forall i: nat | i < |segs| ::
          && nodes[i].kind == segs[i].kind && nodes[i].offset % PAGE_SIZE == 0
          && HEADER_SIZE <= nodes[i].offset && nodes[i].offset + nodes[i].length <= manifestAt
          && NodeBytes(d, nodes[i]) == Some(segs[i].data))
    && InOrder(nodes, 0)
  }

  lemma AllSegmentsFound(from: Laid, segs: seq<Segment>, to: Laid, d: seq<byte>, manifestAt: nat)
    requires Placed(from, segs, to) && from.nodes == [] && HEADER_SIZE <= from.offset
    requires to.file <= d && to.offset <= manifestAt <= |d|
    ensures SegmentsFound(d, to.nodes, segs, manifestAt)
  {
    forall i: nat | i < |segs|
      ensures to.nodes[i].kind == segs[i].kind && to.nodes[i].offset % PAGE_SIZE == 0
      ensures HEADER_SIZE <= to.nodes[i].offset && to.nodes[i].offset + to.nodes[i].length <= manifestAt
      ensures NodeBytes(d, to.nodes[i]) == Some(segs[i].data)
    {
      SegmentRead(from, segs, to, d, i);
    }
  }

  /** Container round trip: the file opens, with the manifest written and the header the manifest implies;
      every segment lies on a page boundary between the header and the manifest, no two overlap, and each
      reads back as written. */
  lemma {:induction false} ContainerRoundTrip(c: Codec, h: Header, segs: seq<Segment>, m: Manifest)
    requires c.Lawful() && Room(Start(h).offset, segs)
    requires var l := Lay(Start(h), segs);
             m.nodes == l.nodes && l.offset + PAGE_SIZE + 8 + |c.encode(m)| < TWO64 && |c.encode(m)| < TWO32
    ensures var l := Lay(Start(h), segs);
            var d := Sealed(c, l.file, l.offset, m);
            && Open(c, d) == Opened(Effective(h, m), m)
            && AlignToPage(l.offset) % PAGE_SIZE == 0 && SegmentsFound(d, m.nodes, segs, AlignToPage(l.offset))
  {
    var from, l := Start(h), Lay(Start(h), segs);
    LayPlaces(from, segs);
    OpenSealed(c, l, h, m);
    AlignBelow(l.offset);
    AllSegmentsFound(from, segs, l, Sealed(c, l.file, l.offset, m), AlignToPage(l.offset));
  }

  /** What the configuration holds under each key. */
  ghost predicate Describes(config: map<Key, u64>, h: Header, live: u64) {
    && Count in config && config[Count] == live && Dimensions in config && config[Dimensions] == h.dimensions
    && HnswM in config && config[HnswM] == h.hnswM
    && EfConstruction in config && config[EfConstruction] == h.efConstruction
    && EfSearch in config && config[EfSearch] == h.efSearch
    && MetricKey in config && config[MetricKey] == MetricCode(h.metric)
  }

  lemma {:induction false} ConfigDescribes(h: Header, live: u64, epoch: u64, maxTs: Option<u64>, vecFile: bool,
      muvera: map<Key, u64>)
    requires OnlyMuvera(muvera)
    ensures Describes(Config(h, live, epoch, maxTs, vecFile, muvera), h, live)
  {
    assert Count !in muvera && Dimensions !in muvera && HnswM !in muvera && EfConstruction !in muvera;
    assert EfSearch !in muvera && MetricKey !in muvera;
  }

  lemma {:induction false} ConfigCutoff(h: Header, live: u64, epoch: u64, maxTs: Option<u64>, vecFile: bool,
      muvera: map<Key, u64>)
    requires OnlyMuvera(muvera)
    ensures var config := Config(h, live, epoch, maxTs, vecFile, muvera);
            && WalEpoch in config && config[WalEpoch] == epoch
            && (WalMaxTs in config <==> maxTs.Some?) && (maxTs.Some? ==> config[WalMaxTs] == maxTs.value)
            && (Get(config, VecFile, 0) == 1 <==> vecFile)
  {
    assert WalEpoch !in muvera && WalMaxTs !in muvera && VecFile !in muvera;
  }

  /** The manifest's configuration gives back the header it was written with, apart from the live count,
      when the schema, if any, agrees with that header. */
  lemma {:induction false} HeaderRecovered(h: Header, m: Manifest, live: u64)
    requires Describes(m.config, h, live)
    requires m.schema.Some? ==> m.schema.value == Schema(h.dimensions, h.metric)
    ensures Effective(h, m) == h.(count := live)
  {
    assert MetricOf(MetricCode(h.metric) % 256) == h.metric;
  }

  /** The replay cutoff recovery reads from a configuration. */
  function ReplayCutoff(config: map<Key, u64>): Option<Recovery.Cutoff> {
    if WalEpoch in config then Some(Recovery.Cutoff(config[WalEpoch], Recovery.Lookup(config, WalMaxTs))) else None
  }

  /** What a writer puts into the configuration beside the header. */
  datatype Settings = Settings(live: u64, epoch: u64, maxTs: Option<u64>, vecFile: bool, muvera: map<Key, u64>) {
    function Configured(h: Header): map<Key, u64> {
      Config(h, live, epoch, maxTs, vecFile, muvera)
    }
  }

  /** A manifest configured by the writer gives back the header it was written with and the live count,
      the cutoff that recovery uses, and whether `.vecs` is in use. */
  lemma {:induction false} ConfiguredReads(h: Header, t: Settings, m: Manifest)
    requires OnlyMuvera(t.muvera) && m.config == t.Configured(h)
    requires m.schema.Some? ==> m.schema.value == Schema(h.dimensions, h.metric)
    ensures Effective(h, m) == h.(count := t.live)
    ensures ReplayCutoff(m.config) == Some(Recovery.Cutoff(t.epoch, t.maxTs))
    ensures Get(m.config, VecFile, 0) == 1 <==> t.vecFile
  {
    ConfigDescribes(h, t.live, t.epoch, t.maxTs, t.vecFile, t.muvera);
    ConfigCutoff(h, t.live, t.epoch, t.maxTs, t.vecFile, t.muvera);
    HeaderRecovered(h, m, t.live);
  }

  /** The index segment opening keeps is the first one written, if one was. */
  lemma {:induction false} IndexFound(d: seq<byte>, nodes: seq<NodeLocation>, i: nat)
    requires i < |nodes| && nodes[i].kind == IndexMetadata && nodes[i].offset + nodes[i].length <= |d|
    requires forall k: nat | k < i :: nodes[k].kind != IndexMetadata
    ensures IndexSource(d, nodes) == Some(nodes[i])
  {
    if i > 0 {
      IndexFound(d, nodes[1..], i - 1);
    }
  }
}
