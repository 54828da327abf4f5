/** The `.omen` container: page-aligned segments, a checksummed manifest and a footer pointing at it. */
module Container {
  import opened Bytes
  import opened Records
  import opened Pages
  import opened Headers

  datatype Kind = Vectors | IndexMetadata | MultiVectors

  datatype NodeLocation = NodeLocation(offset: u64, length: u32, kind: Kind)

  datatype Schema = Schema(dimensions: u32, metric: Metric)

  datatype Manifest = Manifest(
    nodes: seq<NodeLocation>, deleted: set<u32>, idToIndex: map<string, u32>, indexToId: map<u32, string>,
    metadata: map<u32, seq<byte>>, denseSlots: seq<u32>, config: map<Key, u64>, schema: Option<Schema>)

  /** CRC32 and postcard. */
  datatype Codec = Codec(
    crc: seq<byte> -> u32, encode: Manifest -> seq<byte>, decode: seq<byte> -> Option<Manifest>)
  {
    ghost predicate Lawful() {
      forall m :: decode(encode(m)) == Some(m)
    }
  }

  // ------------------------------------------------------------ writing bytes

  /** Writing `data` at `pos`: a gap after the end reads as zeros, an empty write changes nothing. */
  function WriteAt(file: seq<byte>, pos: nat, data: seq<byte>): seq<byte> {
    if data == [] then file
    else
      var padded := if |file| < pos then file + ZeroBytes(pos - |file|) else file;
      padded[..pos] + data + (if pos + |data| < |padded| then padded[pos + |data|..] else [])
  }

  datatype Segment = Segment(data: seq<byte>, kind: Kind)

  /** A partly written file, the next free offset, and the locations handed out. */
  datatype Laid = Laid(file: seq<byte>, offset: nat, nodes: seq<NodeLocation>)

  ghost predicate Room(offset: nat, segs: seq<Segment>)
    decreases |segs|
  {
    && offset + PAGE_SIZE < TWO64
    && (segs == [] || (|segs[0].data| < TWO32 && Room(offset + PAGE_SIZE + |segs[0].data|, segs[1..])))
  }

  function LayOne(l: Laid, s: Segment): Laid
    requires l.offset + PAGE_SIZE < TWO64 && |s.data| < TWO32
  {
    AlignBelow(l.offset);
    var at := AlignToPage(l.offset);
    Laid(WriteAt(l.file, at, s.data), at + |s.data|, l.nodes + [NodeLocation(at, |s.data|, s.kind)])
  }

  lemma AlignBelow(v: nat)
    requires v + PAGE_SIZE < TWO64
    ensures v <= AlignToPage(v) < v + PAGE_SIZE && AlignToPage(v) % PAGE_SIZE == 0
  {
    AlignLeast(v);
    var m := (v + (PAGE_SIZE - 1)) / PAGE_SIZE * PAGE_SIZE;
    assert m % PAGE_SIZE == 0 && v <= m < v + PAGE_SIZE;
  }

  lemma RoomShrinks(offset: nat, smaller: nat, segs: seq<Segment>)
    requires Room(offset, segs) && smaller <= offset
    ensures Room(smaller, segs)
    decreases |segs|
  {
    if segs != [] {
      RoomShrinks(offset + PAGE_SIZE + |segs[0].data|, smaller + PAGE_SIZE + |segs[0].data|, segs[1..]);
    }
  }

  function Lay(l: Laid, segs: seq<Segment>): (r: Laid)
    requires Room(l.offset, segs)
    ensures Room(r.offset, [])
    decreases |segs|
  {
    if segs == [] then l
    else
      AlignBelow(l.offset);
      RoomShrinks(l.offset + PAGE_SIZE + |segs[0].data|, LayOne(l, segs[0]).offset, segs[1..]);
      Lay(LayOne(l, segs[0]), segs[1..])
  }

  /** The manifest on the next page, then the footer at the very end. */
  function Sealed(c: Codec, file: seq<byte>, offset: nat, m: Manifest): seq<byte>
    requires offset + PAGE_SIZE + 8 + |c.encode(m)| < TWO64
  {
    AlignBelow(offset);
    var at := AlignToPage(offset);
    var bytes := c.encode(m);
    var body := WriteAt(file, at, ManifestHeaderBytes(NewManifestHeader(c.crc, bytes)) + bytes);
    body + FooterBytes(NewFooter(c.crc, at, at + 8 + |bytes|))
  }

  class SegmentWriter {
    var file: seq<byte>
    var offset: nat

    ghost predicate Valid()
      reads this
    {
      |file| <= offset
    }

    constructor (bytes: seq<byte>, start: nat)
      requires |bytes| <= start
      ensures Valid() && file == bytes && offset == start
    {
      file, offset := bytes, start;
    }

    /** A segment over 4 GiB is written but refused. */
    method WriteAligned(data: seq<byte>, kind: Kind) returns (r: Option<NodeLocation>)
      requires Valid() && offset + PAGE_SIZE < TWO64
      modifies this
      ensures Valid() || |data| >= TWO32
      ensures r.Some? <==> |data| < TWO32
      ensures r.Some? ==> forall nodes: seq<NodeLocation> ::
                            Laid(file, offset, nodes + [r.value]) ==
                            LayOne(Laid(old(file), old(offset), nodes), Segment(data, kind))
    {
      AlignBelow(offset);
      offset := AlignToPage(offset);
      file := WriteAt(file, offset, data);
      if |data| >= TWO32 { return None; }
      r := Some(NodeLocation(offset, |data|, kind));
      offset := offset + |data|;
    }

    method Seal(c: Codec, m: Manifest)
      requires Valid() && offset + PAGE_SIZE < TWO64 && offset + PAGE_SIZE + 8 + |c.encode(m)| < TWO64
      modifies this
      ensures file == Sealed(c, old(file), old(offset), m)
    {
      AlignBelow(offset);
      var bytes := c.encode(m);
      offset := AlignToPage(offset);
      var at := offset;
      file := WriteAt(file, offset, ManifestHeaderBytes(NewManifestHeader(c.crc, bytes)) + bytes);
      offset := offset + 8 + |bytes|;
      file := file + FooterBytes(NewFooter(c.crc, at, offset));
    }
  }

  // -------------------------------------------------------------- the manifest

  /** The configuration's keys: ten fixed names, all different, and those starting `muvera_`. */
  datatype Key =
    | Count | Dimensions | QuantizationKey | HnswM | EfConstruction | EfSearch | MetricKey
    | WalEpoch | WalMaxTs | VecFile | Muvera(name: string)

  function Config(h: Header, live: u64, epoch: u64, maxTs: Option<u64>, vecFile: bool, muvera: map<Key,
      u64>): map<Key, u64> {
    var m := map[
      Count := live, Dimensions := h.dimensions, QuantizationKey := QuantizationCode(h.quantization), HnswM := h.hnswM,
      EfConstruction := h.efConstruction, EfSearch := h.efSearch, MetricKey := MetricCode(h.metric), WalEpoch := epoch];
    var cut := if maxTs.Some? then m[WalMaxTs := maxTs.value] else m;
    var vecs := if vecFile then cut[VecFile := 1] else cut;
    vecs + muvera
  }

  ghost predicate OnlyMuvera(extra: map<Key, u64>) {
    forall k <- extra :: k.Muvera?
  }

  function Get(config: map<Key, u64>, key: Key, otherwise: u64): u64 {
    if key in config then config[key] else otherwise
  }

  function Narrow(v: u64, otherwise: u32): u32 {
    if v < TWO32 then v else otherwise
  }

  /** The header a reopened file works with: the manifest overrides what the file's header says. */
  function Effective(h: Header, m: Manifest): Header {
    h.(count := Get(m.config, Count, |m.idToIndex| % TWO64),
       dimensions := if m.schema.Some? then m.schema.value.dimensions
                     else Narrow(Get(m.config, Dimensions, h.dimensions), h.dimensions),
       hnswM := Narrow(Get(m.config, HnswM, h.hnswM), h.hnswM),
       efConstruction := Narrow(Get(m.config, EfConstruction, h.efConstruction), h.efConstruction),
       efSearch := Narrow(Get(m.config, EfSearch, h.efSearch), h.efSearch),
       metric := if m.schema.Some? then m.schema.value.metric
                 else if MetricKey in m.config then MetricOf(m.config[MetricKey] % 256) else h.metric)
  }

  // ------------------------------------------------------------------- opening

  datatype Opened = Opened(header: Header, manifest: Manifest) | BadFooter | BadHeader | BadManifest

  function ReadFooter(c: Codec, d: seq<byte>): Option<Footer> {
    if |d| < HEADER_SIZE + FOOTER_SIZE then None
    else
      var f := ParseFooter(d[|d| - FOOTER_SIZE..]);
      if VerifyFooter(c.crc, f) then Some(f) else None
  }

  function ReadManifest(c: Codec, d: seq<byte>, at: nat): Option<Manifest> {
    var start := at + 8;
    if start > |d| then None
    else
      var mh := ParseManifestHeader(d[at..start]).value;
      if start + mh.length > |d| then None
      else
        var bytes := d[start..start + mh.length];
        if VerifyManifest(c.crc, mh, bytes) then c.decode(bytes) else None
  }

  function Open(c: Codec, d: seq<byte>): Opened {
    match ReadFooter(c, d)
    case None => BadFooter
    case Some(f) =>
      match ParseHeader(if |d| < HEADER_SIZE then d else d[..HEADER_SIZE])
      case None => BadHeader
      case Some(h) =>
        match ReadManifest(c, d, f.manifestOffset)
        case None => BadManifest
        case Some(m) => Opened(Effective(h, m), m)
  }

  /** The bytes of a node, when they are inside the file. */
  function NodeBytes(d: seq<byte>, n: NodeLocation): Option<seq<byte>> {
    if n.offset + n.length <= |d| then Some(d[n.offset..n.offset + n.length]) else None
  }

  /** The index segment `open` keeps: the first of its kind that lies inside the file. */
  function IndexSource(d: seq<byte>, nodes: seq<NodeLocation>): Option<NodeLocation> {
    if nodes == [] then None
    else if nodes[0].kind == IndexMetadata && nodes[0].offset + nodes[0].length <= |d| then Some(nodes[0])
    else IndexSource(d, nodes[1..])
  }
}
