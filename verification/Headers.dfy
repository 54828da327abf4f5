/** The fixed-size parts of an `.omen` file: header, manifest header and footer. */
module Headers {
  import opened Bytes
  import opened Records

  const HEADER_SIZE := 4096
  const OMEN: seq<byte> := [0x4F, 0x4D, 0x45, 0x4E]

  datatype Quantization = F32 | Sq8

  datatype Metric = L2 | Cosine | InnerProduct

  function QuantizationCode(q: Quantization): byte {
    match q
    case F32 => 0
    case Sq8 => 1
  }

  /** An unknown code is read as no quantization. */
  function QuantizationOf(code: byte): Quantization {
    if code == 1 then Sq8 else F32
  }

  function MetricCode(m: Metric): byte {
    match m
    case L2 => 0
    case Cosine => 1
    case InnerProduct => 2
  }

  /** An unknown code is read as L2. */
  function MetricOf(code: byte): Metric {
    if code == 1 then Cosine else if code == 2 then InnerProduct else L2
  }

  datatype Header = Header(
    major: u16, minor: u16, dimensions: u32, count: u64, quantization: Quantization, metric: Metric,
    hnswM: u32, efConstruction: u32, efSearch: u32, entryPoint: u64)

  function Leading(h: Header): (s: seq<byte>)
    ensures |s| == 24
  {
    OMEN + LE(h.major, 2) + LE(h.minor, 2) + LE(h.dimensions, 4) + LE(h.count, 8)
    + [QuantizationCode(h.quantization)] + [MetricCode(h.metric)] + [0, 0]
  }

  /** Always zero in this version of the format. */
  function SectionCount(): (s: seq<byte>)
    ensures |s| == 4
  {
    LE(0, 4)
  }

  function Following(h: Header): (s: seq<byte>)
    ensures |s| == 24
  {
    LE(h.hnswM, 4) + LE(h.efConstruction, 4) + LE(h.efSearch, 4) + SectionCount() + LE(h.entryPoint, 8)
  }

  function HeaderBytes(h: Header): (s: seq<byte>)
    ensures |s| == HEADER_SIZE
  {
    Leading(h) + Following(h) + ZeroBytes(HEADER_SIZE - 48)
  }

  function ParseHeader(d: seq<byte>): Option<Header> {
    if |d| < HEADER_SIZE || d[..4] != OMEN then None
    else
      Some(Header(
        UnLE16(d[4..6]), UnLE16(d[6..8]), UnLE32(d[8..12]), UnLE64(d[12..20]), QuantizationOf(d[20]), MetricOf(d[21]),
        UnLE32(d[24..28]), UnLE32(d[28..32]), UnLE32(d[32..36]), UnLE64(d[40..48])))
  }

  lemma LeadingRead(h: Header, d: seq<byte>)
    requires d == Leading(h)
    ensures d[..4] == OMEN && UnLE16(d[4..6]) == h.major && UnLE16(d[6..8]) == h.minor
    ensures UnLE32(d[8..12]) == h.dimensions && UnLE64(d[12..20]) == h.count
    ensures QuantizationOf(d[20]) == h.quantization && MetricOf(d[21]) == h.metric
  {
    Exact16(h.major);
    Exact16(h.minor);
    Exact32(h.dimensions);
    Exact64(h.count);
    LeadingParts(d, OMEN, LE(h.major, 2), LE(h.minor, 2), LE(h.dimensions, 4), LE(h.count, 8),
                 QuantizationCode(h.quantization), MetricCode(h.metric));
  }

  lemma LeadingParts(
    d: seq<byte>, m: seq<byte>, x: seq<byte>, y: seq<byte>, z: seq<byte>, w: seq<byte>, q: byte, r: byte)
    requires |m| == 4 && |x| == 2 && |y| == 2 && |z| == 4 && |w| == 8
    requires d == m + x + y + z + w + [q] + [r] + [0, 0]
    ensures d[..4] == m && d[4..6] == x && d[6..8] == y && d[8..12] == z && d[12..20] == w && d[20] == q && d[21] == r
  {
  }

  lemma FollowingRead(h: Header, d: seq<byte>)
    requires d == Following(h)
    ensures UnLE32(d[0..4]) == h.hnswM && UnLE32(d[4..8]) == h.efConstruction
    ensures UnLE32(d[8..12]) == h.efSearch && UnLE64(d[16..24]) == h.entryPoint
  {
    FollowingParts(d, LE(h.hnswM, 4), LE(h.efConstruction, 4), LE(h.efSearch, 4), SectionCount(), LE(h.entryPoint, 8));
    Exact32(h.hnswM);
    Exact32(h.efConstruction);
    Exact32(h.efSearch);
    Exact64(h.entryPoint);
  }

  lemma FollowingParts(d: seq<byte>, x: seq<byte>, y: seq<byte>, z: seq<byte>, w: seq<byte>, u: seq<byte>)
    requires |x| == |y| == |z| == |w| == 4 && |u| == 8 && d == x + y + z + w + u
    ensures d[0..4] == x && d[4..8] == y && d[8..12] == z && d[16..24] == u
  {
  }

  /** Every header is read back, whatever follows it in the file. */
  lemma {:induction false} HeaderRoundTrip(h: Header, tail: seq<byte>)
    ensures ParseHeader(HeaderBytes(h) + tail) == Some(h)
  {
    var d, a, b := HeaderBytes(h) + tail, Leading(h), Following(h);
    LeadingRead(h, a);
    FollowingRead(h, b);
    Halves(d, a, b, ZeroBytes(HEADER_SIZE - 48) + tail);
  }

  /** Slices of the two halves of a header are slices of the file. */
  lemma Halves(d: seq<byte>, a: seq<byte>, b: seq<byte>, rest: seq<byte>)
    requires |a| == |b| == 24 && d == a + b + rest
    ensures d[..4] == a[..4] && d[4..6] == a[4..6] && d[6..8] == a[6..8]
    ensures d[8..12] == a[8..12] && d[12..20] == a[12..20] && d[20] == a[20] && d[21] == a[21]
    ensures d[24..28] == b[0..4] && d[28..32] == b[4..8] && d[32..36] == b[8..12] && d[40..48] == b[16..24]
  {
  }

  // ------------------------------------------------------- manifest header

  datatype ManifestHeader = ManifestHeader(length: u32, crc: u32)

  function NewManifestHeader(crc: seq<byte> -> u32, manifest: seq<byte>): ManifestHeader {
    ManifestHeader(|manifest| % TWO32, crc(manifest))
  }

  function ManifestHeaderBytes(m: ManifestHeader): (s: seq<byte>)
    ensures |s| == 8
  {
    LE(m.length, 4) + LE(m.crc, 4)
  }

  function ParseManifestHeader(d: seq<byte>): Option<ManifestHeader> {
    if |d| < 8 then None else Some(ManifestHeader(UnLE32(d[0..4]), UnLE32(d[4..8])))
  }

  predicate VerifyManifest(crc: seq<byte> -> u32, m: ManifestHeader, manifest: seq<byte>) {
    |manifest| == m.length && crc(manifest) == m.crc
  }

  lemma {:induction false} ManifestHeaderRoundTrip(m: ManifestHeader)
    ensures ParseManifestHeader(ManifestHeaderBytes(m)) == Some(m)
  {
    var d := ManifestHeaderBytes(m);
    Exact32(m.length);
    Exact32(m.crc);
    assert d[0..4] == LE(m.length, 4) && d[4..8] == LE(m.crc, 4);
  }

  // ------------------------------------------------------------------ footer

  const FOOTER_SIZE := 64
  const FOOTER_MAGIC := 0x0DED_B002
  const FOOTER_VERSION := 1

  datatype Footer = Footer(
    magic: u32, version: u32, manifestOffset: u64, totalLen: u64, reserved: seq<byte>, reserved2: u32, crc: u32)

  /** The fields the checksum covers. */
  function Covered(f: Footer): seq<byte> {
    LE(f.magic, 4) + LE(f.version, 4) + LE(f.manifestOffset, 8) + LE(f.totalLen, 8) + f.reserved + LE(f.reserved2, 4)
  }

  function NewFooter(crc: seq<byte> -> u32, manifestOffset: u64, totalLen: u64): (f: Footer)
    ensures |f.reserved| == 32
  {
    var f := Footer(FOOTER_MAGIC, FOOTER_VERSION, manifestOffset, totalLen, ZeroBytes(32), 0, 0);
    f.(crc := crc(Covered(f)))
  }

  predicate VerifyFooter(crc: seq<byte> -> u32, f: Footer) {
    f.magic == FOOTER_MAGIC && f.crc == crc(Covered(f))
  }

  function FooterBytes(f: Footer): (s: seq<byte>)
    requires |f.reserved| == 32
    ensures |s| == FOOTER_SIZE
  {
    Covered(f) + LE(f.crc, 4)
  }

  function ParseFooter(d: seq<byte>): Footer
    requires |d| == FOOTER_SIZE
  {
    Footer(UnLE32(d[0..4]), UnLE32(d[4..8]), UnLE64(d[8..16]), UnLE64(d[16..24]),
           d[24..56], UnLE32(d[56..60]), UnLE32(d[60..64]))
  }

  lemma {:induction false} FooterRoundTrip(f: Footer)
    requires |f.reserved| == 32
    ensures ParseFooter(FooterBytes(f)) == f
  {
    var d := FooterBytes(f);
    Exact32(f.magic);
    Exact32(f.version);
    Exact64(f.manifestOffset);
    Exact64(f.totalLen);
    Exact32(f.reserved2);
    Exact32(f.crc);
    assert d[0..4] == LE(f.magic, 4);
    assert d[4..8] == LE(f.version, 4);
    assert d[8..16] == LE(f.manifestOffset, 8);
    assert d[16..24] == LE(f.totalLen, 8);
    assert d[24..56] == f.reserved;
    assert d[56..60] == LE(f.reserved2, 4);
    assert d[60..64] == LE(f.crc, 4);
  }

  /** A new footer, written and read back, verifies and still points at the manifest. */
  lemma {:induction false} FooterVerifies(crc: seq<byte> -> u32, manifestOffset: u64, totalLen: u64)
    ensures var f := ParseFooter(FooterBytes(NewFooter(crc, manifestOffset, totalLen)));
            VerifyFooter(crc, f) && f.manifestOffset == manifestOffset && f.totalLen == totalLen
  {
    var f := NewFooter(crc, manifestOffset, totalLen);
    FooterRoundTrip(f);
    assert Covered(f) == Covered(f.(crc := 0));
  }

  // ------------------------------------------------- filling a buffer in place

  /** Copies `src` over the zeros that follow what is already written. */
  method Fill(buf: array<byte>, at: nat, src: seq<byte>, ghost done: seq<byte>)
    requires at == |done| && at + |src| <= buf.Length && buf[..] == done + ZeroBytes(buf.Length - at)
    modifies buf
    ensures buf[..] == done + src + ZeroBytes(buf.Length - at - |src|)
  {
    ghost var before := buf[..];
    forall i | 0 <= i < |src| {
      buf[at + i] := src[i];
    }
    assert forall i | 0 <= i < at :: buf[i] == before[i];
    assert forall i | at + |src| <= i < buf.Length :: buf[i] == before[i];
  }

  method FooterToBytes(f: Footer) returns (buf: array<byte>)
    requires |f.reserved| == 32
    ensures fresh(buf) && buf[..] == FooterBytes(f)
  {
    buf := new byte[FOOTER_SIZE](_ => 0);
    ghost var done: seq<byte> := [];
    Fill(buf, 0, LE(f.magic, 4), done);
    done := done + LE(f.magic, 4);
    Fill(buf, 4, LE(f.version, 4), done);
    done := done + LE(f.version, 4);
    Fill(buf, 8, LE(f.manifestOffset, 8), done);
    done := done + LE(f.manifestOffset, 8);
    Fill(buf, 16, LE(f.totalLen, 8), done);
    done := done + LE(f.totalLen, 8);
    Fill(buf, 24, f.reserved, done);
    done := done + f.reserved;
    Fill(buf, 56, LE(f.reserved2, 4), done);
    done := done + LE(f.reserved2, 4);
    assert done == Covered(f);
    Fill(buf, 60, LE(f.crc, 4), done);
  }

  method HeaderToBytes(h: Header) returns (buf: array<byte>)
    ensures fresh(buf) && buf[..] == HeaderBytes(h)
  {
    buf := new byte[HEADER_SIZE](_ => 0);
    FillLeading(buf, h);
    FillFollowing(buf, h);
  }

  lemma PaddedOn(done: seq<byte>, n: nat)
    ensures done + ZeroBytes(n + 2) == done + [0, 0] + ZeroBytes(n)
  {
  }

  method FillLeading(buf: array<byte>, h: Header)
    requires buf.Length == HEADER_SIZE && buf[..] == ZeroBytes(HEADER_SIZE)
    modifies buf
    ensures buf[..] == Leading(h) + ZeroBytes(HEADER_SIZE - 24)
  {
    ghost var done: seq<byte> := [];
    Fill(buf, 0, OMEN, done);
    done := done + OMEN;
    Fill(buf, 4, LE(h.major, 2), done);
    done := done + LE(h.major, 2);
    Fill(buf, 6, LE(h.minor, 2), done);
    done := done + LE(h.minor, 2);
    Fill(buf, 8, LE(h.dimensions, 4), done);
    done := done + LE(h.dimensions, 4);
    Fill(buf, 12, LE(h.count, 8), done);
    done := done + LE(h.count, 8);
    Fill(buf, 20, [QuantizationCode(h.quantization)], done);
    done := done + [QuantizationCode(h.quantization)];
    Fill(buf, 21, [MetricCode(h.metric)], done);
    done := done + [MetricCode(h.metric)];
    assert done + [0, 0] == Leading(h);
    PaddedOn(done, HEADER_SIZE - 24);
  }

  method FillFollowing(buf: array<byte>, h: Header)
    requires buf.Length == HEADER_SIZE && buf[..] == Leading(h) + ZeroBytes(HEADER_SIZE - 24)
    modifies buf
    ensures buf[..] == HeaderBytes(h)
  {
    ghost var done := Leading(h);
    Fill(buf, 24, LE(h.hnswM, 4), done);
    done := done + LE(h.hnswM, 4);
    Fill(buf, 28, LE(h.efConstruction, 4), done);
    done := done + LE(h.efConstruction, 4);
    Fill(buf, 32, LE(h.efSearch, 4), done);
    done := done + LE(h.efSearch, 4);
    Fill(buf, 36, SectionCount(), done);
    done := done + SectionCount();
    Fill(buf, 40, LE(h.entryPoint, 8), done);
    done := done + LE(h.entryPoint, 8);
    assert done == Leading(h) + Following(h);
  }
}
