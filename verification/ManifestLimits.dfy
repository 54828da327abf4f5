/** When a published manifest can be opened again: the verdict that the protocol takes as given, tied to
    the container that holds the manifest. */
module ManifestLimits {
  import opened Bytes
  import opened Records
  import opened Recovery
  import opened Protocol
  import opened Safety
  import opened Restoration
  import opened LoaderLimits
  import H = Headers
  import C = Container
  import P = ContainerProofs

  /** The contents of the container's manifest for `m`: tables and the entries recovery reads. */
  ghost predicate Carries(image: C.Manifest, m: Manifest, json: Json -> seq<byte>) {
    && (forall id :: id in m.tables.ids ==>
          Name(id) in image.idToIndex && image.idToIndex[Name(id)] == m.tables.ids[id])
    && (forall name :: name in image.idToIndex ==> exists id :: id in m.tables.ids && Name(id) == name)
    && image.deleted == m.tables.deleted && (set k | k in image.denseSlots) == m.tables.dense
    && (forall k :: k in image.metadata <==> k in m.tables.meta)
    && (forall k :: k in m.tables.meta ==> image.metadata[k] == json(m.tables.meta[k]))
    && P.ReplayCutoff(image.config) == m.cutoff
    && (C.Get(image.config, C.VecFile, 0) == 1 <==> m.usesVecs)
  }

  /** The verdict of the code: what is read back from the file written for `m` is what was written. */
  ghost predicate OpensAsWritten(c: C.Codec, json: Json -> seq<byte>, image: Manifest -> C.Manifest, l: Limits) {
    forall m :: Carries(image(m), m, json) ==>
      (l.opens(m) <==> P.ReadBack(c, c.encode(image(m))) == Some(image(m)))
  }

  /** A manifest opens if and only if the sealed file that holds it opens with that manifest. */
  lemma {:induction false} OpensExact(
    c: C.Codec, json: Json -> seq<byte>, image: Manifest -> C.Manifest, l: Limits, m: Manifest,
    h: H.Header, d: seq<byte>)
    requires OpensAsWritten(c, json, image, l) && Carries(image(m), m, json)
    requires C.Open(c, d) == P.OpenedAs(c, h, c.encode(image(m)))
    ensures l.opens(m) <==> C.Open(c, d) == C.Opened(C.Effective(h, image(m)), image(m))
  {
  }

  /** It does, for every lossless codec, when its encoding is below 4 GiB. */
  lemma {:induction false} SmallOpens(
    c: C.Codec, json: Json -> seq<byte>, image: Manifest -> C.Manifest, l: Limits, m: Manifest)
    requires OpensAsWritten(c, json, image, l) && Carries(image(m), m, json) && c.Lawful()
    requires |c.encode(image(m))| < TWO32
    ensures l.opens(m)
  {
    P.ReadWhole(c, image(m));
  }

  /** From 4 GiB on the length is cut to 32 bits: unless the checksums collide, nothing opens. */
  lemma {:induction false} LargeRefused(
    c: C.Codec, json: Json -> seq<byte>, image: Manifest -> C.Manifest, l: Limits, m: Manifest,
    h: H.Header, d: seq<byte>)
    requires OpensAsWritten(c, json, image, l) && Carries(image(m), m, json)
    requires var bytes := c.encode(image(m)); |bytes| >= TWO32 && c.crc(bytes[..|bytes| % TWO32]) != c.crc(bytes)
    requires C.Open(c, d) == P.OpenedAs(c, h, c.encode(image(m)))
    ensures !l.opens(m) && C.Open(c, d) == C.BadManifest
  {
  }

  /** A codec that keeps metadata as it is, so that its output is at least as long. */
  ghost predicate Verbatim(c: C.Codec) {
    forall m: C.Manifest, n: nat :: EachAtLeast(m.metadata, n) ==> |c.encode(m)| >= |m.metadata| * n
  }

  ghost predicate EachAtLeast(values: map<u32, seq<byte>>, n: nat) {
    forall k :: k in values ==> |values[k]| >= n
  }

  /** The whole of it: a store with 4 GiB of metadata that is flushed is lost, at the first reopen and
      at every later one. The write of the manifest, its rename and the emptying of the log succeed. */
  lemma {:induction false} LargeManifestLost(
    c: C.Codec, json: Json -> seq<byte>, image: Manifest -> C.Manifest, s: State, now: nat, t: State, d: Disk)
    requires OpensAsWritten(c, json, image, s.disk.limits) && Carries(image(ManifestNow(s)), ManifestNow(s), json)
    requires var bytes := c.encode(image(ManifestNow(s)));
             |bytes| >= TWO32 && c.crc(bytes[..|bytes| % TWO32]) != c.crc(bytes)
    requires s.mem.Valid() && Enabled(s, Publish(now)) && s.phase.kind != Auto && t.mem.Valid()
    requires (t == Do(s, Publish(now)) || Truncated(s, now, t)) && CrashOutcome(t, d)
    ensures !d.Opens() && Do(t, Reopen(d)) == Closed(t, d)
  {
    UnopenedLost(s, now, t, d);
  }

  /** How many values of which length make a manifest that long. */
  lemma {:induction false} LargeMetadata(
    c: C.Codec, json: Json -> seq<byte>, image: Manifest -> C.Manifest, m: Manifest, n: nat)
    requires Verbatim(c) && Carries(image(m), m, json)
    requires forall k :: k in m.tables.meta ==> |json(m.tables.meta[k])| >= n
    requires |m.tables.meta| * n >= TWO32
    ensures |c.encode(image(m))| >= TWO32
  {
    var image' := image(m);
    assert EachAtLeast(image'.metadata, n);
    SameSize(image'.metadata, m.tables.meta);
  }

  lemma SameSize(a: map<u32, seq<byte>>, b: map<nat, Json>)
    requires forall k :: k in a <==> k in b
    ensures |a| == |b|
  {
    assert a.Keys == b.Keys;
    assert |a| == |a.Keys| && |b| == |b.Keys|;
  }
}
