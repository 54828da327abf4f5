/** What loading a written, cut or extended `.records` file gives. */
module OrecProofs {
  import opened Bytes
  import opened Records
  import opened Orec

  /** Reading `x`, printed on `n` bytes and followed by `rest`, when the file ends after `k` bytes. */
  function Cut<T>(x: T, n: nat, rest: seq<byte>, k: nat): Parsed<T>
    requires k <= n + |rest|
  {
    if k < n then Failed else Got(x, rest[..k - n])
  }

  ghost predicate Cuts<T>(item: Parser<T>, show: T -> seq<byte>, x: T) {
    forall rest: seq<byte>, k: nat | k <= |show(x)| + |rest| ::
      item((show(x) + rest)[..k]) == Cut(x, |show(x)|, rest, k)
  }

  ghost predicate Refuses<T>(item: Parser<T>, show: T -> seq<byte>, x: T) {
    forall rest: seq<byte> :: item(show(x) + rest) == Absent
  }

  lemma U32Cut(n: nat, rest: seq<byte>, k: nat)
    requires n < TWO32 && k <= 4 + |rest|
    ensures U32((LE(n, 4) + rest)[..k]) == Cut(n, 4, rest, k)
  {
    var s := (LE(n, 4) + rest)[..k];
    if k >= 4 {
      assert s[..4] == LE(n, 4) && s[4..] == rest[..k - 4];
      RoundTrip32(n);
    }
  }

  lemma BlobCut(max: nat, b: seq<byte>, rest: seq<byte>, k: nat)
    requires |b| < TWO32 && k <= 4 + |b| + |rest|
    ensures Blob(max, (PrintBlob(b) + rest)[..k]) ==
            if k >= 4 && |b| > max then Absent else Cut(b, 4 + |b|, rest, k)
  {
    U32Cut(|b|, b + rest, k);
    assert PrintBlob(b) + rest == LE(|b|, 4) + (b + rest);
    if k >= 4 + |b| {
      assert (b + rest)[..k - 4][..|b|] == b;
      assert (b + rest)[..k - 4][|b|..] == rest[..k - 4 - |b|];
    }
  }

  lemma BitmapCut(c: Codec, x: set<u32>, rest: seq<byte>, k: nat)
    requires c.Lawful() && |c.bitmap(x)| < TWO32
    requires k <= |PrintBlob(c.bitmap(x))| + |rest|
    ensures Bitmap(c, (PrintBlob(c.bitmap(x)) + rest)[..k]) ==
            if k >= 4 && |c.bitmap(x)| > MAX_BLOB_BYTES then Absent else Cut(x, |PrintBlob(c.bitmap(x))|, rest, k)
  {
    BlobCut(MAX_BLOB_BYTES, c.bitmap(x), rest, k);
  }

  lemma IdCut(c: Codec, e: (string, u32), rest: seq<byte>, k: nat)
    requires c.Lawful() && |c.text(e.0)| < TWO32 && k <= |ShowId(c, e)| + |rest|
    ensures IdEntry(c, (ShowId(c, e) + rest)[..k]) ==
            if k >= 4 && |c.text(e.0)| > MAX_ID_LEN then Absent else Cut(e, |ShowId(c, e)|, rest, k)
  {
    var b, tail := c.text(e.0), LE(e.1, 4) + rest;
    BlobCut(MAX_ID_LEN, b, tail, k);
    assert ShowId(c, e) + rest == PrintBlob(b) + tail;
    if k >= 4 + |b| && |b| <= MAX_ID_LEN {
      var m := k - 4 - |b|;
      U32Cut(e.1, rest, m);
      assert e == (e.0, e.1);
    }
  }

  lemma MetaCut(e: (u32, seq<byte>), rest: seq<byte>, k: nat)
    requires |e.1| < TWO32 && k <= |ShowMeta(e)| + |rest|
    ensures MetaEntry((ShowMeta(e) + rest)[..k]) ==
            if k >= 8 && |e.1| > MAX_BLOB_BYTES then Absent else Cut(e, |ShowMeta(e)|, rest, k)
  {
    var tail := PrintBlob(e.1) + rest;
    U32Cut(e.0, tail, k);
    assert ShowMeta(e) + rest == LE(e.0, 4) + tail;
    if k >= 4 {
      BlobCut(MAX_BLOB_BYTES, e.1, rest, k - 4);
      assert e == (e.0, e.1);
    }
  }

  lemma {:induction false} ManyCut<T(!new)>(item: Parser<T>, show: T -> seq<byte>, xs: seq<T>, rest: seq<byte>,
      k: nat, acc: seq<T>)
    requires forall x <- xs :: Cuts(item, show, x)
    requires forall x <- xs :: |show(x)| > 0
    requires k <= |Each(show, xs)| + |rest|
    ensures Many(item, |xs|, (Each(show, xs) + rest)[..k], acc) == Cut(acc + xs, |Each(show, xs)|, rest, k)
    decreases |xs|
  {
    if xs == [] {
      assert (Each(show, xs) + rest)[..k] == rest[..k];
      assert acc + xs == acc;
    } else {
      var x, tail := xs[0], Each(show, xs[1..]) + rest;
      assert Each(show, xs) + rest == show(x) + tail;
      assert Cuts(item, show, x);
      assert item((show(x) + tail)[..k]) == Cut(x, |show(x)|, tail, k);
      if k >= |show(x)| {
        ManyCut(item, show, xs[1..], rest, k - |show(x)|, acc + [x]);
        assert acc + [x] + xs[1..] == acc + xs;
      }
    }
  }

  /** One item over its size limit makes the whole list unreadable. */
  lemma {:induction false} ManyRefuses<T(!new)>(item: Parser<T>, show: T -> seq<byte>, xs: seq<T>, bad: nat,
      rest: seq<byte>, acc: seq<T>)
    requires bad < |xs| && Refuses(item, show, xs[bad])
    requires forall x <- xs :: Cuts(item, show, x) || Refuses(item, show, x)
    ensures Many(item, |xs|, Each(show, xs) + rest, acc) == Absent
    decreases |xs|
  {
    var x, tail := xs[0], Each(show, xs[1..]) + rest;
    assert Each(show, xs) + rest == show(x) + tail;
    if Refuses(item, show, x) {
      assert item(show(x) + tail) == Absent;
    } else {
      assert (show(x) + tail)[..|show(x) + tail|] == show(x) + tail;
      assert item(show(x) + tail) == Cut(x, |show(x)|, tail, |show(x) + tail|);
      assert tail[..|tail|] == tail;
      ManyRefuses(item, show, xs[1..], bad - 1, rest, acc + [x]);
    }
  }

  lemma ListCut<T(!new)>(item: Parser<T>, show: T -> seq<byte>, xs: seq<T>, rest: seq<byte>, k: nat)
    requires |xs| < TWO32
    requires forall x <- xs :: Cuts(item, show, x)
    requires forall x <- xs :: |show(x)| > 0
    requires k <= |PrintList(show, xs)| + |rest|
    ensures List(item, (PrintList(show, xs) + rest)[..k]) ==
            if k >= 4 && |xs| > MAX_RECORD_COUNT then Absent else Cut(xs, |PrintList(show, xs)|, rest, k)
  {
    U32Cut(|xs|, Each(show, xs) + rest, k);
    assert PrintList(show, xs) + rest == LE(|xs|, 4) + (Each(show, xs) + rest);
    if k >= 4 {
      ManyCut(item, show, xs, rest, k - 4, []);
      assert [] + xs == xs;
    }
  }

  lemma ListRefuses<T(!new)>(item: Parser<T>, show: T -> seq<byte>, xs: seq<T>, bad: nat, rest: seq<byte>)
    requires bad < |xs| < TWO32 && Refuses(item, show, xs[bad])
    requires forall x <- xs :: Cuts(item, show, x) || Refuses(item, show, x)
    ensures List(item, PrintList(show, xs) + rest) == Absent
  {
    var s := PrintList(show, xs) + rest;
    assert s == LE(|xs|, 4) + (Each(show, xs) + rest);
    assert s[..|s|] == s;
    U32Cut(|xs|, Each(show, xs) + rest, |s|);
    if |xs| <= MAX_RECORD_COUNT {
      ManyRefuses(item, show, xs, bad, rest, []);
      assert (Each(show, xs) + rest)[..|s| - 4] == Each(show, xs) + rest;
    }
  }

  // ------------------------------------------------------------ the sections

  ghost predicate IdOk(c: Codec, e: (string, u32)) {
    |c.text(e.0)| <= MAX_ID_LEN
  }

  lemma IdsCut(c: Codec, ids: seq<(string, u32)>, rest: seq<byte>, k: nat)
    requires c.Lawful() && |ids| < TWO32 && (forall e <- ids :: IdOk(c, e))
    requires k <= |PrintList(PrintId(c), ids)| + |rest|
    ensures List(IdItem(c), (PrintList(PrintId(c), ids) + rest)[..k]) ==
            if k >= 4 && |ids| > MAX_RECORD_COUNT then Absent else Cut(ids, |PrintList(PrintId(c), ids)|, rest, k)
  {
    forall e <- ids ensures Cuts(IdItem(c), PrintId(c), e) {
      IdCuts(c, e);
    }
    ListCut(IdItem(c), PrintId(c), ids, rest, k);
  }

  lemma IdCuts(c: Codec, e: (string, u32))
    requires c.Lawful() && IdOk(c, e)
    ensures Cuts(IdItem(c), PrintId(c), e)
  {
    forall rest: seq<byte>, k: nat | k <= |ShowId(c, e)| + |rest|
      ensures IdEntry(c, (ShowId(c, e) + rest)[..k]) == Cut(e, |ShowId(c, e)|, rest, k)
    {
      IdCut(c, e, rest, k);
    }
  }

  lemma IdRefuses(c: Codec, e: (string, u32))
    requires c.Lawful() && !IdOk(c, e) && |c.text(e.0)| < TWO32
    ensures Refuses(IdItem(c), PrintId(c), e)
  {
    forall rest: seq<byte> ensures IdEntry(c, ShowId(c, e) + rest) == Absent {
      var s := ShowId(c, e) + rest;
      assert s[..|s|] == s;
      IdCut(c, e, rest, |s|);
    }
  }

  lemma MetaCuts(e: (u32, seq<byte>))
    requires |e.1| <= MAX_BLOB_BYTES
    ensures Cuts(MetaItem(), PrintMeta(), e)
  {
    forall rest: seq<byte>, k: nat | k <= |ShowMeta(e)| + |rest|
      ensures MetaEntry((ShowMeta(e) + rest)[..k]) == Cut(e, |ShowMeta(e)|, rest, k)
    {
      MetaCut(e, rest, k);
    }
  }

  lemma MetaRefuses(e: (u32, seq<byte>))
    requires MAX_BLOB_BYTES < |e.1| < TWO32
    ensures Refuses(MetaItem(), PrintMeta(), e)
  {
    forall rest: seq<byte> ensures MetaEntry(ShowMeta(e) + rest) == Absent {
      var s := ShowMeta(e) + rest;
      assert s[..|s|] == s;
      MetaCut(e, rest, |s|);
    }
  }

  lemma MetasCut(meta: seq<(u32, seq<byte>)>, rest: seq<byte>, k: nat)
    requires |meta| < TWO32 && (forall e <- meta :: |e.1| <= MAX_BLOB_BYTES)
    requires k <= |PrintList(PrintMeta(), meta)| + |rest|
    ensures List(MetaItem(), (PrintList(PrintMeta(), meta) + rest)[..k]) ==
            if k >= 4 && |meta| > MAX_RECORD_COUNT then Absent else Cut(meta, |PrintList(PrintMeta(), meta)|, rest, k)
  {
    forall e <- meta ensures Cuts(MetaItem(), PrintMeta(), e) {
      MetaCuts(e);
    }
    ListCut(MetaItem(), PrintMeta(), meta, rest, k);
  }

  lemma SlotsCut(slots: seq<u32>, rest: seq<byte>, k: nat)
    requires |slots| < TWO32
    requires k <= |PrintList(PrintSlot(), slots)| + |rest|
    ensures DenseSection(3, (PrintList(PrintSlot(), slots) + rest)[..k]) ==
            if k >= 4 && |slots| > MAX_RECORD_COUNT then Absent
            else Cut(Listed(slots), |PrintList(PrintSlot(), slots)|, rest, k)
  {
    forall slot <- slots ensures Cuts(SlotItem(), PrintSlot(), slot) {
      SlotCuts(slot);
    }
    ListCut(SlotItem(), PrintSlot(), slots, rest, k);
  }

  lemma SlotCuts(slot: u32)
    ensures Cuts(SlotItem(), PrintSlot(), slot)
  {
    forall rest: seq<byte>, k: nat | k <= 4 + |rest|
      ensures U32((LE(slot, 4) + rest)[..k]) == Cut(slot, 4, rest, k)
    {
      U32Cut(slot, rest, k);
    }
  }
}
