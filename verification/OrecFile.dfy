/** The `.records` file as a whole: round trip, size limits and torn files. */
module OrecFiles {
  import opened Bytes
  import opened Records
  import opened Orec
  import opened OrecProofs

  lemma TrailerCut(c: Codec, dense: seq<u32>, dirty: set<u32>, rest: seq<byte>, k: nat)
    requires c.Lawful() && |dense| <= MAX_RECORD_COUNT && |c.bitmap(dirty)| <= MAX_BLOB_BYTES
    requires k <= |PrintList(PrintSlot(), dense)| + |PrintBlob(c.bitmap(dirty))| + |rest|
    ensures var s, y := PrintList(PrintSlot(), dense), PrintBlob(c.bitmap(dirty));
            Trailer(c, 3, (s + (y + rest))[..k]) ==
            if k < |s| + |y| then Failed else Got(Trail(Listed(dense), dirty, Epoch(rest[..k - |s| - |y|])), [])
  {
    var s, y := PrintList(PrintSlot(), dense), PrintBlob(c.bitmap(dirty));
    var all := (s + (y + rest))[..k];
    SlotsCut(dense, y + rest, k);
    if k >= |s| {
      var after := (y + rest)[..k - |s|];
      assert DenseSection(3, all) == Got(Listed(dense), after);
      BitmapCut(c, dirty, rest, k - |s|);
    } else {
      assert DenseSection(3, all) == Failed;
    }
  }

  lemma AfterIdsCut(c: Codec, f: Front, d: seq<byte>, m: seq<byte>, rest: seq<byte>, k: nat)
    requires d == PrintBlob(c.bitmap(f.deleted)) && m == PrintList(PrintMeta(), f.meta)
    requires c.Lawful() && |c.bitmap(f.deleted)| <= MAX_BLOB_BYTES
    requires |f.meta| <= MAX_RECORD_COUNT && (forall e <- f.meta :: |e.1| <= MAX_BLOB_BYTES)
    requires k <= |d| + |m| + |rest|
    ensures AfterIds(c, f.ids, (d + (m + rest))[..k]) == Cut(f, |d| + |m|, rest, k)
  {
    var s := (d + (m + rest))[..k];
    BitmapCut(c, f.deleted, m + rest, k);
    if k < |d| {
      assert Bitmap(c, s) == Failed;
    } else {
      var s1 := (m + rest)[..k - |d|];
      assert Bitmap(c, s) == Got(f.deleted, s1);
      MetasCut(f.meta, rest, k - |d|);
      assert List(MetaItem(), s1) == Cut(f.meta, |m|, rest, k - |d|);
    }
  }

  lemma LeadingStep(c: Codec, s: seq<byte>)
    ensures List(IdItem(c), s).Failed? ==> Leading(c, s) == Failed
    ensures List(IdItem(c), s).Got? ==> Leading(c, s) == AfterIds(c, List(IdItem(c), s).value, List(IdItem(c), s).rest)
  {
  }

  lemma LeadingIds(c: Codec, ids: seq<(string, u32)>, a: seq<byte>, r: seq<byte>, k: nat)
    requires a == PrintList(PrintId(c), ids) && c.Lawful() && |ids| <= MAX_RECORD_COUNT
    requires (forall e <- ids :: IdOk(c, e))
    requires k <= |a| + |r|
    ensures k < |a| ==> Leading(c, (a + r)[..k]) == Failed
    ensures k >= |a| ==> Leading(c, (a + r)[..k]) == AfterIds(c, ids, r[..k - |a|])
  {
    IdsCut(c, ids, r, k);
    LeadingStep(c, (a + r)[..k]);
  }

  lemma LeadingCut(c: Codec, f: Front, a: seq<byte>, d: seq<byte>, m: seq<byte>, rest: seq<byte>, k: nat)
    requires a == PrintList(PrintId(c), f.ids) && d == PrintBlob(c.bitmap(f.deleted))
    requires m == PrintList(PrintMeta(), f.meta)
    requires c.Lawful() && |f.ids| <= MAX_RECORD_COUNT && |f.meta| <= MAX_RECORD_COUNT
    requires (forall e <- f.ids :: IdOk(c, e)) && (forall e <- f.meta :: |e.1| <= MAX_BLOB_BYTES)
    requires |c.bitmap(f.deleted)| <= MAX_BLOB_BYTES && k <= |a| + |d| + |m| + |rest|
    ensures Leading(c, (a + (d + (m + rest)))[..k]) == Cut(f, |a| + (|d| + |m|), rest, k)
  {
    var r := d + (m + rest);
    if k >= |a| {
      AfterIdsCut(c, f, d, m, rest, k - |a|);
    }
    LeadingThen(c, f, a, r, |d| + |m|, rest, k);
  }

  lemma LeadingThen(c: Codec, f: Front, a: seq<byte>, r: seq<byte>, n: nat, rest: seq<byte>, k: nat)
    requires a == PrintList(PrintId(c), f.ids) && c.Lawful() && |f.ids| <= MAX_RECORD_COUNT
    requires (forall e <- f.ids :: IdOk(c, e))
    requires |r| == n + |rest| && k <= |a| + |r|
    requires k >= |a| ==> AfterIds(c, f.ids, r[..k - |a|]) == Cut(f, n, rest, k - |a|)
    ensures Leading(c, (a + r)[..k]) == Cut(f, |a| + n, rest, k)
  {
    LeadingIds(c, f.ids, a, r, k);
    if k >= |a| {
      CutShift(f, |a|, n, rest, k);
    }
  }

  lemma CutShift<T>(x: T, n: nat, more: nat, rest: seq<byte>, k: nat)
    requires n <= k <= n + more + |rest|
    ensures Cut(x, more, rest, k - n) == Cut(x, n + more, rest, k)
  {
  }

  /** The parsed form of what `w` prints. */
  function FrontOf(c: Codec, w: Written): Front {
    Front(w.ids, w.deleted, Encoded(c, w.meta))
  }

  /** What the parser makes of `k` bytes of a body of `n` bytes followed by `rest`. */
  function Torn(c: Codec, f: Front, dense: seq<u32>, dirty: set<u32>, rest: seq<byte>, n: nat, k: nat): Parsed<Snapshot>
    requires k <= n + |rest|
  {
    if k < n then Failed else Got(Assembled(c, f, Trail(Listed(dense), dirty, Epoch(rest[..k - n]))), [])
  }

  lemma PartsCut(c: Codec, f: Front, dense: seq<u32>, dirty: set<u32>, rest: seq<byte>, k: nat)
    requires c.Lawful() && |f.ids| <= MAX_RECORD_COUNT && |f.meta| <= MAX_RECORD_COUNT
    requires (forall e <- f.ids :: IdOk(c, e)) && (forall e <- f.meta :: |e.1| <= MAX_BLOB_BYTES)
    requires |c.bitmap(f.deleted)| <= MAX_BLOB_BYTES && |dense| <= MAX_RECORD_COUNT
    requires |c.bitmap(dirty)| <= MAX_BLOB_BYTES
    requires k <= |FrontBytes(c, f)| + |LastBytes(c, dense, dirty)| + |rest|
    ensures var n := |FrontBytes(c, f)| + |LastBytes(c, dense, dirty)|;
            Sections(c, 3, (FrontBytes(c, f) + (LastBytes(c, dense, dirty) + rest))[..k])
            == Torn(c, f, dense, dirty, rest, n, k)
  {
    var a, d, m := PrintList(PrintId(c), f.ids), PrintBlob(c.bitmap(f.deleted)), PrintList(PrintMeta(), f.meta);
    var s, y := PrintList(PrintSlot(), dense), PrintBlob(c.bitmap(dirty));
    var tail := LastBytes(c, dense, dirty) + rest;
    Assoc(a, d + m, tail);
    Assoc(d, m, tail);
    LeadingCut(c, f, a, d, m, tail, k);
    var n := |FrontBytes(c, f)|;
    var data := (FrontBytes(c, f) + tail)[..k];
    if k < n {
      assert Leading(c, data) == Failed;
    } else {
      assert Leading(c, data) == Got(f, tail[..k - n]);
      Assoc(s, y, rest);
      TrailerCut(c, dense, dirty, rest, k - n);
      assert Sections(c, 3, data) == AfterFront(c, 3, f, tail[..k - n]);
    }
  }

  lemma BodyCut(c: Codec, f: Front, dense: seq<u32>, dirty: set<u32>, body: seq<byte>, rest: seq<byte>, k: nat)
    requires c.Lawful() && |f.ids| <= MAX_RECORD_COUNT && |f.meta| <= MAX_RECORD_COUNT
    requires (forall e <- f.ids :: IdOk(c, e)) && (forall e <- f.meta :: |e.1| <= MAX_BLOB_BYTES)
    requires |c.bitmap(f.deleted)| <= MAX_BLOB_BYTES && |dense| <= MAX_RECORD_COUNT
    requires |c.bitmap(dirty)| <= MAX_BLOB_BYTES
    requires body == FrontBytes(c, f) + LastBytes(c, dense, dirty) && k <= |body| + |rest|
    ensures Sections(c, 3, (body + rest)[..k]) == Torn(c, f, dense, dirty, rest, |body|, k)
  {
    Assoc(FrontBytes(c, f), LastBytes(c, dense, dirty), rest);
    PartsCut(c, f, dense, dirty, rest, k);
  }

  lemma SectionsCut(c: Codec, w: Written, rest: seq<byte>, k: nat)
    requires c.Lawful() && w.Within(c) && k <= |w.Body(c)| + |rest|
    ensures Sections(c, 3, (w.Body(c) + rest)[..k]) == Torn(c, FrontOf(c, w), w.dense, w.dirty, rest, |w.Body(c)|, k)
  {
    WithinParts(c, w);
    BodyCut(c, FrontOf(c, w), w.dense, w.dirty, w.Body(c), rest, k);
  }

  lemma WithinParts(c: Codec, w: Written)
    requires w.Within(c)
    ensures var f := FrontOf(c, w);
            && |f.ids| <= MAX_RECORD_COUNT && |f.meta| <= MAX_RECORD_COUNT
            && (forall e <- f.ids :: IdOk(c, e)) && (forall e <- f.meta :: |e.1| <= MAX_BLOB_BYTES)
            && |c.bitmap(f.deleted)| <= MAX_BLOB_BYTES && |w.dense| <= MAX_RECORD_COUNT
            && |c.bitmap(w.dirty)| <= MAX_BLOB_BYTES
  {
  }

  // ------------------------------------------------------- the size limits

  lemma U32Full(n: nat, rest: seq<byte>)
    requires n < TWO32
    ensures U32(LE(n, 4) + rest) == Got(n, rest)
  {
    var s := LE(n, 4) + rest;
    U32Cut(n, rest, |s|);
    assert s[..|s|] == s;
  }

  lemma ListTooLong<T>(item: Parser<T>, show: T -> seq<byte>, xs: seq<T>, rest: seq<byte>)
    requires MAX_RECORD_COUNT < |xs| < TWO32
    ensures List(item, PrintList(show, xs) + rest) == Absent
  {
    U32Full(|xs|, Each(show, xs) + rest);
    assert PrintList(show, xs) + rest == LE(|xs|, 4) + (Each(show, xs) + rest);
  }

  lemma IdsTooBig(c: Codec, ids: seq<(string, u32)>, rest: seq<byte>)
    requires c.Lawful() && |ids| < TWO32 && (forall e <- ids :: |c.text(e.0)| < TWO32)
    requires |ids| > MAX_RECORD_COUNT || exists e <- ids :: !IdOk(c, e)
    ensures List(IdItem(c), PrintList(PrintId(c), ids) + rest) == Absent
  {
    if |ids| > MAX_RECORD_COUNT {
      ListTooLong(IdItem(c), PrintId(c), ids, rest);
    } else {
      var bad: nat :| bad < |ids| && !IdOk(c, ids[bad]);
      forall e <- ids ensures Cuts(IdItem(c), PrintId(c), e) || Refuses(IdItem(c), PrintId(c), e) {
        if IdOk(c, e) { IdCuts(c, e); } else { IdRefuses(c, e); }
      }
      IdRefuses(c, ids[bad]);
      ListRefuses(IdItem(c), PrintId(c), ids, bad, rest);
    }
  }

  lemma MetasTooBig(meta: seq<(u32, seq<byte>)>, rest: seq<byte>)
    requires |meta| < TWO32 && (forall e <- meta :: |e.1| < TWO32)
    requires |meta| > MAX_RECORD_COUNT || exists e <- meta :: |e.1| > MAX_BLOB_BYTES
    ensures List(MetaItem(), PrintList(PrintMeta(), meta) + rest) == Absent
  {
    if |meta| > MAX_RECORD_COUNT {
      ListTooLong(MetaItem(), PrintMeta(), meta, rest);
    } else {
      var bad: nat :| bad < |meta| && |meta[bad].1| > MAX_BLOB_BYTES;
      forall e <- meta ensures Cuts(MetaItem(), PrintMeta(), e) || Refuses(MetaItem(), PrintMeta(), e) {
        if |e.1| <= MAX_BLOB_BYTES { MetaCuts(e); } else { MetaRefuses(e); }
      }
      MetaRefuses(meta[bad]);
      ListRefuses(MetaItem(), PrintMeta(), meta, bad, rest);
    }
  }

  lemma IdsFull(c: Codec, ids: seq<(string, u32)>, rest: seq<byte>)
    requires c.Lawful() && |ids| < TWO32 && (forall e <- ids :: |c.text(e.0)| < TWO32)
    ensures List(IdItem(c), PrintList(PrintId(c), ids) + rest) ==
            if |ids| <= MAX_RECORD_COUNT && forall e <- ids :: IdOk(c, e) then Got(ids, rest) else Absent
  {
    if |ids| <= MAX_RECORD_COUNT && forall e <- ids :: IdOk(c, e) {
      var s := PrintList(PrintId(c), ids) + rest;
      IdsCut(c, ids, rest, |s|);
      assert s[..|s|] == s && rest[..|rest|] == rest;
    } else {
      IdsTooBig(c, ids, rest);
    }
  }

  lemma MetasFull(meta: seq<(u32, seq<byte>)>, rest: seq<byte>)
    requires |meta| < TWO32 && (forall e <- meta :: |e.1| < TWO32)
    ensures List(MetaItem(), PrintList(PrintMeta(), meta) + rest) ==
            if |meta| <= MAX_RECORD_COUNT && forall e <- meta :: |e.1| <= MAX_BLOB_BYTES
            then Got(meta, rest) else Absent
  {
    if |meta| <= MAX_RECORD_COUNT && forall e <- meta :: |e.1| <= MAX_BLOB_BYTES {
      var s := PrintList(PrintMeta(), meta) + rest;
      MetasCut(meta, rest, |s|);
      assert s[..|s|] == s && rest[..|rest|] == rest;
    } else {
      MetasTooBig(meta, rest);
    }
  }

  lemma BitmapFull(c: Codec, x: set<u32>, rest: seq<byte>)
    requires c.Lawful() && |c.bitmap(x)| < TWO32
    ensures Bitmap(c, PrintBlob(c.bitmap(x)) + rest) == if |c.bitmap(x)| <= MAX_BLOB_BYTES then Got(x, rest) else Absent
  {
    var s := PrintBlob(c.bitmap(x)) + rest;
    BitmapCut(c, x, rest, |s|);
    assert s[..|s|] == s && rest[..|rest|] == rest;
  }

  lemma SlotsFull(slots: seq<u32>, rest: seq<byte>)
    requires |slots| < TWO32
    ensures DenseSection(3, PrintList(PrintSlot(), slots) + rest) ==
            if |slots| <= MAX_RECORD_COUNT then Got(Listed(slots), rest) else Absent
  {
    var s := PrintList(PrintSlot(), slots) + rest;
    SlotsCut(slots, rest, |s|);
    assert s[..|s|] == s && rest[..|rest|] == rest;
  }

  ghost predicate FrontOk(c: Codec, f: Front) {
    && |f.ids| <= MAX_RECORD_COUNT && |f.meta| <= MAX_RECORD_COUNT && |c.bitmap(f.deleted)| <= MAX_BLOB_BYTES
    && (forall e <- f.ids :: IdOk(c, e)) && (forall e <- f.meta :: |e.1| <= MAX_BLOB_BYTES)
  }

  lemma {:induction false} LeadingFull(c: Codec, f: Front, tail: seq<byte>)
    requires c.Lawful() && |f.ids| < TWO32 && |f.meta| < TWO32 && |c.bitmap(f.deleted)| < TWO32
    requires (forall e <- f.ids :: |c.text(e.0)| < TWO32) && (forall e <- f.meta :: |e.1| < TWO32)
    ensures Leading(c, FrontBytes(c, f) + tail) == if FrontOk(c, f) then Got(f, tail) else Absent
  {
    var a, d, m := PrintList(PrintId(c), f.ids), PrintBlob(c.bitmap(f.deleted)), PrintList(PrintMeta(), f.meta);
    Assoc(a, d + m, tail);
    Assoc(d, m, tail);
    IdsFull(c, f.ids, d + (m + tail));
    if |f.ids| <= MAX_RECORD_COUNT && forall e <- f.ids :: IdOk(c, e) {
      assert Leading(c, FrontBytes(c, f) + tail) == AfterIds(c, f.ids, d + (m + tail));
      BitmapFull(c, f.deleted, m + tail);
      if |c.bitmap(f.deleted)| <= MAX_BLOB_BYTES {
        MetasFull(f.meta, tail);
      }
    }
  }

  lemma TrailerTooBig(c: Codec, dense: seq<u32>, dirty: set<u32>, rest: seq<byte>)
    requires c.Lawful() && |dense| < TWO32 && |c.bitmap(dirty)| < TWO32
    requires |dense| > MAX_RECORD_COUNT || |c.bitmap(dirty)| > MAX_BLOB_BYTES
    ensures Trailer(c, 3, LastBytes(c, dense, dirty) + rest) == Absent
  {
    var s, y := PrintList(PrintSlot(), dense), PrintBlob(c.bitmap(dirty));
    Assoc(s, y, rest);
    SlotsFull(dense, y + rest);
    if |dense| <= MAX_RECORD_COUNT {
      BitmapFull(c, dirty, rest);
    }
  }

  /** A file over any limit is taken for a missing one, wherever the limit is passed. */
  lemma {:induction false} SectionsTooBig(c: Codec, w: Written, rest: seq<byte>)
    requires c.Lawful() && w.Fits(c) && !w.Within(c)
    ensures Sections(c, 3, w.Body(c) + rest) == Absent
  {
    var f, last := FrontOf(c, w), LastBytes(c, w.dense, w.dirty);
    Assoc(FrontBytes(c, f), last, rest);
    LeadingFull(c, f, last + rest);
    if FrontOk(c, f) {
      assert |w.dense| > MAX_RECORD_COUNT || |c.bitmap(w.dirty)| > MAX_BLOB_BYTES;
      TrailerTooBig(c, w.dense, w.dirty, rest);
    }
  }

  // ------------------------------------------------------------ whole files

  lemma PrintParts(c: Codec, w: Written, tail: seq<byte>)
    ensures w.Print(c) + tail == MAGIC + LE(3, 4) + (w.Body(c) + (LE(w.epoch, 8) + tail))
    ensures |w.Print(c)| == 8 + |w.Body(c)| + 8
  {
    var h, b, e := MAGIC + LE(3, 4), w.Body(c), LE(w.epoch, 8);
    Assoc(h + b, e, tail);
    Assoc(h, b, e + tail);
  }

  lemma LoadSections(c: Codec, b: seq<byte>, k: nat)
    requires 8 <= k <= 8 + |b|
    ensures Load(c, (MAGIC + LE(3, 4) + b)[..k]) == Outcome(Sections(c, 3, b[..k - 8]))
  {
    HeaderCut(b, k);
  }

  lemma Slices(m: seq<byte>, v: seq<byte>, b: seq<byte>, k: nat)
    requires |m| == 4 && |v| == 4 && 8 <= k <= 8 + |b|
    ensures var data := (m + v + b)[..k]; data[..4] == m && data[4..8] == v && data[8..] == b[..k - 8]
  {
  }

  lemma HeaderCut(b: seq<byte>, k: nat)
    requires 8 <= k <= 8 + |b|
    ensures var data := (MAGIC + LE(3, 4) + b)[..k];
            data[..4] == MAGIC && UnLE32(data[4..8]) == 3 && data[8..] == b[..k - 8]
  {
    Slices(MAGIC, LE(3, 4), b, k);
    Exact32(3);
  }

  lemma EpochCut(epoch: u64, tail: seq<byte>, k: nat)
    requires k <= 8 + |tail|
    ensures Epoch((LE(epoch, 8) + tail)[..k]) == if k < 8 then 0 else epoch
  {
    if k >= 8 {
      assert (LE(epoch, 8) + tail)[..k][..8] == LE(epoch, 8);
      RoundTrip64(epoch);
    }
  }

  /** A load that reaches the sections of a written body. */
  lemma OutcomeCut(c: Codec, w: Written, rest: seq<byte>, k: nat, loaded: Loaded)
    requires c.Lawful() && w.Within(c) && k <= |w.Body(c)| + |rest|
    requires loaded == Outcome(Sections(c, 3, (w.Body(c) + rest)[..k]))
    ensures k < |w.Body(c)| ==> loaded == IoError
    ensures k >= |w.Body(c)| ==>
              loaded == Found(Assembled(c, FrontOf(c, w),
                                     Trail(Listed(w.dense), w.dirty, Epoch(rest[..k - |w.Body(c)|]))))
  {
    SectionsCut(c, w, rest, k);
  }

  lemma PrintedCut(c: Codec, w: Written, tail: seq<byte>, k: nat)
    requires 8 <= k <= |w.Print(c)| + |tail|
    ensures Load(c, (w.Print(c) + tail)[..k]) == Outcome(Sections(c, 3, (w.Body(c) + (LE(w.epoch, 8) + tail))[..k - 8]))
  {
    PrintParts(c, w, tail);
    LoadSections(c, w.Body(c) + (LE(w.epoch, 8) + tail), k);
  }

  /** Every cut of a written file, and a whole file followed by anything. */
  lemma {:induction false} LoadCut(c: Codec, w: Written, tail: seq<byte>, k: nat)
    requires c.Lawful() && w.Within(c) && k <= |w.Print(c)| + |tail|
    ensures Load(c, (w.Print(c) + tail)[..k]) ==
            if k < 8 then Missing
            else if k < |w.Print(c)| - 8 then IoError
            else Found(Assembled(c, FrontOf(c, w),
              Trail(Listed(w.dense), w.dirty, if k < |w.Print(c)| then 0 else w.epoch)))
  {
    if k >= 8 {
      PrintedLength(c, w);
      PrintedCut(c, w, tail, k);
      TornOrWhole(c, w, tail, k - 8, Load(c, (w.Print(c) + tail)[..k]));
    }
  }

  lemma TornOrWhole(c: Codec, w: Written, tail: seq<byte>, k: nat, loaded: Loaded)
    requires c.Lawful() && w.Within(c) && k <= |w.Body(c)| + 8 + |tail|
    requires loaded == Outcome(Sections(c, 3, (w.Body(c) + (LE(w.epoch, 8) + tail))[..k]))
    ensures loaded == if k < |w.Body(c)| then IoError
                      else Found(Assembled(c, FrontOf(c, w),
                        Trail(Listed(w.dense), w.dirty, if k < |w.Body(c)| + 8 then 0 else w.epoch)))
  {
    OutcomeCut(c, w, LE(w.epoch, 8) + tail, k, loaded);
    if k >= |w.Body(c)| {
      EpochCut(w.epoch, tail, k - |w.Body(c)|);
    }
  }

  lemma PrintedLength(c: Codec, w: Written)
    ensures |w.Print(c)| == 8 + |w.Body(c)| + 8
  {
  }

  lemma LoadTooBig(c: Codec, w: Written, tail: seq<byte>)
    requires c.Lawful() && w.Fits(c) && !w.Within(c)
    ensures Load(c, w.Print(c) + tail) == Missing
  {
    var b := w.Body(c) + (LE(w.epoch, 8) + tail);
    var data := w.Print(c) + tail;
    PrintParts(c, w, tail);
    assert data[..|data|] == data && b[..|b|] == b;
    LoadSections(c, b, |data|);
    SectionsTooBig(c, w, LE(w.epoch, 8) + tail);
  }

  lemma {:induction false} InsertedLookup<K, V>(pairs: seq<(K, V)>)
    requires forall i, j :: 0 <= i < j < |pairs| ==> pairs[i].0 != pairs[j].0
    ensures forall e <- pairs :: e.0 in Inserted(pairs) && Inserted(pairs)[e.0] == e.1
    ensures forall k <- Inserted(pairs) :: (k, Inserted(pairs)[k]) in pairs
  {
    if pairs != [] {
      var n := |pairs| - 1;
      InsertedLookup(pairs[..n]);
      assert pairs == pairs[..n] + [pairs[n]];
    }
  }

  lemma {:induction false} EnumeratedInserted<K, V>(pairs: seq<(K, V)>, m: map<K, V>)
    requires Enumerates(pairs, m)
    ensures Inserted(pairs) == m
  {
    InsertedLookup(pairs);
    forall k <- Inserted(pairs) ensures k in m && m[k] == Inserted(pairs)[k] {
      assert (k, Inserted(pairs)[k]) in pairs;
    }
    forall k <- m ensures k in Inserted(pairs) {
      assert (k, m[k]) in pairs;
    }
  }

  lemma {:induction false} JsonInserted(c: Codec, meta: seq<(u32, Json)>)
    requires c.Lawful()
    ensures InsertedJson(c, Encoded(c, meta)) == Inserted(meta)
  {
    if meta != [] {
      var n := |meta| - 1;
      assert Encoded(c, meta)[..n] == Encoded(c, meta[..n]);
      JsonInserted(c, meta[..n]);
      assert c.unjson(c.json(meta[n].1)) == Some(meta[n].1);
    }
  }

  /** Round trip: whatever order the maps were written in, loading gives the snapshot back exactly when
      every part is within the loader's limits; beyond them it reports no file. */
  lemma {:induction false} LoadWritten(c: Codec, w: Written, s: Snapshot, tail: seq<byte>)
    requires c.Lawful() && w.Orders(s) && w.Fits(c)
    ensures Load(c, w.Print(c) + tail) == if w.Within(c) then Found(s) else Missing
  {
    if w.Within(c) {
      var data := w.Print(c) + tail;
      assert data[..|data|] == data;
      LoadCut(c, w, tail, |data|);
      EnumeratedInserted(w.ids, s.ids);
      EnumeratedInserted(w.meta, s.metadata);
      JsonInserted(c, w.meta);
    } else {
      LoadTooBig(c, w, tail);
    }
  }

  /** A strict prefix loads only when the cut is inside the trailing epoch, and then with epoch 0. */
  lemma {:induction false} LoadPrefix(c: Codec, w: Written, s: Snapshot, k: nat)
    requires c.Lawful() && w.Orders(s) && w.Within(c) && k < |w.Print(c)|
    ensures Load(c, w.Print(c)[..k]) ==
            if k < 8 then Missing else if k < |w.Print(c)| - 8 then IoError else Found(s.(epoch := 0))
  {
    assert (w.Print(c) + [])[..k] == w.Print(c)[..k];
    LoadCut(c, w, [], k);
    EnumeratedInserted(w.ids, s.ids);
    EnumeratedInserted(w.meta, s.metadata);
    JsonInserted(c, w.meta);
  }

  lemma {:induction false} EnumeratedSize<K, V>(pairs: seq<(K, V)>, m: map<K, V>)
    requires Enumerates(pairs, m)
    ensures |pairs| == |m|
  {
    if pairs == [] {
      assert m == map[];
    } else {
      var n := |pairs| - 1;
      var front, k := pairs[..n], pairs[n].0;
      assert pairs == front + [pairs[n]];
      assert pairs[n] in pairs;
      EnumeratedRest(front, pairs[n], m);
      EnumeratedSize(front, m - {k});
      assert (m - {k}).Keys == m.Keys - {k};
      assert |m.Keys| == |m| && |(m - {k}).Keys| == |m - {k}|;
    }
  }

  lemma EnumeratedRest<K, V>(front: seq<(K, V)>, last: (K, V), m: map<K, V>)
    requires Enumerates(front + [last], m)
    ensures Enumerates(front, m - {last.0})
  {
    var pairs := front + [last];
    forall i, j | 0 <= i < j < |front| ensures front[i].0 != front[j].0 {
      assert pairs[i].0 != pairs[j].0;
    }
    forall e <- front ensures e.0 in m && e.0 != last.0 && m[e.0] == e.1 {
      var i :| 0 <= i < |front| && front[i] == e;
      assert pairs[i] == e && pairs[i].0 != pairs[|front|].0;
      assert e in pairs;
    }
    forall k <- m | k != last.0 ensures (k, m[k]) in front {
      assert (k, m[k]) in pairs;
    }
  }

  /** The encoded lengths met along an enumeration are those of the map's entries. */
  lemma SameIdLengths(c: Codec, ids: seq<(string, u32)>, m: map<string, u32>, n: nat)
    requires Enumerates(ids, m)
    ensures (forall e <- ids :: |c.text(e.0)| <= n) <==> (forall id <- m :: |c.text(id)| <= n)
  {
    forall id <- m ensures (id, m[id]) in ids {}
  }

  lemma SameJsonLengths(c: Codec, meta: seq<(u32, Json)>, m: map<u32, Json>, n: nat)
    requires Enumerates(meta, m)
    ensures (forall e <- Encoded(c, meta) :: |e.1| <= n) <==> (forall slot <- m :: |c.json(m[slot])| <= n)
  {
    forall slot <- m ensures (slot, c.json(m[slot])) in Encoded(c, meta) {
      assert (slot, m[slot]) in meta;
      var i :| 0 <= i < |meta| && meta[i] == (slot, m[slot]);
      assert Encoded(c, meta)[i] == (slot, c.json(m[slot]));
    }
    forall e <- Encoded(c, meta) ensures e.0 in m && e.1 == c.json(m[e.0]) {
      var i :| 0 <= i < |meta| && Encoded(c, meta)[i] == e;
      assert meta[i] in meta;
    }
  }

  /** A snapshot is within the limits in one order exactly when it is in every order. */
  lemma AnyOrder(c: Codec, w: Written, s: Snapshot)
    requires w.Orders(s)
    ensures w.Within(c) <==> Loadable(c, s)
  {
    EnumeratedSize(w.ids, s.ids);
    EnumeratedSize(w.meta, s.metadata);
    SameIdLengths(c, w.ids, s.ids, MAX_ID_LEN);
    SameJsonLengths(c, w.meta, s.metadata, MAX_BLOB_BYTES);
  }

  lemma FitsAnyOrder(c: Codec, w: Written, s: Snapshot)
    requires w.Orders(s) && Castable(c, s)
    ensures w.Fits(c)
  {
    EnumeratedSize(w.ids, s.ids);
    EnumeratedSize(w.meta, s.metadata);
    SameIdLengths(c, w.ids, s.ids, TWO32 - 1);
    SameJsonLengths(c, w.meta, s.metadata, TWO32 - 1);
  }
}
