/** Writing and reading the `.records` file step by step. */
module OrecIO {
  import opened Bytes
  import opened Records
  import opened Orec
  import OrecFiles

  // ---------------------------------------------------------------- writing

  lemma {:induction false} EachAppend<T>(show: T -> seq<byte>, xs: seq<T>, x: T)
    ensures Each(show, xs + [x]) == Each(show, xs) + show(x)
  {
    if xs == [] {
      assert xs + [x] == [x] && [x][1..] == [];
    } else {
      EachAppend(show, xs[1..], x);
      assert (xs + [x])[1..] == xs[1..] + [x];
    }
  }

  lemma EncodedAppend(c: Codec, meta: seq<(u32, Json)>, slot: u32, value: Json)
    ensures Encoded(c, meta + [(slot, value)]) == Encoded(c, meta) + [(slot, c.json(value))]
  {
  }

  lemma InsertedAppend<K, V>(pairs: seq<(K, V)>, k: K, v: V)
    ensures Inserted(pairs + [(k, v)]) == Inserted(pairs)[k := v]
  {
    assert (pairs + [(k, v)])[..|pairs|] == pairs;
  }

  lemma InsertedJsonAppend(c: Codec, pairs: seq<(u32, seq<byte>)>, e: (u32, seq<byte>))
    ensures InsertedJson(c, pairs + [e]) ==
            if c.unjson(e.1).None? then InsertedJson(c, pairs) else InsertedJson(c, pairs)[e.0 := c.unjson(e.1).value]
  {
    assert (pairs + [e])[..|pairs|] == pairs;
  }

  lemma ManyStep<T>(item: Parser<T>, n: nat, s: seq<byte>, acc: seq<T>)
    requires n > 0
    ensures item(s).Absent? ==> Many(item, n, s, acc) == Absent
    ensures item(s).Failed? ==> Many(item, n, s, acc) == Failed
    ensures item(s).Got? ==> Many(item, n, s, acc) == Many(item, n - 1, item(s).rest, acc + [item(s).value])
  {
  }

  /** The pairs listed so far are those no longer in `left`. */
  ghost predicate Listing<K, V>(pairs: seq<(K, V)>, m: map<K, V>, left: map<K, V>) {
    && left.Keys <= m.Keys && |pairs| + |left| == |m|
    && (forall i, j :: 0 <= i < j < |pairs| ==> pairs[i].0 != pairs[j].0)
    && (forall e <- pairs :: e.0 in m && m[e.0] == e.1 && e.0 !in left)
    && (forall k <- m :: k in left || (k, m[k]) in pairs)
  }

  lemma Listed1<K, V>(pairs: seq<(K, V)>, m: map<K, V>, left: map<K, V>, k: K)
    requires Listing(pairs, m, left) && k in left
    ensures Listing(pairs + [(k, m[k])], m, left - {k})
  {
    var left' := left - {k};
    assert left'.Keys == left.Keys - {k};
    assert |left'.Keys| == |left'| && |left.Keys| == |left|;
    forall q <- m ensures q in left' || (q, m[q]) in pairs + [(k, m[k])] {
      if q != k && q !in left {
        assert (q, m[q]) in pairs;
      } else if q == k {
        assert (pairs + [(k, m[k])])[|pairs|] == (q, m[q]);
      }
    }
  }

  /** The count, then each entry in the order the map's iterator picks. */
  method WriteIds(c: Codec, ids: map<string, u32>) returns (w: seq<byte>)
    ensures exists order :: Enumerates(order, ids) && w == PrintList(PrintId(c), order)
  {
    w := LE(|ids|, 4);
    ghost var order: seq<(string, u32)> := [];
    var left := ids;
    while left != map[]
      invariant Listing(order, ids, left)
      invariant w == LE(|ids|, 4) + Each(PrintId(c), order)
      decreases |left|
    {
      var id :| id in left;
      var bytes := c.text(id);
      Assoc(LE(|ids|, 4), Each(PrintId(c), order), ShowId(c, (id, ids[id])));
      w := w + (LE(|bytes|, 4) + bytes + LE(ids[id], 4));
      EachAppend(PrintId(c), order, (id, ids[id]));
      Listed1(order, ids, left, id);
      order := order + [(id, ids[id])];
      left := left - {id};
    }
    assert Enumerates(order, ids) && w == PrintList(PrintId(c), order);
  }

  method WriteMetadata(c: Codec, metadata: map<u32, Json>) returns (w: seq<byte>)
    ensures exists order :: Enumerates(order, metadata) && w == PrintList(PrintMeta(), Encoded(c, order))
  {
    w := LE(|metadata|, 4);
    ghost var order: seq<(u32, Json)> := [];
    var left := metadata;
    while left != map[]
      invariant Listing(order, metadata, left)
      invariant w == LE(|metadata|, 4) + Each(PrintMeta(), Encoded(c, order))
      decreases |left|
    {
      var slot :| slot in left;
      var bytes := c.json(metadata[slot]);
      Assoc(LE(|metadata|, 4), Each(PrintMeta(), Encoded(c, order)), ShowMeta((slot, bytes)));
      w := w + (LE(slot, 4) + (LE(|bytes|, 4) + bytes));
      EncodedAppend(c, order, slot, metadata[slot]);
      EachAppend(PrintMeta(), Encoded(c, order), (slot, bytes));
      Listed1(order, metadata, left, slot);
      order := order + [(slot, metadata[slot])];
      left := left - {slot};
    }
    assert Enumerates(order, metadata) && w == PrintList(PrintMeta(), Encoded(c, order));
  }

  method WriteSlots(slots: seq<u32>) returns (w: seq<byte>)
    ensures w == PrintList(PrintSlot(), slots)
  {
    w := LE(|slots|, 4);
    for i := 0 to |slots|
      invariant w == LE(|slots|, 4) + Each(PrintSlot(), slots[..i])
    {
      w := w + LE(slots[i], 4);
      EachAppend(PrintSlot(), slots[..i], slots[i]);
      assert slots[..i + 1] == slots[..i] + [slots[i]];
    }
    assert slots[..|slots|] == slots;
  }

  /** The bytes of the temporary file that is then renamed over `.records`: they load back to the
      snapshot exactly when it is within the loader's limits, and otherwise are taken for no file. */
  method WriteRecordsSnapshot(c: Codec, s: Snapshot) returns (w: seq<byte>)
    requires s.dense.Listed?
    ensures exists what: Written :: what.Orders(s) && w == what.Print(c)
    ensures c.Lawful() && Castable(c, s) ==> Load(c, w) == if Loadable(c, s) then Found(s) else Missing
  {
    var ids := WriteIds(c, s.ids);
    ghost var idOrder :| Enumerates(idOrder, s.ids) && ids == PrintList(PrintId(c), idOrder);
    var meta := WriteMetadata(c, s.metadata);
    ghost var metaOrder :| Enumerates(metaOrder, s.metadata) && meta == PrintList(PrintMeta(), Encoded(c, metaOrder));
    var slots := WriteSlots(s.dense.slots);
    ghost var what := Written(idOrder, s.deleted, metaOrder, s.dense.slots, s.dirty, s.epoch);
    w := MAGIC + LE(3, 4);
    w := w + ((ids + (PrintBlob(c.bitmap(s.deleted)) + meta)) + (slots + PrintBlob(c.bitmap(s.dirty))));
    w := w + LE(s.epoch, 8);
    assert what.Orders(s) && w == what.Print(c);
    if c.Lawful() && Castable(c, s) {
      LoadsBack(c, what, s);
    }
  }

  lemma LoadsBack(c: Codec, what: Written, s: Snapshot)
    requires c.Lawful() && Castable(c, s) && what.Orders(s)
    ensures Load(c, what.Print(c)) == if Loadable(c, s) then Found(s) else Missing
  {
    OrecFiles.AnyOrder(c, what, s);
    OrecFiles.FitsAnyOrder(c, what, s);
    OrecFiles.LoadWritten(c, what, s, []);
    assert what.Print(c) + [] == what.Print(c);
  }

  // ---------------------------------------------------------------- reading

  datatype Read<+T> = Data(value: T) | NoFile | Error

  ghost predicate Agrees<T>(p: Parsed<T>, r: Read<T>, rest: seq<byte>) {
    match p
    case Got(v, s) => r == Data(v) && rest == s
    case Absent => r == NoFile
    case Failed => r == Error
  }

  class Cursor {
    const data: seq<byte>
    var pos: nat

    ghost predicate Valid()
      reads this
    {
      pos <= |data|
    }

    ghost function Rest(): seq<byte>
      reads this
      requires Valid()
    {
      data[pos..]
    }

    constructor (bytes: seq<byte>)
      ensures Valid() && Rest() == bytes
    {
      data, pos := bytes, 0;
    }

    method ReadExact(n: nat) returns (r: Read<seq<byte>>)
      requires Valid()
      modifies this
      ensures Valid() && Agrees(Take(n, old(Rest())), r, Rest())
    {
      if n > |data| - pos {
        return Error;
      }
      r := Data(data[pos..pos + n]);
      assert data[pos..][..n] == data[pos..pos + n] && data[pos..][n..] == data[pos + n..];
      pos := pos + n;
    }

    method ReadU32() returns (r: Read<u32>)
      requires Valid()
      modifies this
      ensures Valid() && Agrees(U32(old(Rest())), r, Rest())
    {
      var b := ReadExact(4);
      r := if b.Data? then Data(UnLE32(b.value)) else Error;
    }

    method ReadBlob(max: nat) returns (r: Read<seq<byte>>)
      requires Valid()
      modifies this
      ensures Valid() && Agrees(Blob(max, old(Rest())), r, Rest())
    {
      var n := ReadU32();
      if !n.Data? { return Error; }
      if n.value > max { return NoFile; }
      r := ReadExact(n.value);
    }

    method ReadBitmap(c: Codec) returns (r: Read<set<u32>>)
      requires Valid()
      modifies this
      ensures Valid() && Agrees(Bitmap(c, old(Rest())), r, Rest())
    {
      var b := ReadBlob(MAX_BLOB_BYTES);
      match b
      case NoFile => r := NoFile;
      case Error => r := Error;
      case Data(bytes) =>
        var x := c.unbitmap(bytes);
        r := if x.Some? then Data(x.value) else Error;
    }

    method ReadId(c: Codec) returns (r: Read<(string, u32)>)
      requires Valid()
      modifies this
      ensures Valid() && Agrees(IdEntry(c, old(Rest())), r, Rest())
    {
      var b := ReadBlob(MAX_ID_LEN);
      if b.NoFile? { return NoFile; }
      if b.Error? { return Error; }
      var id := c.untext(b.value);
      if id.None? { return Error; }
      var slot := ReadU32();
      r := if slot.Data? then Data((id.value, slot.value)) else Error;
    }

    method ReadMeta() returns (r: Read<(u32, seq<byte>)>)
      requires Valid()
      modifies this
      ensures Valid() && Agrees(MetaEntry(old(Rest())), r, Rest())
    {
      var slot := ReadU32();
      if !slot.Data? { return Error; }
      var b := ReadBlob(MAX_BLOB_BYTES);
      match b
      case NoFile => r := NoFile;
      case Error => r := Error;
      case Data(bytes) => r := Data((slot.value, bytes));
    }

    method ReadIds(c: Codec) returns (r: Read<map<string, u32>>, ghost items: seq<(string, u32)>)
      requires Valid()
      modifies this
      ensures Valid()
      ensures r.NoFile? <==> List(IdItem(c), old(Rest())).Absent?
      ensures r.Error? <==> List(IdItem(c), old(Rest())).Failed?
      ensures r.Data? ==> List(IdItem(c), old(Rest())) == Got(items, Rest()) && r.value == Inserted(items)
    {
      var count := ReadU32();
      if !count.Data? { return Error, []; }
      if count.value > MAX_RECORD_COUNT { return NoFile, []; }
      r, items := ReadIdEntries(c, count.value);
    }

    method ReadIdEntries(c: Codec, count: nat) returns (r: Read<map<string, u32>>, ghost items: seq<(string, u32)>)
      requires Valid()
      modifies this
      ensures Valid()
      ensures r.NoFile? <==> Many(IdItem(c), count, old(Rest()), []).Absent?
      ensures r.Error? <==> Many(IdItem(c), count, old(Rest()), []).Failed?
      ensures r.Data? ==> Many(IdItem(c), count, old(Rest()), []) == Got(items, Rest()) && r.value == Inserted(items)
    {
      items := [];
      var found: map<string, u32> := map[];
      for i := 0 to count
        invariant Valid() && found == Inserted(items)
        invariant Many(IdItem(c), count, old(Rest()), []) == Many(IdItem(c), count - i, Rest(), items)
      {
        ManyStep(IdItem(c), count - i, Rest(), items);
        var e := ReadId(c);
        if e.NoFile? { return NoFile, []; }
        if e.Error? { return Error, []; }
        var (id, slot) := e.value;
        InsertedAppend(items, id, slot);
        found := found[id := slot];
        items := items + [(id, slot)];
      }
      r := Data(found);
    }

    method ReadMetadata(c: Codec) returns (r: Read<map<u32, Json>>, ghost items: seq<(u32, seq<byte>)>)
      requires Valid()
      modifies this
      ensures Valid()
      ensures r.NoFile? <==> List(MetaItem(), old(Rest())).Absent?
      ensures r.Error? <==> List(MetaItem(), old(Rest())).Failed?
      ensures r.Data? ==> List(MetaItem(), old(Rest())) == Got(items, Rest()) && r.value == InsertedJson(c, items)
    {
      var count := ReadU32();
      if !count.Data? { return Error, []; }
      if count.value > MAX_RECORD_COUNT { return NoFile, []; }
      r, items := ReadMetaEntries(c, count.value);
    }

    method ReadMetaEntries(c: Codec, count: nat) returns (r: Read<map<u32, Json>>, ghost items: seq<(u32, seq<byte>)>)
      requires Valid()
      modifies this
      ensures Valid()
      ensures r.NoFile? <==> Many(MetaItem(), count, old(Rest()), []).Absent?
      ensures r.Error? <==> Many(MetaItem(), count, old(Rest()), []).Failed?
      ensures r.Data? ==>
                Many(MetaItem(), count, old(Rest()), []) == Got(items, Rest()) && r.value == InsertedJson(c, items)
    {
      items := [];
      var found: map<u32, Json> := map[];
      for i := 0 to count
        invariant Valid() && found == InsertedJson(c, items)
        invariant Many(MetaItem(), count, old(Rest()), []) == Many(MetaItem(), count - i, Rest(), items)
      {
        ManyStep(MetaItem(), count - i, Rest(), items);
        var e := ReadMeta();
        if e.NoFile? { return NoFile, []; }
        if e.Error? { return Error, []; }
        InsertedJsonAppend(c, items, e.value);
        var json := c.unjson(e.value.1);
        if json.Some? {
          found := found[e.value.0 := json.value];
        }
        items := items + [e.value];
      }
      r := Data(found);
    }

    method ReadDense(version: u32) returns (r: Read<Dense>)
      requires Valid()
      modifies this
      ensures Valid() && Agrees(DenseSection(version, old(Rest())), r, Rest())
    {
      if version < 3 { return Data(EveryId); }
      var count := ReadU32();
      if !count.Data? { return Error; }
      if count.value > MAX_RECORD_COUNT { return NoFile; }
      ghost var start := Rest();
      var slots: seq<u32> := [];
      for i := 0 to count.value
        invariant Valid()
        invariant Many(SlotItem(), count.value, start, []) == Many(SlotItem(), count.value - i, Rest(), slots)
      {
        var slot := ReadU32();
        if !slot.Data? { return Error; }
        slots := slots + [slot.value];
      }
      r := Data(Listed(slots));
    }
  }

  /** Loading terminates on every byte string and gives what `Load` says. */
  method LoadRecordsSnapshot(c: Codec, data: seq<byte>) returns (r: Loaded)
    ensures r == Load(c, data)
  {
    if |data| < 8 || data[..4] != MAGIC { return Missing; }
    var version := UnLE32(data[4..8]);
    if version != 2 && version != 3 { return Missing; }
    var cursor := new Cursor(data[8..]);
    r := LoadSections(c, version, cursor);
  }

  method LoadSections(c: Codec, version: u32, cursor: Cursor) returns (r: Loaded)
    requires cursor.Valid()
    modifies cursor
    ensures r == Outcome(Sections(c, version, old(cursor.Rest())))
  {
    var ids, idItems := cursor.ReadIds(c);
    if ids.NoFile? { return Missing; }
    if ids.Error? { return IoError; }
    r := LoadAfterIds(c, version, cursor, ids.value, idItems);
  }

  method LoadAfterIds(c: Codec, version: u32, cursor: Cursor, ids: map<string, u32>, ghost idItems: seq<(string, u32)>)
    returns (r: Loaded)
    requires cursor.Valid() && ids == Inserted(idItems)
    modifies cursor
    ensures r == Outcome(match AfterIds(c, idItems, old(cursor.Rest()))
                         case Got(f, s) => AfterFront(c, version, f, s)
                         case Absent => Absent
                         case Failed => Failed)
  {
    var deleted := cursor.ReadBitmap(c);
    if deleted.NoFile? { return Missing; }
    if deleted.Error? { return IoError; }
    var metadata, metaItems := cursor.ReadMetadata(c);
    if metadata.NoFile? { return Missing; }
    if metadata.Error? { return IoError; }
    var dense := cursor.ReadDense(version);
    if dense.NoFile? { return Missing; }
    if dense.Error? { return IoError; }
    var dirty := cursor.ReadBitmap(c);
    if dirty.NoFile? { return Missing; }
    if dirty.Error? { return IoError; }
    var tail := cursor.ReadExact(8);
    var epoch := if tail.Data? then UnLE64(tail.value) else 0;
    r := Found(Snapshot(ids, deleted.value, metadata.value, dense.value, dirty.value, epoch));
  }
}
