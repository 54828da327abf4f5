/** The `.records` snapshot file: its printer, its parser, and what the parser makes of a torn file. */
module Orec {
  import opened Bytes
  import opened Records

  const MAX_ID_LEN := 65536
  const MAX_BLOB_BYTES := 0x100_0000
  const MAX_RECORD_COUNT := 100_000_000
  const MAGIC: seq<byte> := [0x4F, 0x52, 0x45, 0x43]

  /** The encoders this file calls: RoaringBitmap, serde_json and UTF-8. */
  datatype Codec = Codec(
    bitmap: set<u32> -> seq<byte>, unbitmap: seq<byte> -> Option<set<u32>>,
    json: Json -> seq<byte>, unjson: seq<byte> -> Option<Json>,
    text: string -> seq<byte>, untext: seq<byte> -> Option<string>)
  {
    ghost predicate Lawful() {
      && (forall s :: unbitmap(bitmap(s)) == Some(s))
      && (forall j :: unjson(json(j)) == Some(j))
      && (forall t :: untext(text(t)) == Some(t))
    }
  }

  /** Slots holding a dense vector: listed, or (in a version 2 file) every slot that has an id. */
  datatype Dense = Listed(slots: seq<u32>) | EveryId

  datatype Snapshot = Snapshot(
    ids: map<string, u32>, deleted: set<u32>, metadata: map<u32, Json>, dense: Dense, dirty: set<u32>, epoch: u64)

  // ---------------------------------------------------------------- parsing

  /** A value and the unread bytes, `None` for the caller, or an I/O error. */
  datatype Parsed<+T> = Got(value: T, rest: seq<byte>) | Absent | Failed {
    predicate IsFailure() { !Got? }

    function PropagateFailure<U>(): Parsed<U>
      requires IsFailure()
    {
      if Absent? then Absent else Failed
    }

    function Extract(): (T, seq<byte>)
      requires !IsFailure()
    {
      (value, rest)
    }
  }

  type Parser<!T> = seq<byte> -> Parsed<T>

  function Take(n: nat, s: seq<byte>): Parsed<seq<byte>> {
    if n <= |s| then Got(s[..n], s[n..]) else Failed
  }

  function U32(s: seq<byte>): Parsed<u32> {
    if 4 <= |s| then Got(UnLE32(s[..4]), s[4..]) else Failed
  }

  function Blob(max: nat, s: seq<byte>): Parsed<seq<byte>> {
    var (n, s1) :- U32(s);
    if n > max then Absent else Take(n, s1)
  }

  function Bitmap(c: Codec, s: seq<byte>): Parsed<set<u32>> {
    var (b, s1) :- Blob(MAX_BLOB_BYTES, s);
    match c.unbitmap(b)
    case None => Failed
    case Some(x) => Got(x, s1)
  }

  function IdEntry(c: Codec, s: seq<byte>): Parsed<(string, u32)> {
    var (b, s1) :- Blob(MAX_ID_LEN, s);
    if c.untext(b).None? then Failed
    else
      var (slot, s2) :- U32(s1);
      Got((c.untext(b).value, slot), s2)
  }

  function MetaEntry(s: seq<byte>): Parsed<(u32, seq<byte>)> {
    var (slot, s1) :- U32(s);
    var (b, s2) :- Blob(MAX_BLOB_BYTES, s1);
    Got((slot, b), s2)
  }

  function IdItem(c: Codec): Parser<(string, u32)> {
    s => IdEntry(c, s)
  }

  function MetaItem(): Parser<(u32, seq<byte>)> {
    s => MetaEntry(s)
  }

  function SlotItem(): Parser<u32> {
    s => U32(s)
  }

  /** `n` more items after the ones in `acc`. */
  function Many<T>(item: Parser<T>, n: nat, s: seq<byte>, acc: seq<T>): Parsed<seq<T>>
    decreases n
  {
    if n == 0 then Got(acc, s)
    else
      var (x, s1) :- item(s);
      Many(item, n - 1, s1, acc + [x])
  }

  function List<T>(item: Parser<T>, s: seq<byte>): Parsed<seq<T>> {
    var (n, s1) :- U32(s);
    if n > MAX_RECORD_COUNT then Absent else Many(item, n, s1, [])
  }

  /** The map a sequence of insertions leaves: a later pair replaces an earlier one. */
  function Inserted<K, V>(pairs: seq<(K, V)>): map<K, V> {
    if pairs == [] then map[] else Inserted(pairs[..|pairs| - 1])[pairs[|pairs| - 1].0 := pairs[|pairs| - 1].1]
  }

  /** Metadata whose JSON does not parse is dropped and the rest kept. */
  function InsertedJson(c: Codec, pairs: seq<(u32, seq<byte>)>): map<u32, Json> {
    if pairs == [] then map[]
    else
      var m, last := InsertedJson(c, pairs[..|pairs| - 1]), pairs[|pairs| - 1];
      if c.unjson(last.1).None? then m else m[last.0 := c.unjson(last.1).value]
  }

  function DenseSection(version: u32, s: seq<byte>): Parsed<Dense> {
    if version < 3 then Got(EveryId, s)
    else
      var (slots, s1) :- List(SlotItem(), s);
      Got(Listed(slots), s1)
  }

  function Epoch(s: seq<byte>): u64 {
    if 8 <= |s| then UnLE64(s[..8]) else 0
  }

  datatype Trail = Trail(dense: Dense, dirty: set<u32>, epoch: u64)

  /** The last sections; bytes after the epoch are ignored. */
  function Trailer(c: Codec, version: u32, s: seq<byte>): Parsed<Trail> {
    var (dense, s1) :- DenseSection(version, s);
    var (dirty, s2) :- Bitmap(c, s1);
    Got(Trail(dense, dirty, Epoch(s2)), [])
  }

  datatype Front = Front(ids: seq<(string, u32)>, deleted: set<u32>, meta: seq<(u32, seq<byte>)>)

  function AfterIds(c: Codec, ids: seq<(string, u32)>, s: seq<byte>): Parsed<Front> {
    var (deleted, s1) :- Bitmap(c, s);
    var (meta, s2) :- List(MetaItem(), s1);
    Got(Front(ids, deleted, meta), s2)
  }

  function Leading(c: Codec, s: seq<byte>): Parsed<Front> {
    var (ids, s1) :- List(IdItem(c), s);
    AfterIds(c, ids, s1)
  }

  function Assembled(c: Codec, f: Front, t: Trail): Snapshot {
    Snapshot(Inserted(f.ids), f.deleted, InsertedJson(c, f.meta), t.dense, t.dirty, t.epoch)
  }

  function AfterFront(c: Codec, version: u32, f: Front, s: seq<byte>): Parsed<Snapshot> {
    var (t, s1) :- Trailer(c, version, s);
    Got(Assembled(c, f, t), s1)
  }

  function Sections(c: Codec, version: u32, s: seq<byte>): Parsed<Snapshot> {
    var (f, s1) :- Leading(c, s);
    AfterFront(c, version, f, s1)
  }

  datatype Loaded = Found(snapshot: Snapshot) | Missing | IoError

  function Outcome(p: Parsed<Snapshot>): Loaded {
    match p
    case Got(snapshot, _) => Found(snapshot)
    case Absent => Missing
    case Failed => IoError
  }

  function Load(c: Codec, data: seq<byte>): Loaded {
    if |data| < 8 || data[..4] != MAGIC then Missing
    else
      var version := UnLE32(data[4..8]);
      if version != 2 && version != 3 then Missing
      else Outcome(Sections(c, version, data[8..]))
  }

  // --------------------------------------------------------------- printing

  function PrintBlob(b: seq<byte>): seq<byte> {
    LE(|b|, 4) + b
  }

  function ShowId(c: Codec, e: (string, u32)): seq<byte> {
    PrintBlob(c.text(e.0)) + LE(e.1, 4)
  }

  function ShowMeta(e: (u32, seq<byte>)): seq<byte> {
    LE(e.0, 4) + PrintBlob(e.1)
  }

  function PrintId(c: Codec): ((string, u32)) -> seq<byte> {
    (e: (string, u32)) => ShowId(c, e)
  }

  function PrintMeta(): ((u32, seq<byte>)) -> seq<byte> {
    (e: (u32, seq<byte>)) => ShowMeta(e)
  }

  function PrintSlot(): u32 -> seq<byte> {
    (slot: u32) => LE(slot, 4)
  }

  function Each<T>(show: T -> seq<byte>, xs: seq<T>): seq<byte> {
    if xs == [] then [] else show(xs[0]) + Each(show, xs[1..])
  }

  function PrintList<T>(show: T -> seq<byte>, xs: seq<T>): seq<byte> {
    LE(|xs|, 4) + Each(show, xs)
  }

  function FrontBytes(c: Codec, f: Front): seq<byte> {
    PrintList(PrintId(c), f.ids) + (PrintBlob(c.bitmap(f.deleted)) + PrintList(PrintMeta(), f.meta))
  }

  function LastBytes(c: Codec, dense: seq<u32>, dirty: set<u32>): seq<byte> {
    PrintList(PrintSlot(), dense) + PrintBlob(c.bitmap(dirty))
  }

  function Encoded(c: Codec, meta: seq<(u32, Json)>): (r: seq<(u32, seq<byte>)>)
    ensures |r| == |meta|
  {
    seq(|meta|, i requires 0 <= i < |meta| => (meta[i].0, c.json(meta[i].1)))
  }

  /** What the writer hands to the file: the two maps in the order their iterators gave. */
  datatype Written = Written(
    ids: seq<(string, u32)>, deleted: set<u32>, meta: seq<(u32, Json)>, dense: seq<u32>, dirty: set<u32>, epoch: u64)
  {
    ghost predicate Orders(s: Snapshot) {
      && Enumerates(ids, s.ids) && Enumerates(meta, s.metadata)
      && s.dense == Listed(dense) && deleted == s.deleted && dirty == s.dirty && epoch == s.epoch
    }

    /** Every length the writer casts to 32 bits survives the cast. */
    ghost predicate Fits(c: Codec) {
      && |ids| < TWO32 && |meta| < TWO32 && |dense| < TWO32
      && |c.bitmap(deleted)| < TWO32 && |c.bitmap(dirty)| < TWO32
      && (forall e <- ids :: |c.text(e.0)| < TWO32)
      && (forall e <- Encoded(c, meta) :: |e.1| < TWO32)
    }

    /** The loader's own size limits. */
    ghost predicate Within(c: Codec) {
      && |ids| <= MAX_RECORD_COUNT && |meta| <= MAX_RECORD_COUNT && |dense| <= MAX_RECORD_COUNT
      && |c.bitmap(deleted)| <= MAX_BLOB_BYTES && |c.bitmap(dirty)| <= MAX_BLOB_BYTES
      && (forall e <- ids :: |c.text(e.0)| <= MAX_ID_LEN)
      && (forall e <- Encoded(c, meta) :: |e.1| <= MAX_BLOB_BYTES)
    }

    function Body(c: Codec): seq<byte> {
      FrontBytes(c, Front(ids, deleted, Encoded(c, meta))) + LastBytes(c, dense, dirty)
    }

    function Print(c: Codec): seq<byte> {
      MAGIC + LE(3, 4) + Body(c) + LE(epoch, 8)
    }
  }

  /** Every length the writer casts to 32 bits survives the cast. */
  ghost predicate Castable(c: Codec, s: Snapshot) {
    && |s.ids| < TWO32 && |s.metadata| < TWO32 && s.dense.Listed? && |s.dense.slots| < TWO32
    && |c.bitmap(s.deleted)| < TWO32 && |c.bitmap(s.dirty)| < TWO32
    && (forall id <- s.ids :: |c.text(id)| < TWO32)
    && (forall slot <- s.metadata :: |c.json(s.metadata[slot])| < TWO32)
  }

  /** The loader's size limits. */
  ghost predicate Loadable(c: Codec, s: Snapshot) {
    && |s.ids| <= MAX_RECORD_COUNT && |s.metadata| <= MAX_RECORD_COUNT
    && s.dense.Listed? && |s.dense.slots| <= MAX_RECORD_COUNT
    && |c.bitmap(s.deleted)| <= MAX_BLOB_BYTES && |c.bitmap(s.dirty)| <= MAX_BLOB_BYTES
    && (forall id <- s.ids :: |c.text(id)| <= MAX_ID_LEN)
    && (forall slot <- s.metadata :: |c.json(s.metadata[slot])| <= MAX_BLOB_BYTES)
  }

  ghost predicate Enumerates<K, V>(pairs: seq<(K, V)>, m: map<K, V>) {
    && (forall i, j :: 0 <= i < j < |pairs| ==> pairs[i].0 != pairs[j].0)
    && (forall e <- pairs :: e.0 in m && m[e.0] == e.1)
    && (forall k <- m :: (k, m[k]) in pairs)
  }
}
