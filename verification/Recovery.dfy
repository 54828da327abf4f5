/** What a reopen reads from disk and how it turns it into a record store: the choice between the
    slim `.records` snapshot and the `.omen` manifest, the vectors of `.vecs`, the synthetic
    records made for vectors nobody references, and the part of the log that is replayed. */
module Recovery {
  import opened Records

  /** A log entry and its timestamp. */
  datatype Entry = Entry(ts: nat, op: Op)

  /** The replay cutoff a manifest records: the log's epoch and its highest timestamp. */
  datatype Cutoff = Cutoff(epoch: nat, maxTs: Option<nat>)

  datatype Tables = Tables(ids: map<Id, nat>, deleted: set<nat>, meta: map<nat, Json>, dense: set<nat>)
  datatype Manifest = Manifest(tables: Tables, usesVecs: bool, cutoff: Option<Cutoff>)
  datatype Slim = Slim(tables: Tables, dirty: set<nat>, epoch: nat)

  /** What the readers of the files accept. Replay skips a log entry that does not parse; a log
      with an entry that does not scan, or a manifest that does not open, makes `open` fail; a
      `.records` snapshot that is not readable is taken for a missing file. */
  datatype Limits = Limits(parses: Op -> bool, scans: Op -> bool, opens: Manifest -> bool, readable: Slim -> bool)

  /** The files of one database. `metaEpoch` is the truncation epoch in the `.wal.meta` sidecar;
      the times are the modification times of `.omen` and `.records`. */
  datatype Disk = Disk(dim: nat, wal: seq<Entry>, metaEpoch: nat, vecs: seq<Vec>,
                       omen: Manifest, omenTime: nat, records: Option<Slim>, recordsTime: nat,
                       limits: Limits) {

    predicate SlimLoaded() {
      records.Some? && recordsTime >= omenTime && limits.readable(records.value)
    }

    /** The files can be opened at all. */
    predicate Opens() {
      limits.opens(omen) && forall i :: 0 <= i < |wal| ==> limits.scans(wal[i].op)
    }

    function Base(): Tables {
      if SlimLoaded() then records.value.tables else omen.tables
    }

    /** The epoch the log reports when opened: the sidecar is read only if the log is not empty. */
    function OpenEpoch(): nat {
      if wal == [] then 0 else metaEpoch
    }

    /** The next timestamp the log hands out when opened. */
    function OpenTimestamp(): nat {
      if wal == [] then 0 else MaxTimestamp(wal) + 1
    }

    /** The entries recovery replays. */
    function Replayed(): seq<Entry> {
      Parsed(limits.parses, Selected())
    }

    /** The entries the epoch and timestamp tests let through. */
    function Selected(): seq<Entry> {
      if SlimLoaded() then
        if OpenEpoch() <= records.value.epoch then [] else wal
      else
        match omen.cutoff
        case Some(Cutoff(epoch, Some(maxTs))) => if OpenEpoch() == epoch then After(wal, maxTs) else wal
        case _ => wal
    }

    /** Recovery drops the vectors no id references, but only under a manifest whose epoch is over. */
    predicate FilterOn() {
      !SlimLoaded() && omen.cutoff.Some? && OpenEpoch() > omen.cutoff.value.epoch
    }

    ghost function KnownDense(): set<nat> {
      var known := omen.tables.ids.Values + (if SlimLoaded() then records.value.tables.ids.Values else {});
      (if omen.tables.dense == {} then known else omen.tables.dense)
      + (if SlimLoaded() then records.value.tables.dense else {})
    }

    function VectorCount(): nat {
      if omen.usesVecs then |vecs| else 0
    }

    ghost function LoadedVector(k: nat): Option<Vec> {
      if k >= VectorCount() || k in omen.tables.deleted then None
      else if FilterOn() && k !in Base().ids.Values then None
      else if !IsZero(vecs[k]) || k in KnownDense() then Some(vecs[k])
      else None
    }

    ghost function LoadedMeta(k: nat): Option<Json> {
      if FilterOn() && k < VectorCount() && k !in Base().ids.Values then None
      else Lookup(Base().meta, k)
    }

    ghost function SlotRecord(k: nat): Option<Rec> {
      var base := Base();
      if k in base.deleted then None
      else if k in base.ids.Values then
        var id :| id in base.ids && base.ids[id] == k;
        Some(Rec(id, LoadedVector(k), LoadedMeta(k)))
      else if LoadedVector(k).Some? then Some(Rec(Synthetic(k), LoadedVector(k), LoadedMeta(k)))
      else None
    }

    ghost function BuildInitial(): Store {
      var n := Max(VectorCount(), Bound(Base().ids.Values));
      var slots := seq(n, k requires 0 <= k < n => SlotRecord(k));
      Store(slots, Base().deleted, Rebuild(slots, Base().deleted, n), {})
    }

    /** The store a reopen of these files produces, when they open. */
    ghost function Recover(): Store {
      Replay(Replayed(), BuildInitial())
    }

    /** A reopen succeeds and shows `m`. */
    ghost predicate Shows(m: View) {
      Opens() && Recover().View() == m
    }

    /** A reopen succeeds and shows what users stored in `m`. */
    ghost predicate Keeps(m: View) {
      Opens() && Users(Recover().View()) == Users(m)
    }

    /** Slots of `.vecs` that hold a vector the base snapshot neither references nor tombstones. */
    ghost function Strays(): set<nat> {
      set k | 0 <= k < VectorCount() && k !in Base().deleted && k !in Base().ids.Values && !IsZero(vecs[k])
    }

    /** Strays that become records on reopen. */
    ghost function Phantoms(): set<nat> {
      if FilterOn() then {} else Strays()
    }

    /** What tables and the vectors on disk say about the ids of the tables. */
    ghost function TableView(tables: Tables): View {
      map id | id in tables.ids && tables.ids[id] < |vecs| ::
        Value(Some(vecs[tables.ids[id]]), Lookup(tables.meta, tables.ids[id]))
    }

    ghost function BaseView(): View {
      TableView(Base())
    }

    /** The records recovery invents for the phantoms. */
    ghost function PhantomView(): View {
      var strays := Phantoms();
      map id: Id | id in IdsOf(strays) && id.slot < |vecs| :: Value(Some(vecs[id.slot]), Lookup(Base().meta, id.slot))
    }

    /** The map before the log is replayed: the base, and the phantoms. */
    ghost function Shown(): View {
      BaseView() + PhantomView()
    }

    /** The shape every published snapshot has. */
    ghost predicate Sane() {
      Fits(Base(), omen.tables, VectorCount())
    }
  }

  /** Every id has a slot of its own that is not deleted, a synthetic id the slot of its number. */
  ghost predicate Indexed(tables: Tables) {
    && (forall id, id' ::
          id in tables.ids && id' in tables.ids && tables.ids[id] == tables.ids[id'] ==> id == id')
    && (forall id :: id in tables.ids ==>
          tables.ids[id] !in tables.deleted && (id.Synthetic? ==> tables.ids[id] == id.slot))
  }

  /** Tables over `count` vectors: a slot per id, none of them deleted, synthetic ids in their own
      slots; and no slot of the manifest forgotten. */
  ghost predicate Fits(base: Tables, omen: Tables, count: nat) {
    && (forall id, id' :: id in base.ids && id' in base.ids && base.ids[id] == base.ids[id'] ==> id == id')
    && (forall id :: id in base.ids ==>
          && base.ids[id] < count && base.ids[id] !in base.deleted
          && (id.Synthetic? ==> base.ids[id] == id.slot))
    && base.dense == base.ids.Values
    && (forall k :: k in base.deleted ==> k < count)
    && omen.deleted <= base.deleted
    && omen.ids.Values <= base.deleted + base.ids.Values
    && omen.dense <= base.deleted + base.ids.Values
  }

  lemma FitsMore(base: Tables, omen: Tables, count: nat, count': nat)
    requires Fits(base, omen, count) && count <= count'
    ensures Fits(base, omen, count')
  {
  }

  ghost function IdsOf(slots: set<nat>): (ids: set<Id>)
    ensures forall id :: id in ids <==> id.Synthetic? && id.slot in slots
  {
    set k | k in slots :: Synthetic(k)
  }

  function Max(a: nat, b: nat): nat {
    if a > b then a else b
  }

  function Lookup<K, V>(m: map<K, V>, k: K): Option<V> {
    if k in m then Some(m[k]) else None
  }

  function MaxTimestamp(wal: seq<Entry>): nat
    requires wal != []
  {
    if |wal| == 1 then wal[0].ts else Max(MaxTimestamp(wal[..|wal| - 1]), wal[|wal| - 1].ts)
  }

  /** The entries with a timestamp above `maxTs`, in order. */
  function After(wal: seq<Entry>, maxTs: nat): seq<Entry> {
    if wal == [] then []
    else
      var last := wal[|wal| - 1];
      After(wal[..|wal| - 1], maxTs) + (if last.ts > maxTs then [last] else [])
  }

  function Parsed(parses: Op -> bool, es: seq<Entry>): seq<Entry> {
    if es == [] then []
    else
      var last := es[|es| - 1];
      Parsed(parses, es[..|es| - 1]) + (if parses(last.op) then [last] else [])
  }

  lemma {:induction false} ParsedAll(parses: Op -> bool, es: seq<Entry>)
    requires forall i :: 0 <= i < |es| ==> parses(es[i].op)
    ensures Parsed(parses, es) == es
  {
    if es != [] { ParsedAll(parses, es[..|es| - 1]); }
  }

  /** One more than the largest element. */
  ghost function Bound(s: set<nat>): (n: nat)
    ensures forall k :: k in s ==> k < n
    ensures s == {} ==> n == 0
    ensures s != {} ==> n - 1 in s
  {
    if s == {} then 0
    else
      var k :| k in s;
      var rest := Bound(s - {k});
      assert s == s - {k} + {k};
      if k < rest then rest else k + 1
  }

  /** The id index rebuilt slot by slot. */
  function Rebuild(slots: seq<Option<Rec>>, deleted: set<nat>, n: nat): map<Id, nat>
    requires n <= |slots|
  {
    if n == 0 then map[]
    else
      var m := Rebuild(slots, deleted, n - 1);
      if n - 1 !in deleted && slots[n - 1].Some? then m[slots[n - 1].value.id := n - 1] else m
  }

  function Replay(es: seq<Entry>, st: Store): Store {
    if es == [] then st else Replay(es[..|es| - 1], st).Do(es[|es| - 1].op)
  }

  // ---------- the meaning of a log ----------

  /** The effect of a log on the visible map. */
  ghost function Apply(es: seq<Entry>, m: View): View {
    if es == [] then m else Effect(es[|es| - 1].op, Apply(es[..|es| - 1], m))
  }

  ghost predicate Touches(es: seq<Entry>, id: Id) {
    exists i :: 0 <= i < |es| && es[i].op.id == id
  }

  /** Two maps agree on one id. */
  ghost predicate Agree(a: View, b: View, id: Id) {
    (id in a <==> id in b) && (id in a && id in b ==> a[id] == b[id])
  }

  lemma {:induction false} ApplyConcat(a: seq<Entry>, b: seq<Entry>, m: View)
    ensures Apply(a + b, m) == Apply(b, Apply(a, m))
  {
    if b == [] {
      assert a + b == a;
    } else {
      var b' := b[..|b| - 1];
      assert (a + b)[..|a + b| - 1] == a + b';
      ApplyConcat(a, b', m);
    }
  }

  lemma {:induction false} ApplyUntouched(es: seq<Entry>, m: View, id: Id)
    requires !Touches(es, id)
    ensures Agree(Apply(es, m), m, id)
  {
    if es != [] {
      var es' := es[..|es| - 1];
      assert es[|es| - 1].op.id != id;
      assert forall i :: 0 <= i < |es'| ==> es'[i] == es[i];
      ApplyUntouched(es', m, id);
    }
  }

  /** An id a log touches ends up with a value that does not depend on the map it started from. */
  lemma {:induction false} ApplyTouched(es: seq<Entry>, m: View, m': View, id: Id)
    requires Touches(es, id) || Agree(m, m', id)
    ensures Agree(Apply(es, m), Apply(es, m'), id)
  {
    if es != [] {
      var es' := es[..|es| - 1];
      if es[|es| - 1].op.id != id {
        if Touches(es, id) {
          var i :| 0 <= i < |es| && es[i].op.id == id;
          assert es'[i].op.id == id;
          assert Touches(es', id);
        }
        ApplyTouched(es', m, m', id);
      }
    }
  }

  lemma SameView(a: View, b: View)
    requires forall id :: Agree(a, b, id)
    ensures a == b
  {
    assert a.Keys == b.Keys by {
      forall id ensures id in a.Keys <==> id in b.Keys { assert Agree(a, b, id); }
    }
    assert forall id :: id in a ==> Agree(a, b, id);
  }

  /** Logs send maps that agree off the touched ids to the same map. */
  lemma {:induction false} ApplyAgree(es: seq<Entry>, m: View, m': View)
    requires forall id :: Touches(es, id) || Agree(m, m', id)
    ensures Apply(es, m) == Apply(es, m')
  {
    forall id ensures Agree(Apply(es, m), Apply(es, m'), id) {
      ApplyTouched(es, m, m', id);
    }
    SameView(Apply(es, m), Apply(es, m'));
  }

  /** Replaying a log over its own outcome changes nothing. */
  lemma {:induction false} ApplyTwice(es: seq<Entry>, m: View)
    ensures Apply(es, Apply(es, m)) == Apply(es, m)
  {
    forall id ensures Touches(es, id) || Agree(Apply(es, m), m, id) {
      if !Touches(es, id) { ApplyUntouched(es, m, id); }
    }
    ApplyAgree(es, Apply(es, m), m);
  }

  /** Replaying on the slot store is applying to the visible map, and forgets no slot. */
  lemma {:induction false} ReplayView(es: seq<Entry>, st: Store)
    requires st.Valid()
    ensures Replay(es, st).Valid()
    ensures Replay(es, st).View() == Apply(es, st.View())
    ensures forall k: nat :: st.Knows(k) ==> Replay(es, st).Knows(k)
    ensures st.deleted <= Replay(es, st).deleted
  {
    if es != [] {
      var es' := es[..|es| - 1];
      ReplayView(es', st);
      DoView(Replay(es', st), es[|es| - 1].op);
    }
  }

  /** Replay leaves an id it does not touch in its slot, and marks every slot it fills dirty. */
  lemma {:induction false} ReplaySlots(es: seq<Entry>, st: Store)
    requires st.Valid() && forall k :: k in st.dirty ==> k < |st.slots|
    ensures var r := Replay(es, st);
            && |st.slots| <= |r.slots| && r.slots[..|st.slots|] == st.slots
            && (forall k :: k in r.dirty ==> k < |r.slots|)
            && (forall id :: id in st.ids && !Touches(es, id) ==> id in r.ids && r.ids[id] == st.ids[id])
            && (forall id :: id in r.ids ==> r.ids[id] in r.dirty || (id in st.ids && r.ids[id] == st.ids[id]))
            && (forall id :: id in st.ids && !Touches(es, id) && st.ids[id] in r.dirty ==> st.ids[id] in st.dirty)
  {
    if es != [] {
      var es' := es[..|es| - 1];
      var r', r := Replay(es', st), Replay(es, st);
      ReplaySlots(es', st);
      ReplayView(es', st);
      forall id | id in st.ids && !Touches(es, id)
        ensures id in r.ids && r.ids[id] == st.ids[id]
        ensures st.ids[id] in r.dirty ==> st.ids[id] in st.dirty
      {
        assert es[|es| - 1].op.id != id;
        assert forall i :: 0 <= i < |es'| ==> es'[i] == es[i];
        assert !Touches(es', id);
      }
    }
  }

  lemma {:induction false} TimestampBound(wal: seq<Entry>)
    requires wal != []
    ensures forall i :: 0 <= i < |wal| ==> wal[i].ts <= MaxTimestamp(wal)
  {
    if |wal| > 1 { TimestampBound(wal[..|wal| - 1]); }
  }

  // ---------- the store built from the base snapshot ----------

  ghost predicate DistinctIds(slots: seq<Option<Rec>>, deleted: set<nat>) {
    forall i, j :: 0 <= i < j < |slots| && i !in deleted && j !in deleted && slots[i].Some? && slots[j].Some?
                   ==> slots[i].value.id != slots[j].value.id
  }

  lemma {:induction false} RebuildIndex(slots: seq<Option<Rec>>, deleted: set<nat>, n: nat)
    requires n <= |slots| && DistinctIds(slots, deleted)
    ensures forall k :: 0 <= k < n && k !in deleted && slots[k].Some?
                        ==> slots[k].value.id in Rebuild(slots, deleted, n)
                            && Rebuild(slots, deleted, n)[slots[k].value.id] == k
    ensures forall id :: id in Rebuild(slots, deleted, n) ==>
                           var k := Rebuild(slots, deleted, n)[id];
                           k < n && k !in deleted && slots[k].Some? && slots[k].value.id == id
  {
    if n > 0 {
      RebuildIndex(slots, deleted, n - 1);
    }
  }

  lemma SlotIds(d: Disk)
    requires Indexed(d.Base())
    ensures DistinctIds(d.BuildInitial().slots, d.Base().deleted)
  {
    var slots := d.BuildInitial().slots;
    forall i, j | 0 <= i < j < |slots| && i !in d.Base().deleted && j !in d.Base().deleted
                  && slots[i].Some? && slots[j].Some?
      ensures slots[i].value.id != slots[j].value.id
    {
      assert slots[i] == d.SlotRecord(i) && slots[j] == d.SlotRecord(j);
    }
  }

  lemma BuildValid(d: Disk)
    requires d.Sane()
    ensures d.BuildInitial().Valid()
  {
    var b := d.BuildInitial();
    SlotIds(d);
    RebuildIndex(b.slots, b.deleted, |b.slots|);
  }

  /** A slot the base references has the record of its id, with what was found in `.vecs`. */
  lemma BuiltRecord(d: Disk, id: Id)
    requires Indexed(d.Base()) && id in d.Base().ids
    ensures var b := d.BuildInitial();
            var k := d.Base().ids[id];
            && b.Live(k) && id in b.ids && b.ids[id] == k
            && b.slots[k].value == Rec(id, d.LoadedVector(k), d.LoadedMeta(k))
  {
    var b := d.BuildInitial();
    var k := d.Base().ids[id];
    SlotIds(d);
    RebuildIndex(b.slots, b.deleted, |b.slots|);
    assert k in d.Base().ids.Values;
    assert b.slots[k] == d.SlotRecord(k);
  }

  /** A slot the base references holds the base's record. */
  lemma BuildReferenced(d: Disk, id: Id)
    requires d.Sane() && id in d.Base().ids
    ensures var b := d.BuildInitial();
            var k := d.Base().ids[id];
            && b.Live(k) && id in b.ids && b.ids[id] == k
            && b.slots[k].value.vec == Some(d.vecs[k])
            && id in b.View() && id in d.BaseView() && b.View()[id] == d.BaseView()[id]
  {
    var b := d.BuildInitial();
    var k := d.Base().ids[id];
    SlotIds(d);
    RebuildIndex(b.slots, b.deleted, |b.slots|);
    assert k in d.Base().ids.Values;
    assert b.slots[k] == d.SlotRecord(k);
    assert k in d.KnownDense();
    assert b.slots[k].value.id == id;
  }

  /** Any other slot is empty unless it is a phantom. */
  lemma BuildUnreferenced(d: Disk, k: nat)
    requires d.Sane() && k !in d.Base().ids.Values
    ensures var b := d.BuildInitial();
            && (b.Live(k) <==> k in d.Phantoms())
            && (b.Live(k) ==> b.slots[k].value.id == Synthetic(k))
  {
    var b := d.BuildInitial();
    if k < |b.slots| && k !in d.Base().deleted {
      assert b.slots[k] == d.SlotRecord(k);
      assert k !in d.KnownDense();
    }
  }

  lemma UnreferencedUser(d: Disk, id: Id)
    requires d.Sane() && id.User? && id !in d.Base().ids
    ensures id !in d.BuildInitial().ids
  {
    var b := d.BuildInitial();
    BuildValid(d);
    forall k: nat | b.Live(k) ensures b.slots[k].value.id != id {
      assert b.slots[k] == d.SlotRecord(k);
    }
  }

  /** A synthetic id the base does not have is a phantom, with the vector found in its slot. */
  lemma UnreferencedSynthetic(d: Disk, k: nat)
    requires d.Sane() && Synthetic(k) !in d.Base().ids
    ensures Agree(d.BuildInitial().View(), d.PhantomView(), Synthetic(k))
  {
    var b := d.BuildInitial();
    BuildValid(d);
    if Synthetic(k) in b.ids {
      var j := b.ids[Synthetic(k)];
      if j in d.Base().ids.Values {
        var id :| id in d.Base().ids && d.Base().ids[id] == j;
        BuildReferenced(d, id);
        assert false;
      }
      BuildUnreferenced(d, j);
      assert j == k;
    }
    if k in d.Phantoms() {
      PhantomBuilt(d, k);
    }
  }

  lemma PhantomBuilt(d: Disk, k: nat)
    requires d.Sane() && k in d.Phantoms()
    ensures var b := d.BuildInitial();
            && b.Live(k) && b.slots[k].value == Rec(Synthetic(k), Some(d.vecs[k]), Lookup(d.Base().meta, k))
            && Synthetic(k) in b.ids && b.ids[Synthetic(k)] == k
  {
    var b := d.BuildInitial();
    SlotIds(d);
    RebuildIndex(b.slots, b.deleted, |b.slots|);
    BuildUnreferenced(d, k);
    assert b.slots[k] == d.SlotRecord(k);
  }

  /** The store built from disk shows the base, and one synthetic record per phantom: nothing else. */
  lemma {:induction false} BuildView(d: Disk)
    requires d.Sane()
    ensures d.BuildInitial().Valid() && d.BuildInitial().View() == d.Shown()
    ensures forall k: nat :: k in d.Base().deleted || k in d.Base().ids.Values ==> d.BuildInitial().Knows(k)
  {
    var b := d.BuildInitial();
    BuildValid(d);
    forall id: Id ensures Agree(b.View(), d.Shown(), id) {
      if id in d.Base().ids {
        BuildReferenced(d, id);
        assert id !in d.PhantomView();
      } else if id.User? {
        UnreferencedUser(d, id);
      } else {
        assert id == Synthetic(id.slot);
        UnreferencedSynthetic(d, id.slot);
      }
    }
    SameView(b.View(), d.Shown());
    forall k: nat | k in d.Base().ids.Values ensures b.Knows(k) {
      var id :| id in d.Base().ids && d.Base().ids[id] == k;
      BuildReferenced(d, id);
      assert b.ids[id] in b.ids.Values;
    }
  }

  /** What a reopen shows: the base and the phantoms, with the replayed entries applied. */
  lemma {:induction false} RecoverView(d: Disk)
    requires d.Sane()
    ensures d.Recover().Valid() && d.Recover().View() == Apply(d.Replayed(), d.Shown())
    ensures forall k: nat :: k in d.Base().deleted || k in d.Base().ids.Values ==> d.Recover().Knows(k)
  {
    BuildView(d);
    ReplayView(d.Replayed(), d.BuildInitial());
  }

  /** Logs of users commute with the restriction to users. */
  lemma {:induction false} UsersApply(es: seq<Entry>, m: View)
    requires forall i :: 0 <= i < |es| ==> es[i].op.id.User?
    ensures Users(Apply(es, m)) == Apply(es, Users(m))
  {
    if es != [] {
      var es' := es[..|es| - 1];
      UsersApply(es', m);
      UsersEffect(es[|es| - 1].op, Apply(es', m));
    }
  }

  lemma SameUsers(a: View, b: View)
    requires forall id: Id :: id.User? ==> Agree(a, b, id)
    ensures Users(a) == Users(b)
  {
    forall id ensures Agree(Users(a), Users(b), id) {
      if id.User? { assert Agree(a, b, id); }
    }
    SameView(Users(a), Users(b));
  }
}
