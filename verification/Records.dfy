/** The record store: append-only slots, a deleted bitmap and an id index.
    An upsert never reuses a slot: it tombstones the old one and appends a new one. */
module Records {

  datatype Option<+T> = None | Some(value: T)

  /** A record id. `Synthetic(k)` is the string `__slot_<k>` that recovery invents for a vector
      with no id; `User` is every other string. */
  datatype Id = User(name: string) | Synthetic(slot: nat)

  /** A dense vector as its 32-bit words, and a metadata value as its JSON text. */
  type Vec = seq<int>
  type Json = string

  datatype Rec = Rec(id: Id, vec: Option<Vec>, meta: Option<Json>)
  datatype Value = Value(vec: Option<Vec>, meta: Option<Json>)
  type View = map<Id, Value>

  /** What the write-ahead log records: a whole record, or a deletion. */
  datatype Op = Upsert(id: Id, vec: Vec, meta: Json) | Delete(id: Id)

  datatype Store = Store(slots: seq<Option<Rec>>, deleted: set<nat>, ids: map<Id, nat>, dirty: set<nat>) {

    predicate Live(k: nat) {
      k < |slots| && k !in deleted && slots[k].Some?
    }

    /** Live ids and live slots are in bijection. */
    ghost predicate Valid() {
      && (forall id :: id in ids ==> Live(ids[id]) && slots[ids[id]].value.id == id)
      && (forall k: nat :: Live(k) ==> slots[k].value.id in ids && ids[slots[k].value.id] == k)
      && (forall k :: k in deleted ==> k < |slots|)
    }

    /** The id -> (vector, metadata) map a caller sees. */
    ghost function View(): View {
      map id | id in ids && Live(ids[id]) :: ValueAt(ids[id])
    }

    function ValueAt(k: nat): Value
      requires Live(k)
    {
      Value(slots[k].value.vec, slots[k].value.meta)
    }

    /** Every slot the store has ever tied to an id. */
    ghost predicate Knows(k: nat) {
      k in deleted || k in ids.Values
    }

    function Upsert(id: Id, vec: Vec, meta: Json): Store {
      var prior := if id in ids && ids[id] !in deleted then {ids[id]} else {};
      var slot := |slots|;
      Store(slots + [Some(Rec(id, Some(vec), Some(meta)))], deleted + prior, ids[id := slot], dirty + prior + {slot})
    }

    function Delete(id: Id): Store {
      if id !in ids || ids[id] in deleted then this
      else Store(slots, deleted + {ids[id]}, ids - {id}, dirty + {ids[id]})
    }

    /** Metadata-only update: the record keeps its slot. */
    function UpdateMetadata(k: nat, meta: Json): Store {
      if k < |slots| && slots[k].Some?
      then Store(slots[k := Some(slots[k].value.(meta := Some(meta)))], deleted, ids, dirty + {k})
      else this
    }

    function Do(op: Op): Store {
      match op
      case Upsert(id, vec, meta) => Upsert(id, vec, meta)
      case Delete(id) => Delete(id)
    }

    /** The bytes a checkpoint writes for slot `k`: its vector, or zeros for a slot that is deleted,
        empty, without a vector, or of the wrong length. */
    function Render(k: nat, dim: nat): Vec {
      if k in deleted then Zeros(dim)
      else if k < |slots| && slots[k].Some? && slots[k].value.vec.Some? && |slots[k].value.vec.value| == dim
      then slots[k].value.vec.value
      else Zeros(dim)
    }

    function DenseSlots(): set<nat> {
      set k | 0 <= k < |slots| && Live(k) && slots[k].value.vec.Some?
    }
  }

  const EMPTY := Store([], {}, map[], {})

  predicate Below(k: nat, n: nat) {
    k < n
  }

  function SlotsBelow(n: nat): set<nat> {
    set k | 0 <= k < n && Below(k, n)
  }

  lemma AllBelow(n: nat)
    ensures forall k :: 0 <= k < n ==> k in SlotsBelow(n)
  {
    assert forall k :: 0 <= k < n ==> Below(k, n);
  }

  function Zeros(dim: nat): Vec {
    seq(dim, _ => 0)
  }

  predicate IsZero(v: Vec) {
    forall i :: 0 <= i < |v| ==> v[i] == 0
  }

  // ---------- the effect of an operation on the visible map ----------

  ghost function Effect(op: Op, m: View): View {
    match op
    case Upsert(id, vec, meta) => m[id := Value(Some(vec), Some(meta))]
    case Delete(id) => m - {id}
  }

  /** Running an operation on the slot store has exactly its effect on the visible map. */
  lemma {:induction false} DoView(st: Store, op: Op)
    requires st.Valid()
    ensures st.Do(op).Valid()
    ensures st.Do(op).View() == Effect(op, st.View())
    ensures forall k: nat :: st.Knows(k) ==> st.Do(op).Knows(k)
  {
    match op {
      case Upsert(id, vec, meta) => UpsertView(st, id, vec, meta);
      case Delete(id) => DeleteView(st, id);
    }
    forall k: nat | st.Knows(k) ensures st.Do(op).Knows(k) { KeepsKnown(st, st.Do(op), op.id, k); }
  }

  lemma {:induction false} UpsertView(st: Store, id: Id, vec: Vec, meta: Json)
    requires st.Valid()
    ensures st.Upsert(id, vec, meta).Valid()
    ensures st.Upsert(id, vec, meta).View() == st.View()[id := Value(Some(vec), Some(meta))]
  {
    var st' := st.Upsert(id, vec, meta);
    forall k: nat | st'.Live(k)
      ensures st'.slots[k].value.id in st'.ids && st'.ids[st'.slots[k].value.id] == k
    {
      if k != |st.slots| {
        assert st.Live(k);
      }
    }
    assert st'.Valid();
    assert st'.View() == st.View()[id := Value(Some(vec), Some(meta))];
  }

  lemma {:induction false} DeleteView(st: Store, id: Id)
    requires st.Valid()
    ensures st.Delete(id).Valid()
    ensures st.Delete(id).View() == st.View() - {id}
  {
    var st' := st.Delete(id);
    forall k: nat | st'.Live(k)
      ensures st'.slots[k].value.id in st'.ids && st'.ids[st'.slots[k].value.id] == k
    {
      assert st.Live(k);
    }
    assert st'.Valid();
    assert st'.View() == st.View() - {id};
  }

  lemma KeepsKnown(st: Store, st': Store, touched: Id, k: nat)
    requires st.Valid() && st.Knows(k)
    requires st.deleted <= st'.deleted
    requires forall id :: id in st.ids && id != touched ==> id in st'.ids && st'.ids[id] == st.ids[id]
    requires touched in st.ids ==>
               (st.ids[touched] in st'.deleted || (touched in st'.ids && st'.ids[touched] == st.ids[touched]))
    ensures st'.Knows(k)
  {
    if k !in st.deleted {
      var id :| id in st.ids && st.ids[id] == k;
      if id != touched {
        assert id in st'.ids && st'.ids[id] == k;
        assert k in st'.ids.Values;
      }
    }
  }

  /** A metadata-only update rebinds the id to its stored vector and the new metadata. */
  lemma {:induction false} UpdateMetadataView(st: Store, id: Id, meta: Json)
    requires st.Valid() && id in st.ids
    ensures var st' := st.UpdateMetadata(st.ids[id], meta);
            st'.Valid() && st'.View() == st.View()[id := Value(st.slots[st.ids[id]].value.vec, Some(meta))]
  {
    var st' := st.UpdateMetadata(st.ids[id], meta);
    assert forall k: nat :: st'.Live(k) <==> st.Live(k);
    assert st'.View() == st.View()[id := Value(st.slots[st.ids[id]].value.vec, Some(meta))];
  }

  // ---------- what users stored, and what recovery invented ----------

  /** The part of a map under user ids. */
  ghost function Users(m: View): View {
    map id | id in m && id.User? :: m[id]
  }

  /** The slots that have a synthetic record. */
  ghost function Synthetics(ids: set<Id>): set<nat> {
    set id | id in ids && id.Synthetic? :: id.slot
  }

  lemma SyntheticsOf(ids: set<Id>)
    ensures forall k: nat :: k in Synthetics(ids) <==> Synthetic(k) in ids
  {
    forall k: nat ensures k in Synthetics(ids) <==> Synthetic(k) in ids {
      if Synthetic(k) in ids { assert Synthetic(k).slot in Synthetics(ids); }
      if k in Synthetics(ids) {
        var id :| id in ids && id.Synthetic? && id.slot == k;
        assert id == Synthetic(k);
      }
    }
  }

  /** An operation of a user commutes with the restriction to users. */
  lemma UsersEffect(op: Op, m: View)
    requires op.id.User?
    ensures Users(Effect(op, m)) == Effect(op, Users(m))
  {
  }
}
