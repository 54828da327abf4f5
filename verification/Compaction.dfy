/** Compaction of the slot store: the live records move down over the tombstones, in order. */
module Compaction {
  import opened Records
  import opened Recovery

  /** The live slots among the first `n`, in order. */
  function Kept(st: Store, n: nat): (r: seq<nat>)
    requires n <= |st.slots|
    ensures forall i :: 0 <= i < |r| ==> r[i] < n
  {
    if n == 0 then [] else Kept(st, n - 1) + (if st.Live(n - 1) then [n - 1] else [])
  }

  function Gathered(st: Store, kept: seq<nat>): seq<Option<Rec>>
    requires forall i :: 0 <= i < |kept| ==> kept[i] < |st.slots|
  {
    seq(|kept|, i requires 0 <= i < |kept| => st.slots[kept[i]])
  }

  /** The store renumbered without its tombstones; every slot is dirty. */
  function Compacted(st: Store): Store {
    var slots := Gathered(st, Kept(st, |st.slots|));
    Store(slots, {}, Rebuild(slots, {}, |slots|), SlotsBelow(|slots|))
  }

  /** The kept slots are the live ones, in ascending order. */
  lemma {:induction false} KeptLive(st: Store, n: nat)
    requires n <= |st.slots|
    ensures var kept := Kept(st, n);
            && |kept| <= n
            && (forall i, j :: 0 <= i < j < |kept| ==> kept[i] < kept[j])
            && (forall i :: 0 <= i < |kept| ==> st.Live(kept[i]) && i <= kept[i])
            && (forall k: nat :: k < n && st.Live(k) ==> k in kept)
  {
    if n > 0 { KeptLive(st, n - 1); }
  }

  /** The index of the compacted store, by position among the kept slots. */
  lemma CompactedIndex(st: Store)
    requires st.Valid()
    ensures var c, kept := Compacted(st), Kept(st, |st.slots|);
            && |c.slots| == |kept| <= |st.slots|
            && (forall i :: 0 <= i < |kept| ==>
                  && st.Live(kept[i]) && i <= kept[i] && c.slots[i] == st.slots[kept[i]]
                  && c.slots[i].value.id in c.ids && c.ids[c.slots[i].value.id] == i)
            && (forall id :: id in c.ids ==> c.ids[id] < |kept| && c.slots[c.ids[id]].value.id == id)
  {
    var c, kept := Compacted(st), Kept(st, |st.slots|);
    KeptLive(st, |st.slots|);
    forall i, j | 0 <= i < j < |c.slots| ensures c.slots[i].value.id != c.slots[j].value.id {
      assert st.Live(kept[i]) && st.Live(kept[j]);
    }
    RebuildIndex(c.slots, {}, |c.slots|);
    assert forall i :: 0 <= i < |kept| ==> st.Live(kept[i]);
  }

  lemma CompactedValid(st: Store)
    requires st.Valid()
    ensures Compacted(st).Valid()
  {
    CompactedIndex(st);
    var c := Compacted(st);
    assert forall k: nat :: c.Live(k) ==> k < |c.slots|;
  }

  /** Every id keeps its record, in a slot no higher than before. */
  lemma CompactedSlot(st: Store, id: Id)
    requires st.Valid()
    ensures var c := Compacted(st);
            && (id in c.ids <==> id in st.ids)
            && (id in st.ids ==>
                  && c.ids[id] < |c.slots| && c.ids[id] <= st.ids[id]
                  && c.slots[c.ids[id]] == st.slots[st.ids[id]])
  {
    var c, kept := Compacted(st), Kept(st, |st.slots|);
    CompactedIndex(st);
    KeptLive(st, |st.slots|);
    if id in c.ids { assert st.Live(kept[c.ids[id]]) && st.slots[kept[c.ids[id]]].value.id == id; }
    if id in st.ids {
      var i :| 0 <= i < |kept| && kept[i] == st.ids[id];
      assert c.slots[i].value.id == id;
    }
  }

  /** Compaction keeps every record under its id, in a slot no higher than before, and leaves no
      tombstone. */
  lemma {:induction false} CompactedView(st: Store)
    requires st.Valid()
    ensures var c := Compacted(st);
            && c.Valid() && c.View() == st.View() && c.deleted == {} && c.dirty == SlotsBelow(|c.slots|)
            && |c.slots| <= |st.slots|
            && (forall id :: id in c.ids <==> id in st.ids)
            && forall id :: id in st.ids ==>
                 && c.ids[id] < |c.slots| && c.ids[id] <= st.ids[id]
                 && c.slots[c.ids[id]] == st.slots[st.ids[id]]
  {
    var c := Compacted(st);
    CompactedIndex(st);
    CompactedValid(st);
    forall id
      ensures id in c.ids <==> id in st.ids
      ensures id in st.ids ==>
                && c.ids[id] < |c.slots| && c.ids[id] <= st.ids[id]
                && c.slots[c.ids[id]] == st.slots[st.ids[id]]
      ensures Agree(c.View(), st.View(), id)
    {
      CompactedSlot(st, id);
    }
    SameView(c.View(), st.View());
  }
}
