/** The `.vecs` file: incremental writing against full rewriting, and loading against writing. */
module VecsFiles {
  import opened Records
  import opened Recovery
  import opened Protocol

  /** What a full rewrite puts into `.vecs`. */
  function Rendered(st: Store, dim: nat): seq<Vec> {
    seq(|st.slots|, k requires 0 <= k < |st.slots| => st.Render(k, dim))
  }

  /** What an incremental write of `dirty` makes of `before`. */
  ghost predicate Patched(before: seq<Vec>, after: seq<Vec>, st: Store, dirty: set<nat>, dim: nat) {
    && |after| == Max(|before|, |st.slots|)
    && forall k :: 0 <= k < |after| ==>
         after[k] == if k in dirty then st.Render(k, dim) else if k < |before| then before[k] else Zeros(dim)
  }

  /** Slots whose bytes differ between two stores, a slot beyond the old store counting as zeros. */
  ghost predicate Covers(dirty: set<nat>, before: Store, after: Store, dim: nat) {
    forall k :: 0 <= k < |after.slots| && after.Render(k, dim) != before.Render(k, dim) ==> k in dirty
  }

  /** The later store has at least the slots of the earlier one. */
  ghost predicate Extends(before: Store, after: Store) {
    |before.slots| <= |after.slots| && forall k :: k in before.deleted ==> k < |before.slots|
  }

  /** Writing the dirty slots of a store that has not shrunk is the full rewrite, if and only if the
      dirty set covers every slot whose bytes changed. */
  lemma {:induction false} IncrementalIsFull(old': Store, new': Store, after: seq<Vec>, dirty: set<nat>, dim: nat)
    requires Extends(old', new') && Patched(Rendered(old', dim), after, new', dirty, dim)
    ensures after == Rendered(new', dim) <==> Covers(dirty, old', new', dim)
  {
    if Covers(dirty, old', new', dim) {
      forall k | 0 <= k < |after| ensures after[k] == new'.Render(k, dim) {
        if k !in dirty { assert new'.Render(k, dim) == old'.Render(k, dim); }
      }
    } else {
      var k :| 0 <= k < |new'.slots| && new'.Render(k, dim) != old'.Render(k, dim) && k !in dirty;
      assert after[k] == old'.Render(k, dim) && Rendered(new', dim)[k] == new'.Render(k, dim);
    }
  }

  /** The same for whatever store `.vecs` held before. */
  lemma PatchedIsFull(was: seq<Vec>, st: Store, after: seq<Vec>, dirty: set<nat>, dim: nat)
    requires Patched(was, after, st, dirty, dim)
    ensures forall before: Store :: Extends(before, st) && was == Rendered(before, dim) ==>
              (after == Rendered(st, dim) <==> Covers(dirty, before, st, dim))
  {
    forall before: Store | Extends(before, st) && was == Rendered(before, dim)
      ensures after == Rendered(st, dim) <==> Covers(dirty, before, st, dim)
    {
      IncrementalIsFull(before, st, after, dirty, dim);
    }
  }

  /** The store's own dirty set covers everything operations change. */
  lemma {:induction false} OperationsMarkDirty(st: Store, op: Op, base: Store, dim: nat)
    requires st.Valid() && Covers(st.dirty, base, st, dim) && |base.slots| <= |st.slots|
    requires forall k :: k in base.deleted ==> k < |base.slots|
    ensures Covers(st.Do(op).dirty, base, st.Do(op), dim)
  {
    var st' := st.Do(op);
    forall k | 0 <= k < |st'.slots| && st'.Render(k, dim) != base.Render(k, dim) ensures k in st'.dirty {
      if k < |st.slots| && st'.Render(k, dim) == st.Render(k, dim) { assert k in st.dirty; }
    }
  }

  lemma {:induction false} MetadataMarksDirty(st: Store, j: nat, meta: Json, base: Store, dim: nat)
    requires Covers(st.dirty, base, st, dim)
    ensures Covers(st.UpdateMetadata(j, meta).dirty, base, st.UpdateMetadata(j, meta), dim)
  {
    var st' := st.UpdateMetadata(j, meta);
    forall k | 0 <= k < |st'.slots| && st'.Render(k, dim) != base.Render(k, dim) ensures k in st'.dirty {
      assert st'.Render(k, dim) == st.Render(k, dim);
    }
  }

  /** Files as a flush of `st` leaves them. */
  ghost predicate FlushedFiles(d: Disk, st: Store) {
    && !d.SlimLoaded() && d.omen.usesVecs && d.omen.tables == ManifestTables(st)
    && d.vecs == Rendered(st, d.dim)
    && forall k :: 0 <= k < |st.slots| && st.Live(k) && st.slots[k].value.vec.Some? ==>
         |st.slots[k].value.vec.value| == d.dim
  }

  /** What a load should return for slot `k`. */
  function Expected(st: Store, k: nat): Option<Vec> {
    if st.Live(k) then st.slots[k].value.vec else None
  }

  /** Loading gives every live vector back, all-zero ones included, and nothing for deleted, empty and
      vectorless slots, if and only if some live slot has a vector or no slot is live: with an empty
      dense list every live id counts as dense, and vectorless records come back as zeros. */
  lemma {:induction false} LoadRoundTrip(d: Disk, st: Store)
    requires st.Valid() && FlushedFiles(d, st)
    ensures (forall k: nat :: d.LoadedVector(k) == Expected(st, k)) <==> st.DenseSlots() != {} || st.ids == map[]
  {
    if st.DenseSlots() != {} || st.ids == map[] {
      forall k: nat ensures d.LoadedVector(k) == Expected(st, k) { LoadsSlot(d, st, k); }
    } else {
      var id :| id in st.ids;
      var k := st.ids[id];
      assert st.Live(k) && k !in st.DenseSlots();
      assert k in d.omen.tables.ids.Values && k in d.KnownDense();
      assert d.LoadedVector(k).Some? && Expected(st, k) == None;
    }
  }

  lemma LoadsSlot(d: Disk, st: Store, k: nat)
    requires st.Valid() && FlushedFiles(d, st) && (st.DenseSlots() != {} || st.ids == map[])
    ensures d.LoadedVector(k) == Expected(st, k)
  {
    if st.Live(k) {
      assert st.ids[st.slots[k].value.id] == k;
      assert k in st.DenseSlots() <==> st.slots[k].value.vec.Some?;
    } else {
      assert k !in st.DenseSlots() && k !in st.ids.Values;
    }
  }
}
