/** A flush that compacts first: the store is renumbered and every slot of `.vecs` is rewritten in place,
    while the old snapshot, with the old slots, is still the one recovery reads. */
module CompactingFlush {
  import opened Records
  import opened Recovery
  import opened Compaction
  import opened Protocol
  import opened Safety
  import opened Atomicity
  import opened Restoration

  /** An id whose vector recovery takes from `.vecs`: no replayed entry replaces it. */
  ghost predicate Exposed(s: State, id: Id) {
    id.User? && id in s.disk.Base().ids && !Touches(s.disk.Replayed(), id)
  }

  /** What a caller can test before such a flush: each exposed slot is past the end of the compacted
      store, or is rewritten with the bytes it has. */
  ghost predicate InPlace(s: State) {
    forall id :: Exposed(s, id) ==>
      var k, c := s.disk.Base().ids[id], Compacted(s.mem);
      k < |c.slots| && k < |s.disk.vecs| ==> c.Render(k, s.disk.dim) == s.disk.vecs[k]
  }

  /** A crash outcome before the rename differs from the files before the flush in slots of `.vecs`
      only, each of which holds the old bytes or those of the compacted store. */
  ghost predicate Overwritten(s: State, d: Disk) {
    && d == s.disk.(vecs := d.vecs) && |s.disk.vecs| <= |d.vecs|
    && forall k :: 0 <= k < |s.disk.vecs| ==>
         || d.vecs[k] == s.disk.vecs[k]
         || (k < |Compacted(s.mem).slots| && d.vecs[k] == Compacted(s.mem).Render(k, s.disk.dim))
  }

  lemma CrashOverwrites(s: State, w: set<nat>, t: State, d: Disk)
    requires Inv(s) && s.phase.Idle? && s.disk.omen.usesVecs && Compacted(s.mem).slots != []
    requires During(Do(s, Compact), Incremental, w, t) && CrashBeforeRename(t, d)
    ensures Overwritten(s, d)
  {
    var c := Do(s, Compact);
    assert forall k :: k in w ==> k < |c.mem.slots|;
  }

  lemma OverwrittenBase(s: State, d: Disk)
    requires Inv(s) && s.phase.Idle? && Overwritten(s, d)
    ensures d.Opens() && d.Sane() && d.Base() == s.disk.Base() && d.Replayed() == s.disk.Replayed()
    ensures s.disk.Sane() && CrashOutcome(s, s.disk)
    ensures forall i :: 0 <= i < |d.Replayed()| ==> d.Replayed()[i].op.id.User?
  {
    assert CrashOutcome(s, s.disk);
    assert d.VectorCount() >= s.disk.VectorCount();
    FitsMore(s.disk.Base(), s.disk.omen.tables, s.disk.VectorCount(), d.VectorCount());
    UserLogOf(s, s.disk);
    OtherVectors(s.disk, d.vecs);
  }

  /** Users find what memory shows, if `.vecs` still holds the vector of every exposed id. */
  lemma OverwrittenKeeps(s: State, d: Disk)
    requires Inv(s) && s.phase.Idle? && Overwritten(s, d)
    requires forall id :: Exposed(s, id) ==> d.vecs[s.disk.Base().ids[id]] == s.disk.vecs[s.disk.Base().ids[id]]
    ensures d.Keeps(s.mem.View())
  {
    OverwrittenBase(s, d);
    UsersRecovered(d);
    UsersRecovered(s.disk);
    forall id ensures Touches(d.Replayed(), id) || Agree(Users(d.BaseView()), Users(s.disk.BaseView()), id) {
      UnexposedAgree(s, d, id);
    }
    ApplyAgree(d.Replayed(), Users(d.BaseView()), Users(s.disk.BaseView()));
    assert Users(s.disk.Recover().View()) == Users(s.mem.View()) by { CrashExact(s, s.disk); }
  }

  lemma UnexposedAgree(s: State, d: Disk, id: Id)
    requires d.Base() == s.disk.Base() && d.Replayed() == s.disk.Replayed() && |s.disk.vecs| <= |d.vecs|
    requires forall id :: id in s.disk.Base().ids ==> s.disk.Base().ids[id] < |s.disk.vecs|
    requires forall id :: Exposed(s, id) ==> d.vecs[s.disk.Base().ids[id]] == s.disk.vecs[s.disk.Base().ids[id]]
    ensures Touches(d.Replayed(), id) || Agree(Users(d.BaseView()), Users(s.disk.BaseView()), id)
  {
    if id.User? && !Touches(d.Replayed(), id) && id in s.disk.Base().ids { assert Exposed(s, id); }
  }

  /** An exposed id is found with whatever its slot holds. */
  lemma ExposedShows(s: State, d: Disk, id: Id)
    requires Inv(s) && s.phase.Idle? && Overwritten(s, d) && Exposed(s, id)
    ensures var k := s.disk.Base().ids[id];
            && k < |s.disk.vecs| && d.Opens()
            && id in d.Recover().View() && d.Recover().View()[id].vec == Some(d.vecs[k])
            && id in s.mem.View() && s.mem.View()[id].vec == Some(s.disk.vecs[k])
  {
    OverwrittenBase(s, d);
    UsersRecovered(d);
    UsersRecovered(s.disk);
    ApplyUntouched(d.Replayed(), Users(d.BaseView()), id);
    ApplyUntouched(d.Replayed(), Users(s.disk.BaseView()), id);
    CrashExact(s, s.disk);
    assert id in Users(d.Recover().View()) && id in Users(s.mem.View());
    assert Users(s.mem.View())[id] == Users(s.disk.Recover().View())[id];
  }

  /** The files when slot `k` of the compacted store has been written and kept, and nothing else. */
  lemma OneSlot(s: State, k: nat) returns (t: State, d: Disk)
    requires Inv(s) && s.phase.Idle? && s.disk.omen.usesVecs && k < |Compacted(s.mem).slots| && k < |s.disk.vecs|
    ensures During(Do(s, Compact), Incremental, {k}, t) && CrashBeforeRename(t, d) && Overwritten(s, d)
    ensures d.vecs[k] == Compacted(s.mem).Render(k, s.disk.dim)
  {
    var c := Do(s, Compact);
    CompactedView(s.mem);
    AllBelow(|c.mem.slots|);
    var b := Do(c, Begin(Incremental));
    DuringSteps(c, Incremental, {}, b, k);
    t := Do(b, WriteSlot(k));
    assert {} + {k} == {k};
    d := t.disk.(vecs := t.cache);
    assert CrashOutcome(t, d) && d.vecs[k] == c.mem.Render(k, s.disk.dim) by { WholeCache(c, {k}, t); }
    CrashOverwrites(s, {k}, t, d);
  }

  lemma WholeCache(c: State, w: set<nat>, t: State)
    requires During(c, Incremental, w, t) && |c.disk.vecs| <= |c.cache|
    requires forall k :: 0 <= k < |c.cache| ==> |c.cache[k]| == c.disk.dim
    ensures CrashOutcome(t, t.disk.(vecs := t.cache))
    ensures forall k :: k in w && k < |t.cache| ==> t.cache[k] == c.mem.Render(k, c.disk.dim)
  {
    RenderLengths(c.mem, c.disk.dim);
  }

  /** A compacting flush keeps what users stored through every crash before its rename, whatever slots
      were written and whichever of them survived, if and only if `InPlace` held before it. */
  lemma {:induction false} CompactingFlushAtomic(s: State)
    requires Inv(s) && s.phase.Idle? && s.disk.omen.usesVecs && Compacted(s.mem).slots != []
    ensures (forall w, t, d :: During(Do(s, Compact), Incremental, w, t) && CrashBeforeRename(t, d) ==>
                                 d.Keeps(s.mem.View()))
            <==> InPlace(s)
  {
    if InPlace(s) {
      forall w, t, d | During(Do(s, Compact), Incremental, w, t) && CrashBeforeRename(t, d)
        ensures d.Keeps(s.mem.View())
      {
        CrashOverwrites(s, w, t, d);
        ExposedSlots(s);
        OverwrittenKeeps(s, d);
      }
    } else {
      var id :| Exposed(s, id) && Misplaced(s, id);
      ExposedLost(s, id);
    }
  }

  ghost predicate Misplaced(s: State, id: Id)
    requires id in s.disk.Base().ids
  {
    var k, c := s.disk.Base().ids[id], Compacted(s.mem);
    k < |c.slots| && k < |s.disk.vecs| && c.Render(k, s.disk.dim) != s.disk.vecs[k]
  }

  /** A crash before the rename of a compacting flush can leave files that open and show `vec` under
      `id`, and do not keep what users stored. */
  ghost predicate FoundWith(s: State, id: Id, vec: Vec) {
    && s.mem.Valid() && s.phase.Idle?
    && exists w, t, d ::
         && During(Do(s, Compact), Incremental, w, t) && CrashBeforeRename(t, d)
         && d.Opens() && !d.Keeps(s.mem.View())
         && id in d.Recover().View() && d.Recover().View()[id].vec == Some(vec)
  }

  /** An exposed id whose slot gets other bytes: one slot written is enough for it to be found with the
      vector of another id, or none. */
  lemma {:induction false} ExposedLost(s: State, id: Id)
    requires Inv(s) && s.phase.Idle? && s.disk.omen.usesVecs && Exposed(s, id) && Misplaced(s, id)
    ensures FoundWith(s, id, Compacted(s.mem).Render(s.disk.Base().ids[id], s.disk.dim))
  {
    var k := s.disk.Base().ids[id];
    var t, d := OneSlot(s, k);
    ExposedShows(s, d, id);
    UsersDiffer(d.Recover().View(), s.mem.View(), id);
    assert During(Do(s, Compact), Incremental, {k}, t);
  }

  lemma UsersDiffer(a: View, b: View, id: Id)
    requires id.User? && id in a && id in b && a[id].vec != b[id].vec
    ensures Users(a) != Users(b)
  {
    assert Users(a)[id] != Users(b)[id];
  }

  lemma ExposedSlots(s: State)
    requires Inv(s)
    ensures forall id :: Exposed(s, id) ==> s.disk.Base().ids[id] < |s.disk.vecs|
  {
  }

  // ---------- what a completed one leaves ----------

  /** Slots past the end of the compacted store are not cleared: once the flush is done, a clean reopen
      shows memory if and only if they held no vector. */
  lemma {:induction false} TailRevived(st: Store, e: State)
    requires st.Valid() && Rebased(e) && Enabled(e, WriteMeta) && e.disk.omen.usesVecs
    requires e.mem == Compacted(st).(dirty := {})
    ensures var t := Do(e, WriteMeta);
            && CrashOutcome(t, t.disk)
            && (t.disk.Shows(t.mem.View()) <==>
                forall k :: |t.mem.slots| <= k < |t.disk.vecs| ==> IsZero(t.disk.vecs[k]))
  {
    var t := Do(e, WriteMeta);
    WriteMetaRestores(e);
    CompactedIndex(st);
    assert t.disk.Base() == e.disk.Base();
    TailShows(t);
  }

  lemma TailShows(t: State)
    requires Inv(t) && t.phase.Idle? && t.disk.omen.usesVecs && t.disk.wal == []
    requires t.disk.Base().ids == t.mem.ids && t.mem.deleted == {} && t.disk.Base().deleted == {}
    requires forall k: nat :: k < |t.mem.slots| ==> t.mem.slots[k].Some?
    ensures CrashOutcome(t, t.disk) && !t.disk.FilterOn()
    ensures forall k: nat :: k in t.disk.Phantoms() <==>
                             |t.mem.slots| <= k < |t.disk.vecs| && !IsZero(t.disk.vecs[k])
    ensures t.disk.Shows(t.mem.View()) <==>
            forall k :: |t.mem.slots| <= k < |t.disk.vecs| ==> IsZero(t.disk.vecs[k])
  {
    var d := t.disk;
    assert CrashOutcome(t, d);
    CrashExact(t, d);
    assert Ghosts(t) == {} by { SyntheticsOf(t.mem.ids.Keys - d.Base().ids.Keys); }
    assert !d.FilterOn();
    forall k: nat ensures k in d.Phantoms() <==> |t.mem.slots| <= k < |d.vecs| && !IsZero(d.vecs[k]) {
      if k < |t.mem.slots| {
        assert t.mem.Live(k) && t.mem.ids[t.mem.slots[k].value.id] == k;
      } else {
        assert k !in t.mem.ids.Values;
      }
    }
  }

  // ---------- an auto-checkpoint after a compaction ----------

  /** The loader of `.vecs` skips the tombstones of the last manifest. An auto-checkpoint keeps the vector
      of an id if and only if its slot is not one of them; compaction moves records onto them. */
  lemma {:induction false} AutoVector(s: State, now: nat, t: State, d: Disk, id: Id)
    requires MemOk(s) && CacheOk(s) && Enabled(s, Publish(now)) && s.phase.kind == Auto
    requires Readable(s, Publish(now)) && s.disk.limits.opens(s.disk.omen)
    requires Truncated(s, now, t) && CrashOutcome(t, d) && id in s.mem.ids
    ensures d.Opens() && id in d.Recover().View() && id in t.mem.View()
    ensures d.Recover().View()[id].vec
            == if s.mem.ids[id] in s.disk.omen.tables.deleted then None else t.mem.View()[id].vec
  {
    var k := s.mem.ids[id];
    AutoDisks(s, now, t, d);
    assert Indexed(d.Base());
    BuiltRecord(d, id);
    assert d.Recover() == d.BuildInitial();
    assert k in s.mem.DenseSlots();
  }

  lemma AutoDisks(s: State, now: nat, t: State, d: Disk)
    requires s.mem.Valid() && CacheOk(s) && Enabled(s, Publish(now)) && s.phase.kind == Auto
    requires Readable(s, Publish(now)) && s.disk.limits.opens(s.disk.omen)
    requires Truncated(s, now, t) && CrashOutcome(t, d)
    ensures d.Opens() && d.SlimLoaded() && d.Base() == SlimTables(s.mem) && d.Replayed() == [] && t.mem == s.mem
    ensures d.omen == s.disk.omen && d.vecs == s.cache
  {
    assert t.disk.records == Some(SlimNow(s)) && t.disk.limits == s.disk.limits;
    assert t.cache == s.cache == t.disk.vecs;
  }

  /** So every tombstone of the manifest that is below the end of the compacted store costs a record its
      vector, without a crash. */
  lemma {:induction false} CompactedVectorLost(st: Store, s: State, now: nat, t: State, d: Disk, k: nat)
    requires st.Valid() && s.mem == Compacted(st).(dirty := {})
    requires MemOk(s) && CacheOk(s) && Enabled(s, Publish(now)) && s.phase.kind == Auto
    requires Readable(s, Publish(now)) && s.disk.limits.opens(s.disk.omen)
    requires Truncated(s, now, t) && CrashOutcome(t, d)
    requires k in s.disk.omen.tables.deleted && k < |s.mem.slots|
    ensures s.mem.slots[k].Some?
    ensures var id := s.mem.slots[k].value.id;
            && id in t.mem.View() && t.mem.View()[id].vec.Some?
            && d.Opens() && id in d.Recover().View() && d.Recover().View()[id].vec == None
  {
    CompactedIndex(st);
    assert Compacted(st).slots == s.mem.slots && Compacted(st).ids == s.mem.ids;
    var id := s.mem.slots[k].value.id;
    assert id in s.mem.ids && s.mem.ids[id] == k;
    AutoVector(s, now, t, d, id);
    TruncatedMem(s, now, t);
  }
}
