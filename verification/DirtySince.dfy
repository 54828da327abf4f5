/** The slots a `.records` snapshot lists as dirty since the last manifest, from which a reopen patches
    the persisted index. They are meant to be all slots that the manifest does not have. */
module DirtySince {
  import opened Records
  import opened Recovery
  import opened Protocol
  import opened Compaction
  import opened Safety

  /** What the next snapshot would list, with the manifest's slots, is every live slot. */
  ghost predicate Covered(s: State) {
    forall id :: id in s.mem.ids ==> s.mem.ids[id] in s.disk.omen.tables.ids.Values + SlimNow(s).dirty
  }

  /** A checkpoint that will publish a manifest has dropped the dirty set. */
  predicate Flushing(s: State) {
    (s.phase.Writing? || s.phase.Synced?) && s.phase.kind != Auto
  }

  /** Within a session the promise is kept by every step. */
  lemma {:induction false} StepCovers(s: State, step: Step)
    requires Inv(s) && Enabled(s, step) && !step.Reopen? && (Flushing(s) || Covered(s))
    ensures Flushing(Do(s, step)) || Covered(Do(s, step))
  {
    var s' := Do(s, step);
    match step {
      case Log(op) => LogCovers(s, op);
      case Compact => CompactCovers(s);
      case Publish(now) =>
        if s.phase.kind == Auto { assert s'.mem == s.mem && s'.accumulated == s.accumulated; }
      case _ =>
    }
  }

  lemma CompactCovers(s: State)
    requires s.mem.Valid() && Enabled(s, Compact)
    ensures Covered(Do(s, Compact))
  {
    CompactedView(s.mem);
    AllBelow(|Compacted(s.mem).slots|);
  }

  lemma LogCovers(s: State, op: Op)
    requires s.mem.Valid() && Enabled(s, Log(op)) && Covered(s)
    ensures Covered(Do(s, Log(op)))
  {
    var s' := Do(s, Log(op));
    forall id | id in s'.mem.ids
      ensures s'.mem.ids[id] in s'.disk.omen.tables.ids.Values + SlimNow(s').dirty
    {
      if id != op.id { assert id in s.mem.ids && s'.mem.ids[id] == s.mem.ids[id]; }
    }
  }

  /** In every run without a reopen, a published snapshot lists every live slot that the manifest
      does not have. */
  lemma {:induction false} RunCovers(trace: seq<State>, steps: seq<Step>)
    requires GuardedRun(trace, steps)
    requires forall i :: 0 <= i < |steps| ==> !steps[i].Reopen?
    ensures Flushing(trace[|steps|]) || Covered(trace[|steps|])
    decreases |steps|
  {
    if steps == [] {
    } else {
      var n := |steps| - 1;
      Shorter(trace, steps);
      RunHolds(trace[..n + 1], steps[..n]);
      RunCovers(trace[..n + 1], steps[..n]);
      StepCovers(trace[n], steps[n]);
    }
  }

  /** A reopen starts the list again from nothing. That is right if and only if everything the base
      knows, but for what the log replaces, is in the manifest too: not after an auto-checkpoint
      that stored a new slot, and not when a stray is resurrected. */
  lemma {:induction false} ReopenCovers(s: State, d: Disk)
    requires Inv(s) && CrashOutcome(s, d)
    ensures Covered(Reopened(s, d)) <==>
            && d.Phantoms() == {}
            && forall id :: id in d.Base().ids && !Touches(d.Replayed(), id) ==>
                 d.Base().ids[id] in d.omen.tables.ids.Values
  {
    ReopenFacts(s, d);
    RecoveredSlots(d);
    var s' := Reopened(s, d);
    if d.Phantoms() != {} {
      var k :| k in d.Phantoms();
      assert s'.mem.ids[Synthetic(k)] == k && k !in SlimNow(s').dirty && k !in d.omen.tables.ids.Values;
    } else {
      forall id | id in s'.mem.ids && s'.mem.ids[id] !in SlimNow(s').dirty
        ensures id in d.Base().ids && !Touches(d.Replayed(), id) && s'.mem.ids[id] == d.Base().ids[id]
      {
        assert s'.mem.ids[id] !in d.Recover().dirty;
      }
      forall id | id in d.Base().ids && !Touches(d.Replayed(), id)
        ensures s'.mem.ids[id] == d.Base().ids[id] && s'.mem.ids[id] !in SlimNow(s').dirty
      {
        assert s'.mem.ids[id] !in d.Recover().dirty;
      }
    }
  }

  /** After a reopen a slot is dirty if its entry was replayed, and only then; others are the base's
      or a phantom's. */
  lemma RecoveredSlots(d: Disk)
    requires d.Sane() && d.Recover().Valid()
    requires forall i :: 0 <= i < |d.Replayed()| ==> d.Replayed()[i].op.id.User?
    ensures var r := d.Recover();
            && (forall id :: id in d.Base().ids && !Touches(d.Replayed(), id) ==>
                  id in r.ids && r.ids[id] == d.Base().ids[id] && r.ids[id] !in r.dirty)
            && (forall k :: k in d.Phantoms() ==> Synthetic(k) in r.ids && r.ids[Synthetic(k)] == k && k !in r.dirty)
            && (forall id :: id in r.ids && r.ids[id] !in r.dirty ==>
                  || (id in d.Base().ids && !Touches(d.Replayed(), id) && r.ids[id] == d.Base().ids[id])
                  || (id.Synthetic? && id.slot in d.Phantoms()))
  {
    var b, r := d.BuildInitial(), d.Recover();
    BuildView(d);
    ReplaySlots(d.Replayed(), b);
    forall id | id in d.Base().ids && !Touches(d.Replayed(), id)
      ensures id in r.ids && r.ids[id] == d.Base().ids[id] && r.ids[id] !in r.dirty
    {
      BuildReferenced(d, id);
    }
    forall k | k in d.Phantoms()
      ensures Synthetic(k) in r.ids && r.ids[Synthetic(k)] == k && k !in r.dirty
    {
      PhantomBuilt(d, k);
      assert !Touches(d.Replayed(), Synthetic(k));
    }
    forall id | id in r.ids && r.ids[id] !in r.dirty
      ensures || (id in d.Base().ids && !Touches(d.Replayed(), id) && r.ids[id] == d.Base().ids[id])
              || (id.Synthetic? && id.slot in d.Phantoms())
    {
      UndirtySlot(d, id);
    }
  }

  lemma UndirtySlot(d: Disk, id: Id)
    requires d.Sane() && id in d.Recover().ids && d.Recover().ids[id] !in d.Recover().dirty
    ensures || (id in d.Base().ids && !Touches(d.Replayed(), id) && d.Recover().ids[id] == d.Base().ids[id])
            || (id.Synthetic? && id.slot in d.Phantoms())
  {
    var b := d.BuildInitial();
    assert b.Valid() && b.View() == d.Shown() && b.dirty == {} by { BuildView(d); }
    ReplaySlots(d.Replayed(), b);
    TouchedDirty(d.Replayed(), b, id);
    assert id in b.ids && d.Recover().ids[id] == b.ids[id];
    assert id in d.Shown() by { assert id in b.View(); }
    if id in d.Base().ids { BuildReferenced(d, id); }
  }

  /** Replay leaves an id it touches in a dirty slot, or nowhere. */
  lemma {:induction false} TouchedDirty(es: seq<Entry>, st: Store, id: Id)
    requires st.Valid() && id in Replay(es, st).ids
    ensures Touches(es, id) ==> Replay(es, st).ids[id] in Replay(es, st).dirty
  {
    if es != [] {
      var es' := es[..|es| - 1];
      ReplayView(es', st);
      if es[|es| - 1].op.id != id {
        if Touches(es, id) {
          var i :| 0 <= i < |es| && es[i].op.id == id;
          assert es'[i].op.id == id;
        }
        TouchedDirty(es', st, id);
      }
    }
  }
}
