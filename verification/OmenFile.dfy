/** The storage file object and the store above it, as the imperative code that drives the protocol.
    Each method extends `trace` by one protocol step per durable action it performs, so the results
    about runs apply to every point inside every method. */
module OmenFiles {
  import opened Records
  import opened Recovery
  import opened Protocol
  import opened Restoration
  import opened Safety
  import opened VecsFiles

  /** A step a checkpoint takes. */
  predicate Checkpointing(step: Step) {
    !step.Log? && !step.LogMetadata? && !step.Reopen? && !step.Compact?
  }

  /** The run has gone on, by checkpoint steps only, those of an auto-checkpoint only if `auto`; if
      `sound`, nothing was published that cannot be read again. */
  ghost predicate GoneOn(
    trace: seq<State>, steps: seq<Step>, trace': seq<State>, steps': seq<Step>, auto: bool, sound: bool)
  {
    && trace <= trace' && steps <= steps' && |trace'| == |steps'| + 1
    && forall i :: |steps| <= i < |steps'| ==> Went(trace'[i], steps'[i], auto, sound)
  }

  /** A step of a checkpoint, with the same meaning of `auto` and `sound`. */
  ghost predicate Went(s: State, step: Step, auto: bool, sound: bool) {
    Checkpointing(step) && (step == Begin(Auto) ==> auto) && (sound ==> Readable(s, step))
  }

  ghost predicate Holds(s: State, view: View) {
    Inv(s) && s.mem.View() == view
  }

  /** Every state a checkpoint goes through keeps the invariant and shows the same map. */
  lemma {:induction false} CheckpointKeeps(trace: seq<State>, steps: seq<Step>, i: nat)
    requires Run(trace, steps) && i <= |steps| && Inv(trace[i])
    requires forall k :: i <= k < |steps| ==> Went(trace[k], steps[k], true, true)
    ensures forall j :: i <= j <= |steps| ==> Holds(trace[j], trace[i].mem.View())
    decreases |steps| - i
  {
    if i < |steps| {
      KeepsView(trace, steps, i);
      CheckpointKeeps(trace, steps, i + 1);
    }
  }

  lemma KeepsView(trace: seq<State>, steps: seq<Step>, i: nat)
    requires Run(trace, steps) && i < |steps| && Inv(trace[i]) && Went(trace[i], steps[i], true, true)
    ensures Inv(trace[i + 1]) && trace[i + 1].mem.View() == trace[i].mem.View()
  {
    assert Taken(trace, steps, i);
    StepInv(trace[i], steps[i]);
    StepView(trace[i], steps[i]);
  }

  /** The state a publication leaves. */
  ghost predicate AfterRename(s: State, d: Disk, accumulated: set<nat>, s': State) {
    && s'.disk == d && s'.cache == s.cache && s'.mem == s.mem && s'.walEpoch == s.walEpoch && s'.nextTs == s.nextTs
    && s'.accumulated == accumulated && s'.phase == Published
    && s'.contained == s'.skipped == |s.disk.wal| && s'.baseView == s.mem.View()
  }

  lemma PublishesManifest(s: State, m: Manifest, now: nat, s': State)
    requires s.mem.Valid() && Enabled(s, Publish(now)) && s.phase.kind != Auto
    requires m == ManifestOf(s.mem, s.disk.dim, s.disk.omen.usesVecs, CutoffOf(s.walEpoch, s.disk.wal, s.nextTs))
    requires AfterRename(s, s.disk.(omen := m, omenTime := now), {}, s')
    ensures Follows(s, Publish(now), s')
  {
  }

  lemma PublishesRecords(s: State, now: nat, s': State)
    requires s.mem.Valid() && Enabled(s, Publish(now)) && s.phase.kind == Auto && s.mem.dirty == {}
    requires AfterRename(s, s.disk.(records := Some(Slim(SlimTables(s.mem), s.accumulated, s.walEpoch)),
                                  recordsTime := now),
                   s.accumulated, s')
    ensures Follows(s, Publish(now), s')
  {
    assert s.accumulated + {} == s.accumulated;
  }

  /** A checkpoint that publishes a manifest mends what the log lacks: once it has truncated the log the
      full invariant holds. */
  lemma {:induction false} CheckpointMends(trace: seq<State>, steps: seq<Step>, i: nat, j: nat)
    requires Run(trace, steps) && i <= j <= |steps| && Sound(trace[i])
    requires forall k :: i <= k < |steps| ==> Went(trace[k], steps[k], false, true)
    ensures Sound(trace[j])
    ensures i < j && steps[j - 1].WriteMeta? ==> Inv(trace[j]) && SafeToAppend(trace[j])
    decreases j - i
  {
    if i < j {
      assert Taken(trace, steps, i) && Went(trace[i], steps[i], false, true);
      Mends(trace[i], steps[i], trace[i + 1]);
      CheckpointMends(trace, steps, i + 1, j);
    }
  }

  lemma Mends(s: State, step: Step, s': State)
    requires Sound(s) && Follows(s, step, s') && Checkpointing(step) && step != Begin(Auto) && Readable(s, step)
    ensures Sound(s') && (step.WriteMeta? ==> Inv(s') && SafeToAppend(s'))
  {
    SoundStep(s, step);
  }

  class OmenFile {
    const dim: nat
    const limits: Limits
    var wal: seq<Entry>
    var metaEpoch: nat
    var vecs: seq<Vec>     // `.vecs` as of its last fsync
    var mapping: seq<Vec>  // `.vecs` through the memory mapping
    var manifest: Manifest
    var omenTime: nat
    var slim: Option<Slim>
    var recordsTime: nat
    var truncationEpoch: nat
    var nextTimestamp: nat
    var accumulatedDirty: set<nat>

    ghost var contained: nat
    ghost var skipped: nat
    ghost var baseView: View
    ghost var trace: seq<State>
    ghost var steps: seq<Step>

    ghost function Files(): Disk
      reads this
    {
      Disk(dim, wal, metaEpoch, vecs, manifest, omenTime, slim, recordsTime, limits)
    }

    ghost function At(records: Store, phase: Phase): State
      reads this
    {
      State(Files(), mapping, records, truncationEpoch, nextTimestamp, accumulatedDirty,
            phase, contained, skipped, baseView)
    }

    /** The trace is a run of the protocol that ends in the present state. */
    ghost predicate Traced(records: Store, phase: Phase)
      reads this
    {
      Run(trace, steps) && trace[|steps|] == At(records, phase)
    }

    constructor (dim: nat, limits: Limits)
      ensures this.dim == dim && this.limits == limits
      ensures Traced(EMPTY, Idle) && trace == [Init(dim, 0, limits)] && steps == []
    {
      this.dim, this.limits := dim, limits;
      wal, metaEpoch, vecs, mapping := [], 0, [], [];
      manifest, omenTime := Manifest(NO_TABLES, false, None), 0;
      slim, recordsTime := None, 0;
      truncationEpoch, nextTimestamp, accumulatedDirty := 0, 0, {};
      contained, skipped, baseView := 0, 0, map[];
      trace, steps := [Init(dim, 0, limits)], [];
    }

    /** Put the step just performed on the trace. */
    ghost method Took(step: Step, records: Store, phase: Phase)
      requires Run(trace, steps) && Follows(trace[|steps|], step, At(records, phase))
      modifies this`trace, this`steps
      ensures Traced(records, phase) && trace == old(trace) + [At(records, phase)] && steps == old(steps) + [step]
      ensures Checkpointing(step) ==>
                GoneOn(old(trace), old(steps), trace, steps, step == Begin(Auto),
                       Readable(old(trace)[|old(steps)|], step))
    {
      RunGrows(trace, steps, step, At(records, phase));
      trace, steps := trace + [At(records, phase)], steps + [step];
    }

    /** Log one operation. */
    method WalAppend(op: Op)
      modifies this`wal, this`nextTimestamp
      ensures wal == old(wal) + [Entry(old(nextTimestamp), op)] && nextTimestamp == old(nextTimestamp) + 1
    {
      wal := wal + [Entry(nextTimestamp, op)];
      nextTimestamp := nextTimestamp + 1;
    }

    /** Empty the log. */
    method EmptyWal(records: Store)
      requires records.Valid() && Traced(records, Published)
      modifies this`wal, this`contained, this`skipped, this`trace, this`steps
      ensures Traced(records, Emptied) && wal == []
      ensures GoneOn(old(trace), old(steps), trace, steps, false, true)
    {
      wal := [];
      contained, skipped := 0, 0;
      Took(EmptyLog, records, Emptied);
    }

    /** A checkpoint has just been completed. */
    ghost predicate Finished()
      reads this
    {
      steps != [] && steps[|steps| - 1] == WriteMeta
    }

    /** Advance the epoch and write it to the sidecar. */
    method AdvanceEpoch(records: Store)
      requires records.Valid() && Traced(records, Emptied)
      modifies this`truncationEpoch, this`metaEpoch, this`trace, this`steps
      ensures Traced(records, Idle) && metaEpoch == truncationEpoch == old(truncationEpoch) + 1
      ensures GoneOn(old(trace), old(steps), trace, steps, false, true) && Finished()
    {
      truncationEpoch := truncationEpoch + 1;
      metaEpoch := truncationEpoch;
      Took(WriteMeta, records, Idle);
    }

    method WalTruncate(records: Store)
      requires records.Valid() && Traced(records, Published)
      modifies this`wal, this`truncationEpoch, this`metaEpoch, this`contained, this`skipped, this`trace, this`steps
      ensures Traced(records, Idle) && wal == [] && metaEpoch == truncationEpoch == old(truncationEpoch) + 1
      ensures GoneOn(old(trace), old(steps), trace, steps, false, true) && Finished()
    {
      EmptyWal(records);
      AdvanceEpoch(records);
    }

    /** Grow the mapping to `n` slots, zero-filled. */
    method Grow(n: nat)
      modifies this`mapping
      ensures mapping == Grown(old(mapping), n, dim)
    {
      if n > |mapping| {
        mapping := mapping + seq(n - |mapping|, _ => Zeros(dim));
      }
    }

    /** Copy the dirty slots into the mapping, one at a time. */
    method WriteDirty(kind: Kind, records: Store, dirty: set<nat>)
      requires records.Valid() && Traced(records, Writing(kind, dirty))
      requires forall k :: k in dirty ==> k < |mapping|
      modifies this`mapping, this`trace, this`steps
      ensures Traced(records, Writing(kind, {})) && |mapping| == |old(mapping)|
      ensures forall k :: 0 <= k < |mapping| ==>
                mapping[k] == if k in dirty then records.Render(k, dim) else old(mapping)[k]
      ensures GoneOn(old(trace), old(steps), trace, steps, false, true)
    {
      var todo := dirty;
      while todo != {}
        invariant todo <= dirty && |mapping| == |old(mapping)|
        invariant forall k :: 0 <= k < |mapping| ==>
                    mapping[k] == if k in dirty && k !in todo then records.Render(k, dim) else old(mapping)[k]
        invariant Traced(records, Writing(kind, todo))
        invariant GoneOn(old(trace), old(steps), trace, steps, false, true)
      {
        var k :| k in todo;
        mapping := mapping[k := records.Render(k, dim)];
        todo := todo - {k};
        Took(WriteSlot(k), records, Writing(kind, todo));
      }
    }

    /** Write `.records` beside the file and rename it into place. */
    method WriteRecordsSnapshot(records: Store, now: nat)
      requires records.Valid() && records.dirty == {} && Traced(records, Synced(Auto))
      requires now > omenTime && now > recordsTime
      modifies this`slim, this`recordsTime, this`contained, this`skipped, this`baseView, this`trace, this`steps
      ensures Traced(records, Published) && recordsTime == now
      ensures slim == Some(Slim(SlimTables(records), accumulatedDirty, truncationEpoch))
      ensures GoneOn(old(trace), old(steps), trace, steps, false, limits.readable(slim.value))
    {
      ghost var s := trace[|steps|];
      slim := Some(Slim(SlimTables(records), accumulatedDirty, truncationEpoch));
      recordsTime := now;
      contained, skipped, baseView := |wal|, |wal|, records.View();
      PublishesRecords(s, now, At(records, Published));
      Took(Publish(now), records, Published);
    }

    /** Publish `.records`, then truncate the log. */
    method PublishRecords(records: Store, now: nat)
      requires records.Valid() && records.dirty == {} && Traced(records, Synced(Auto))
      requires now > omenTime && now > recordsTime
      modifies this`slim, this`recordsTime, this`wal, this`truncationEpoch, this`metaEpoch, this`contained,
               this`skipped, this`baseView, this`trace, this`steps
      ensures Traced(records, Idle) && recordsTime == now
      ensures slim == Some(Slim(SlimTables(records), accumulatedDirty, old(truncationEpoch)))
      ensures GoneOn(old(trace), old(steps), trace, steps, false, limits.readable(slim.value))
      ensures wal == [] && metaEpoch == truncationEpoch == old(truncationEpoch) + 1
    {
      WriteRecordsSnapshot(records, now);
      WalTruncate(records);
    }

    /** The manifest a checkpoint of `records` publishes now. */
    ghost function ManifestNow(records: Store): Manifest
      reads this
    {
      ManifestOf(records, dim, manifest.usesVecs, CutoffOf(truncationEpoch, wal, nextTimestamp))
    }

    /** Write a manifest with the replay cutoff and rename it into place. */
    method PublishManifest(kind: Kind, records: Store, now: nat)
      requires records.Valid() && kind != Auto && Traced(records, Synced(kind)) && now > omenTime && now > recordsTime
      modifies this`manifest, this`omenTime, this`accumulatedDirty, this`contained, this`skipped, this`baseView,
               this`trace, this`steps
      ensures Traced(records, Published) && GoneOn(old(trace), old(steps), trace, steps, false, limits.opens(manifest))
      ensures manifest == old(ManifestNow(records)) && omenTime == now && accumulatedDirty == {}
    {
      ghost var s := trace[|steps|];
      manifest := ManifestOf(records, dim, manifest.usesVecs, CutoffOf(truncationEpoch, wal, nextTimestamp));
      omenTime, accumulatedDirty := now, {};
      contained, skipped, baseView := |wal|, |wal|, records.View();
      PublishesManifest(s, manifest, now, At(records, Published));
      Took(Publish(now), records, Published);
    }

    /** Publish a manifest, then truncate the log. */
    method WriteOmenManifest(kind: Kind, records: Store, now: nat)
      requires records.Valid() && kind != Auto && Traced(records, Synced(kind)) && now > omenTime && now > recordsTime
      modifies this`manifest, this`omenTime, this`accumulatedDirty, this`wal, this`truncationEpoch, this`metaEpoch,
               this`contained, this`skipped, this`baseView, this`trace, this`steps
      ensures Traced(records, Idle) && GoneOn(old(trace), old(steps), trace, steps, false, limits.opens(manifest))
      ensures Finished() && manifest == old(ManifestNow(records)) && omenTime == now && accumulatedDirty == {}
      ensures wal == [] && metaEpoch == truncationEpoch == old(truncationEpoch) + 1
    {
      PublishManifest(kind, records, now);
      WalTruncate(records);
    }

    /** The dirty slots are written and synced, every other slot is as it was. That makes `.vecs` what
        a full rewrite makes of it, if it held one of an earlier store, exactly when the dirty set
        covers the slots that changed since. */
    twostate predicate Rewritten(records: Store, dirty: set<nat>)
      reads this
    {
      && vecs == mapping && Patched(old(mapping), mapping, records, dirty, dim)
      && forall before: Store :: Extends(before, records) && old(mapping) == Rendered(before, dim) ==>
           (mapping == Rendered(records, dim) <==> Covers(dirty, before, records, dim))
    }

    /** Take the dirty slots: grow the mapping and start writing. */
    method BeginDirty(kind: Kind, records: Store, dirty: set<nat>)
      requires records.Valid() && records.dirty == {} && manifest.usesVecs && kind != Full
      requires dim > 0 && |records.slots| > 0 && (kind == Auto ==> dirty != {})
      requires records.(dirty := dirty).Valid() && Traced(records.(dirty := dirty), Idle)
      modifies this`mapping, this`accumulatedDirty, this`trace, this`steps
      ensures Traced(records, Writing(kind, dirty)) && mapping == Grown(old(mapping), |records.slots|, dim)
      ensures accumulatedDirty == if kind == Auto then old(accumulatedDirty) + dirty else old(accumulatedDirty)
      ensures GoneOn(old(trace), old(steps), trace, steps, kind == Auto, true)
    {
      Grow(|records.slots|);
      if kind == Auto {
        accumulatedDirty := accumulatedDirty + dirty;
      }
      Took(Begin(kind), records, Writing(kind, dirty));
    }

    method SyncVecs(kind: Kind, records: Store)
      requires records.Valid() && Traced(records, Writing(kind, {}))
      modifies this`vecs, this`trace, this`steps
      ensures Traced(records, Synced(kind)) && vecs == mapping
      ensures GoneOn(old(trace), old(steps), trace, steps, false, true)
    {
      vecs := mapping;
      Took(Fsync, records, Synced(kind));
    }

    /** Grow the mapping and copy the dirty slots into it. */
    method RenderDirty(kind: Kind, records: Store, dirty: set<nat>)
      requires records.Valid() && records.dirty == {} && manifest.usesVecs && kind != Full
      requires dim > 0 && |records.slots| > 0 && (kind == Auto ==> dirty != {})
      requires records.(dirty := dirty).Valid() && Traced(records.(dirty := dirty), Idle)
      requires forall k :: k in dirty ==> k < |records.slots|
      modifies this`mapping, this`accumulatedDirty, this`trace, this`steps
      ensures Traced(records, Writing(kind, {})) && Patched(old(mapping), mapping, records, dirty, dim)
      ensures accumulatedDirty == if kind == Auto then old(accumulatedDirty) + dirty else old(accumulatedDirty)
      ensures GoneOn(old(trace), old(steps), trace, steps, kind == Auto, true)
    {
      BeginDirty(kind, records, dirty);
      WriteDirty(kind, records, dirty);
    }

    /** Write the dirty slots through the mapping and fsync. */
    method WriteVectors(kind: Kind, records: Store, dirty: set<nat>)
      requires records.Valid() && records.dirty == {} && manifest.usesVecs && kind != Full
      requires dim > 0 && |records.slots| > 0 && (kind == Auto ==> dirty != {})
      requires records.(dirty := dirty).Valid() && Traced(records.(dirty := dirty), Idle)
      requires forall k :: k in dirty ==> k < |records.slots|
      modifies this`mapping, this`vecs, this`accumulatedDirty, this`trace, this`steps
      ensures Traced(records, Synced(kind)) && Rewritten(records, dirty)
      ensures accumulatedDirty == if kind == Auto then old(accumulatedDirty) + dirty else old(accumulatedDirty)
      ensures GoneOn(old(trace), old(steps), trace, steps, kind == Auto, true)
    {
      RenderDirty(kind, records, dirty);
      SyncVecs(kind, records);
      PatchedIsFull(old(mapping), records, mapping, dirty, dim);
    }

    /** Auto-checkpoint: dirty slots, slim snapshot, log truncation. The caller has taken `dirty`
        from the store. */
    method CheckpointVectorsOnly(records: Store, dirty: set<nat>, now: nat) returns (done: bool)
      requires records.Valid() && records.dirty == {} && manifest.usesVecs && now > omenTime && now > recordsTime
      requires records.(dirty := dirty).Valid() && Traced(records.(dirty := dirty), Idle)
      requires forall k :: k in dirty ==> k < |records.slots|
      modifies this
      ensures done == (dim > 0 && dirty != {})
      ensures !done ==> unchanged(this)
      ensures done ==> Traced(records, Idle) && Rewritten(records, dirty)
      ensures done ==> accumulatedDirty == old(accumulatedDirty) + dirty && recordsTime == now
      ensures done ==> slim == Some(Slim(SlimTables(records), accumulatedDirty, old(truncationEpoch)))
      ensures done ==> wal == [] && metaEpoch == truncationEpoch == old(truncationEpoch) + 1
      ensures manifest == old(manifest) && omenTime == old(omenTime)
      ensures GoneOn(old(trace), old(steps), trace, steps, true, slim.Some? && limits.readable(slim.value))
    {
      if dim == 0 || |records.slots| == 0 || dirty == {} {
        return false;
      }
      WriteVectors(Auto, records, dirty);
      PublishRecords(records, now);
      return true;
    }

    /** An incremental checkpoint with nothing to write: `.vecs` is emptied with the last slot. */
    method SkipWriting(records: Store, dirty: set<nat>)
      requires records.Valid() && records.dirty == {} && manifest.usesVecs && (dim == 0 || records.slots == [])
      requires records.(dirty := dirty).Valid() && Traced(records.(dirty := dirty), Idle)
      modifies this`mapping, this`vecs, this`trace, this`steps
      ensures Traced(records, Synced(Incremental)) && GoneOn(old(trace), old(steps), trace, steps, false, true)
      ensures if records.slots == [] then mapping == vecs == [] else mapping == old(mapping) && vecs == old(vecs)
    {
      if records.slots == [] {
        mapping, vecs := [], [];
      }
      Took(SkipVecs, records, Synced(Incremental));
    }

    /** The `.vecs` part of an incremental checkpoint. */
    method WriteIncrement(records: Store, dirty: set<nat>)
      requires records.Valid() && records.dirty == {} && manifest.usesVecs
      requires records.(dirty := dirty).Valid() && Traced(records.(dirty := dirty), Idle)
      requires forall k :: k in dirty ==> k < |records.slots|
      modifies this`mapping, this`vecs, this`accumulatedDirty, this`trace, this`steps
      ensures Traced(records, Synced(Incremental)) && GoneOn(old(trace), old(steps), trace, steps, false, true)
      ensures dim > 0 && records.slots != [] ==> Rewritten(records, dirty)
      ensures records.slots == [] ==> mapping == vecs == []
      ensures dim == 0 && records.slots != [] ==> mapping == old(mapping) && vecs == old(vecs)
    {
      if dim == 0 || |records.slots| == 0 {
        SkipWriting(records, dirty);
      } else {
        WriteVectors(Incremental, records, dirty);
      }
    }

    /** Incremental checkpoint: dirty slots, then a new manifest. */
    method CheckpointIncremental(records: Store, dirty: set<nat>, now: nat)
      requires records.Valid() && records.dirty == {} && manifest.usesVecs && now > omenTime && now > recordsTime
      requires records.(dirty := dirty).Valid() && Traced(records.(dirty := dirty), Idle)
      requires forall k :: k in dirty ==> k < |records.slots|
      modifies this
      ensures Traced(records, Idle)
      ensures dim > 0 && records.slots != [] ==> Rewritten(records, dirty)
      ensures records.slots == [] ==> mapping == vecs == []
      ensures dim == 0 && records.slots != [] ==> mapping == old(mapping) && vecs == old(vecs)
      ensures manifest == old(ManifestNow(records)) && omenTime == now && accumulatedDirty == {}
      ensures wal == [] && metaEpoch == truncationEpoch == old(truncationEpoch) + 1
      ensures slim == old(slim) && recordsTime == old(recordsTime)
      ensures GoneOn(old(trace), old(steps), trace, steps, false, limits.opens(manifest)) && Finished()
    {
      WriteIncrement(records, dirty);
      WriteOmenManifest(Incremental, records, now);
    }

    /** Recreate `.vecs` with every slot zero, and start writing all of them. */
    method BeginFull(records: Store, dirty: set<nat>)
      requires records.Valid() && records.dirty == {} && !manifest.usesVecs
      requires records.(dirty := dirty).Valid() && Traced(records.(dirty := dirty), Idle)
      modifies this`mapping, this`trace, this`steps
      ensures Traced(records, Writing(Full, if dim == 0 then {} else SlotsBelow(|records.slots|)))
      ensures mapping == if records.slots == [] || dim == 0 then old(mapping) else seq(|records.slots|, _ => Zeros(dim))
      ensures GoneOn(old(trace), old(steps), trace, steps, false, true)
    {
      var n := |records.slots|;
      if dim > 0 && n > 0 {
        mapping := seq(n, _ => Zeros(dim));
      }
      assert mapping == Do(trace[|steps|], Begin(Full)).cache;
      Took(Begin(Full), records, Writing(Full, if dim == 0 then {} else SlotsBelow(n)));
    }

    /** Rewrite every slot and fsync. */
    method RewriteVectors(records: Store, dirty: set<nat>)
      requires records.Valid() && records.dirty == {} && !manifest.usesVecs
      requires records.(dirty := dirty).Valid() && Traced(records.(dirty := dirty), Idle)
      modifies this`mapping, this`vecs, this`trace, this`steps
      ensures Traced(records, Synced(Full)) && vecs == mapping
      ensures GoneOn(old(trace), old(steps), trace, steps, false, true)
      ensures mapping == if records.slots == [] || dim == 0 then old(mapping) else Rendered(records, dim)
    {
      BeginFull(records, dirty);
      WriteDirty(Full, records, if dim == 0 then {} else SlotsBelow(|records.slots|));
      assert forall k :: 0 <= k < |records.slots| ==> Below(k, |records.slots|);
      SyncVecs(Full, records);
    }

    /** Full checkpoint: recreate `.vecs` from every slot, then a new manifest. */
    method CheckpointFull(records: Store, dirty: set<nat>, now: nat)
      requires records.Valid() && records.dirty == {} && !manifest.usesVecs && now > omenTime && now > recordsTime
      requires records.(dirty := dirty).Valid() && Traced(records.(dirty := dirty), Idle)
      modifies this
      ensures Traced(records, Idle) && vecs == mapping
      ensures mapping == if records.slots == [] || dim == 0 then old(mapping) else Rendered(records, dim)
      ensures manifest == old(ManifestNow(records)) && (manifest.usesVecs <==> records.slots != [] && dim > 0)
      ensures omenTime == now && accumulatedDirty == {}
      ensures wal == [] && metaEpoch == truncationEpoch == old(truncationEpoch) + 1
      ensures slim == old(slim) && recordsTime == old(recordsTime)
      ensures GoneOn(old(trace), old(steps), trace, steps, false, limits.opens(manifest)) && Finished()
    {
      RewriteVectors(records, dirty);
      WriteOmenManifest(Full, records, now);
    }
  }
}
