/** The store above the file: logged writes, auto-checkpoints and flushes. */
module VectorStores {
  import opened Records
  import opened Recovery
  import opened Compaction
  import opened Protocol
  import opened Restoration
  import opened Safety
  import opened OmenFiles

  lemma {:induction false} LogKeeps(s: State, op: Op)
    requires s.mem.Valid() && Enabled(s, Log(op))
    ensures var s' := Do(s, Log(op));
            && s' == Append(s, op, s.mem.Do(op)) && s'.mem.Valid() && s'.mem.View() == Effect(op, s.mem.View())
            && (Inv(s) && SafeToAppend(s) && Loggable(s.disk, op) ==> Inv(s'))
  {
    DoView(s.mem, op);
    if Inv(s) && SafeToAppend(s) && Loggable(s.disk, op) { StepInv(s, Log(op)); }
  }

  /** The index of one more slot. */
  lemma RebuildOneMore(slots: seq<Option<Rec>>, rec: Rec)
    ensures Rebuild(slots + [Some(rec)], {}, |slots| + 1) == Rebuild(slots, {}, |slots|)[rec.id := |slots|]
  {
    RebuildPrefix(slots, [Some(rec)], |slots|);
  }

  lemma {:induction false} RebuildPrefix(slots: seq<Option<Rec>>, more: seq<Option<Rec>>, n: nat)
    requires n <= |slots|
    ensures Rebuild(slots + more, {}, n) == Rebuild(slots, {}, n)
  {
    if n > 0 { RebuildPrefix(slots, more, n - 1); }
  }

  /** The live records and their index, gathered slot by slot. */
  method Renumber(st: Store) returns (compacted: Store)
    ensures compacted == Compacted(st)
  {
    var slots, ids, k := [], map[], 0;
    while k < |st.slots|
      invariant 0 <= k <= |st.slots|
      invariant slots == Gathered(st, Kept(st, k)) && ids == Rebuild(slots, {}, |slots|)
    {
      if k !in st.deleted && st.slots[k].Some? {
        RebuildOneMore(slots, st.slots[k].value);
        ids := ids[st.slots[k].value.id := |slots|];
        slots := slots + [st.slots[k]];
      }
      k := k + 1;
    }
    compacted := Store(slots, {}, ids, SlotsBelow(|slots|));
  }

  class VectorStore {
    var records: Store
    const file: OmenFile
    const threshold: nat      // entries in the log that make a write checkpoint
    const compactAbove: real  // share of tombstones that makes a flush compact

    ghost predicate Valid()
      reads this, file
    {
      && records.Valid() && file.Traced(records, Idle) && file.dim > 0
      && forall k :: k in records.dirty ==> k < |records.slots|
    }

    ghost function Now(): State
      reads this, file
    {
      file.At(records, Idle)
    }

    /** The state after logging `op` now, before any checkpoint. */
    ghost function Logging(op: Op): State
      reads this, file
    {
      Append(Now(), op, records.Do(op))
    }

    /** An auto-checkpoint takes the fast path: `.vecs` exists, and there is no sparse, multi-vector
        or edge state that only a manifest holds. */
    predicate Fast(extras: bool)
      reads this, file
    {
      file.manifest.usesVecs && !extras
    }

    /** What `CheckpointWal` publishes: `.records` on the fast path, else a manifest. */
    function Checkpoint(extras: bool): Kind
      reads this, file
    {
      if Fast(extras) then Auto else if file.manifest.usesVecs then Incremental else Full
    }

    constructor (dim: nat, limits: Limits, threshold: nat, compactAbove: real)
      requires dim > 0 && limits.opens(NO_MANIFEST)
      ensures Valid() && fresh(file) && Inv(Now()) && records.View() == map[]
      ensures file.dim == dim && file.limits == limits && this.threshold == threshold
      ensures this.compactAbove == compactAbove
    {
      records := EMPTY;
      this.threshold, this.compactAbove := threshold, compactAbove;
      file := new OmenFile(dim, limits);
      new;
      assert Now() == Init(dim, 0, limits);
      InitInv(dim, 0, limits);
    }

    /** Insert or replace a record: in memory, then in the log; a log that is long enough is
        checkpointed. */
    method Set(id: Id, vec: Vec, meta: Json, extras: bool, now: nat) returns (ok: bool)
      requires Valid() && now > file.omenTime && now > file.recordsTime
      modifies this, file
      ensures ok == (|vec| == file.dim) && Valid()
      ensures !ok ==> Now() == old(Now())
      ensures ok ==> records.View() == old(records.View())[id := Value(Some(vec), Some(meta))]
      ensures ok && |old(file.wal)| + 1 < threshold ==> Now() == old(Logging(Op.Upsert(id, vec, meta)))
      ensures ok && |old(file.wal)| + 1 >= threshold ==> file.wal == []
      ensures ok && old(KeepsInv(Op.Upsert(id, vec, meta), extras)) ==> Inv(Now())
    {
      if |vec| != file.dim {
        return false;
      }
      LogAndCheckpoint(Op.Upsert(id, vec, meta), extras, now);
      return true;
    }

    /** Remove a record; an unknown id is reported and not logged. */
    method Delete(id: Id, extras: bool, now: nat) returns (found: bool)
      requires Valid() && now > file.omenTime && now > file.recordsTime
      modifies this, file
      ensures found == (id in old(records).ids) && Valid()
      ensures !found ==> Now() == old(Now())
      ensures records.View() == old(records.View()) - {id}
      ensures found && |old(file.wal)| + 1 < threshold ==> Now() == old(Logging(Op.Delete(id)))
      ensures found && |old(file.wal)| + 1 >= threshold ==> file.wal == []
      ensures found && old(KeepsInv(Op.Delete(id), extras)) ==> Inv(Now())
    {
      if id !in records.ids {
        return false;
      }
      LogAndCheckpoint(Op.Delete(id), extras, now);
      return true;
    }

    /** What makes a logged write, and the checkpoint it may start, keep the invariant. */
    ghost predicate KeepsInv(op: Op, extras: bool)
      reads this, file
    {
      && Inv(Now()) && SafeToAppend(Now()) && Loggable(file.Files(), op)
      && (|file.wal| + 1 >= threshold ==> Publishable(Logging(op), Checkpoint(extras)))
    }

    method LogAndCheckpoint(op: Op, extras: bool, now: nat)
      requires Valid() && (if op.Upsert? then |op.vec| == file.dim else op.id in records.ids)
      requires now > file.omenTime && now > file.recordsTime
      modifies this, file
      ensures Valid() && records.View() == Effect(op, old(records.View()))
      ensures |old(file.wal)| + 1 < threshold ==> Now() == old(Logging(op))
      ensures |old(file.wal)| + 1 >= threshold ==> file.wal == []
      ensures old(KeepsInv(op, extras)) ==> Inv(Now())
    {
      LogOp(op);
      if |file.wal| >= threshold {
        CheckpointWal(extras, now);
      }
    }

    method LogOp(op: Op)
      requires Valid() && (if op.Upsert? then |op.vec| == file.dim else op.id in records.ids)
      modifies this, file
      ensures Valid() && records.View() == Effect(op, old(records.View())) && records.dirty != {}
      ensures Now() == old(Logging(op)) && file.omenTime == old(file.omenTime)
      ensures file.recordsTime == old(file.recordsTime)
      ensures old(Inv(Now()) && SafeToAppend(Now()) && Loggable(file.Files(), op)) ==> Inv(Now())
    {
      ghost var before := Now();
      LogKeeps(before, op);
      records := records.Do(op);
      file.WalAppend(op);
      file.Took(Log(op), records, Idle);
    }

    /** Hand the dirty set over and reset it. */
    method TakeDirty() returns (dirty: set<nat>)
      modifies this
      ensures dirty == old(records).dirty && records == old(records).(dirty := {})
      ensures old(records).Valid() ==> records.Valid() && records.View() == old(records).View()
    {
      dirty := records.dirty;
      if records.Valid() { SameTables(records); }
      records := records.(dirty := {});
    }

    /** Remove the tombstones: the live records move down, slot by slot. In memory only. */
    method Compact() returns (removed: nat)
      requires Valid()
      modifies this, file`trace, file`steps
      ensures Valid() && removed == |old(records).deleted|
      ensures removed == 0 ==> records == old(records) && file.trace == old(file.trace) && file.steps == old(file.steps)
      ensures removed > 0 ==>
                && records == Compacted(old(records)) && file.steps == old(file.steps) + [Step.Compact]
                && file.trace == old(file.trace) + [Now()]
      ensures records.View() == old(records.View())
    {
      removed := |records.deleted|;
      if removed == 0 {
        return;
      }
      CompactedView(records);
      ghost var before := Now();
      records := Renumber(records);
      assert Follows(before, Step.Compact, file.At(records, Idle));
      file.Took(Step.Compact, records, Idle);
    }

    /** Full checkpoint the first time, incremental ones afterwards. */
    method FlushInternal(now: nat)
      requires Valid() && now > file.omenTime && now > file.recordsTime
      modifies this, file
      ensures Valid() && records == old(records).(dirty := {}) && records.View() == old(records.View())
      ensures file.manifest == old(ManifestNow(Now())) && SafeToAppend(Now())
      ensures file.wal == [] && file.metaEpoch == file.truncationEpoch == old(file.truncationEpoch) + 1
      ensures GoneOn(old(file.trace), old(file.steps), file.trace, file.steps, false, file.limits.opens(file.manifest))
      ensures old(Sound(Now()) && Publishable(Now(), Full)) ==> Inv(Now())
    {
      SameTables(records);
      var dirty := TakeDirty();
      if file.manifest.usesVecs {
        file.CheckpointIncremental(records, dirty, now);
      } else {
        file.CheckpointFull(records, dirty, now);
      }
      if file.limits.opens(file.manifest) {
        Mended(old(file.trace), old(file.steps));
      }
    }

    /** Whether a flush compacts first. */
    predicate Compacting()
      requires Valid()
      reads this, file
    {
      records.deleted != {} && |records.deleted| as real > compactAbove * (|records.slots| as real)
    }

    /** The state a flush checkpoints. */
    ghost function ToFlush(): State
      requires Valid()
      reads this, file
    {
      if Compacting() then Now().(mem := Compacted(records)) else Now()
    }

    /** Compact if tombstones are too many, then checkpoint. */
    method Flush(now: nat)
      requires Valid() && now > file.omenTime && now > file.recordsTime
      modifies this, file
      ensures Valid() && records == old(ToFlush()).mem.(dirty := {}) && records.View() == old(records.View())
      ensures file.manifest == old(ManifestNow(ToFlush())) && SafeToAppend(Now())
      ensures file.wal == [] && file.metaEpoch == file.truncationEpoch == old(file.truncationEpoch) + 1
      ensures old(Compacting()) ==>
                GoneOn(old(file.trace + [ToFlush()]), old(file.steps) + [Step.Compact], file.trace, file.steps,
                       false, file.limits.opens(file.manifest))
      ensures !old(Compacting()) ==>
                GoneOn(old(file.trace), old(file.steps), file.trace, file.steps, false,
                       file.limits.opens(file.manifest))
      ensures old(Sound(ToFlush()) && Publishable(ToFlush(), Full)) ==> Inv(Now())
    {
      if records.deleted != {} && |records.deleted| as real > compactAbove * (|records.slots| as real) {
        var _ := Compact();
      }
      FlushInternal(now);
    }

    /** Auto-checkpoint: the fast path where it is allowed, else a flush without compaction. */
    method CheckpointWal(extras: bool, now: nat)
      requires Valid() && now > file.omenTime && now > file.recordsTime
      modifies this, file
      ensures Valid() && records.View() == old(records.View())
      ensures old(Fast(extras) && records.dirty == {}) ==> Now() == old(Now())
      ensures !old(Fast(extras) && records.dirty == {}) ==>
                file.wal == [] && file.metaEpoch == file.truncationEpoch == old(file.truncationEpoch) + 1
      ensures old(Fast(extras) && records.dirty != {}) ==> file.slim == Some(old(SlimNow(Now())))
      ensures !old(Fast(extras)) ==> file.manifest == old(ManifestNow(Now())) && SafeToAppend(Now())
      ensures old(Fast(extras) && records.dirty != {} && Publishable(Now(), Auto)) ==> SafeToAppend(Now())
      ensures old(Inv(Now()) && Publishable(Now(), Checkpoint(extras))) ==> Inv(Now())
    {
      if !file.manifest.usesVecs || extras {
        FlushInternal(now);
        return;
      }
      SameTables(records);
      var dirty := TakeDirty();
      if dirty == {} {
        return;
      }
      var done := file.CheckpointVectorsOnly(records, dirty, now);
      assert file.slim == Some(old(SlimNow(Now())));
      if old(Publishable(Now(), Auto)) {
        KeepInv(old(file.trace), old(file.steps));
      }
    }

    /** The invariant at the end of a checkpoint, from the run it has traced. */
    lemma KeepInv(trace: seq<State>, steps: seq<Step>)
      requires Valid() && |trace| == |steps| + 1 && GoneOn(trace, steps, file.trace, file.steps, true, true)
      ensures Inv(trace[|steps|]) ==> Inv(Now())
    {
      if Inv(trace[|steps|]) {
        assert file.trace[|steps|] == trace[|steps|];
        CheckpointKeeps(file.trace, file.steps, |steps|);
        assert Holds(file.trace[|file.steps|], trace[|steps|].mem.View());
      }
    }

    /** And where the log was not in order before it. */
    lemma Mended(trace: seq<State>, steps: seq<Step>)
      requires Valid() && |trace| == |steps| + 1 && GoneOn(trace, steps, file.trace, file.steps, false, true)
      requires |steps| < |file.steps| && file.Finished()
      ensures Sound(trace[|steps|]) ==> Inv(Now())
    {
      if Sound(trace[|steps|]) {
        assert file.trace[|steps|] == trace[|steps|];
        CheckpointMends(file.trace, file.steps, |steps|, |file.steps|);
      }
    }
  }
}
