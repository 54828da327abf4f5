/** A completed checkpoint makes everything right again, whatever happened to the log before it: its
    snapshot holds the store in memory, and the log it leaves is empty. */
module Restoration {
  import opened Records
  import opened Recovery
  import opened Protocol
  import opened Compaction
  import opened Safety

  /** The base is the store in memory, and its vectors are on disk. */
  ghost predicate Rebased(s: State) {
    && MemOk(s) && CacheOk(s) && BaseOk(s)
    && (forall id :: Settled(s, id))
    && s.baseView == s.mem.View()
    && s.disk.Base().ids == s.mem.ids && s.disk.Base().deleted == s.mem.deleted
    && BaseEpoch(s.disk) == Some(s.walEpoch)
    && (s.phase.Emptied? ==> s.disk.wal == [] && s.contained == 0 && s.skipped == 0)
  }

  /** The store and the mapping are in order; nothing is said of the log, nor, before a manifest is
      published, of the base. */
  ghost predicate Sound(s: State) {
    && MemOk(s) && CacheOk(s)
    && ((s.phase.Writing? || s.phase.Synced?) && s.phase.kind == Auto ==> BaseOk(s))
    && (s.phase.Published? || s.phase.Emptied? ==> Rebased(s))
  }

  /** What is asked of a step for that: ids of users, publications that can be read again, an
      auto-checkpoint only over a base in order, and compaction that moves no synthetic record. */
  ghost predicate Sparing(s: State, step: Step)
    requires s.mem.Valid()
  {
    && Enabled(s, step) && !step.Reopen? && Readable(s, step)
    && (step.Log? ==> step.op.id.User?)
    && (step.Begin? && step.kind == Auto ==> BaseOk(s))
    && (step.Compact? ==> MemOk(s.(mem := Compacted(s.mem))))
  }

  lemma {:induction false} SoundStep(s: State, step: Step)
    requires Sound(s) && Sparing(s, step)
    ensures Sound(Do(s, step))
    ensures step.WriteMeta? ==> Inv(Do(s, step)) && SafeToAppend(Do(s, step)) && Do(s, step).mem == s.mem
  {
    match step {
      case Log(op) => SoundLog(s, op);
      case LogMetadata(id, meta) => SoundMetadata(s, id, meta);
      case Begin(kind) => SoundBegin(s, kind);
      case SkipVecs => SoundSkip(s);
      case Compact => SoundCompact(s);
      case WriteSlot(k) => SoundWrite(s, k);
      case Fsync => SoundSync(s);
      case Publish(now) => PublishRebases(s, now);
      case EmptyLog => EmptyLogRebased(s);
      case WriteMeta => WriteMetaRestores(s);
    }
  }

  lemma SoundBegin(s: State, kind: Kind)
    requires MemOk(s) && CacheOk(s) && Enabled(s, Begin(kind)) && (kind == Auto ==> BaseOk(s))
    ensures Sound(Do(s, Begin(kind)))
  {
    BeginMem(s, kind);
    BeginCache(s, kind);
  }

  lemma SoundSync(s: State)
    requires Sound(s) && Enabled(s, Fsync)
    ensures Sound(Do(s, Fsync))
  {
    FsyncBase(s);
  }

  lemma SoundLog(s: State, op: Op)
    requires MemOk(s) && CacheOk(s) && Enabled(s, Log(op)) && op.id.User?
    ensures MemOk(Do(s, Log(op))) && CacheOk(Do(s, Log(op)))
  {
    if op.Upsert? { UpsertLogs(s, op); } else { DeleteLogs(s, op); }
    AppendMem(s, op, s.mem.Do(op));
    AppendCache(s, op, s.mem.Do(op));
  }

  lemma SoundMetadata(s: State, id: Id, meta: Json)
    requires MemOk(s) && CacheOk(s) && Enabled(s, LogMetadata(id, meta))
    ensures MemOk(Do(s, LogMetadata(id, meta))) && CacheOk(Do(s, LogMetadata(id, meta)))
  {
    MetadataLogs(s, id, meta);
    AppendCache(s, MetadataOp(s.mem, id, meta), s.mem.UpdateMetadata(s.mem.ids[id], meta));
  }

  lemma SoundSkip(s: State)
    requires MemOk(s) && CacheOk(s) && Enabled(s, SkipVecs)
    ensures MemOk(Do(s, SkipVecs)) && CacheOk(Do(s, SkipVecs))
  {
    assert forall id :: id in s.mem.ids ==> s.mem.Live(s.mem.ids[id]);
  }

  lemma SoundCompact(s: State)
    requires s.mem.Valid() && CacheOk(s) && Enabled(s, Compact) && MemOk(Do(s, Compact))
    ensures CacheOk(Do(s, Compact))
  {
    CompactedView(s.mem);
    AllBelow(|Compacted(s.mem).slots|);
  }

  lemma SoundWrite(s: State, k: nat)
    requires Sound(s) && Enabled(s, WriteSlot(k))
    ensures Sound(Do(s, WriteSlot(k)))
  {
    WriteSlotCache(s, k);
  }

  lemma PublishRebases(s: State, now: nat)
    requires Sound(s) && Enabled(s, Publish(now)) && Readable(s, Publish(now))
    ensures Rebased(Do(s, Publish(now)))
  {
    PublishBase(s, now);
    PublishSettles(s, now);
    PublishedTables(s, now);
    assert BaseEpoch(Do(s, Publish(now)).disk) == Some(s.walEpoch);
  }

  lemma EmptyLogRebased(s: State)
    requires Rebased(s) && Enabled(s, EmptyLog)
    ensures Rebased(Do(s, EmptyLog))
  {
    var s' := Do(s, EmptyLog);
    assert BaseOk(s') && s'.disk.Base() == s.disk.Base() by { EmptyLogBase(s); }
    forall id ensures Settled(s', id) {
      assert Settled(s, id);
      SettledEmptied(s, id);
    }
  }

  lemma SettledEmptied(s: State, id: Id)
    requires s.mem.Valid() && Enabled(s, EmptyLog) && Settled(s, id)
    ensures Settled(Do(s, EmptyLog), id)
  {
  }

  /** The sidecar written over an empty log and a base that is the store in memory: the full
      invariant. */
  lemma WriteMetaRestores(s: State)
    requires Rebased(s) && Enabled(s, WriteMeta)
    ensures Inv(Do(s, WriteMeta)) && SafeToAppend(Do(s, WriteMeta)) && Do(s, WriteMeta).mem == s.mem
  {
    var s' := Do(s, WriteMeta);
    WriteMetaBase(s);
    assert s'.disk.Base() == s.disk.Base() && Pending(s') == [];
    forall id ensures Settled(s', id) { assert Settled(s, id); }
  }

  /** Every step of a run that has no reopen. */
  ghost predicate SparingRun(trace: seq<State>, steps: seq<Step>) {
    && |trace| == |steps| + 1
    && forall i :: 0 <= i < |steps| ==> SparingStep(trace[i], steps[i], trace[i + 1])
  }

  ghost predicate SparingStep(s: State, step: Step, s': State) {
    Follows(s, step, s') && Sparing(s, step)
  }

  /** Over any such stretch, with appends that are unsafe or over a limit and with compactions: when a
      checkpoint is completed the full invariant holds again, so that all results about guarded runs
      apply from there on. */
  lemma {:induction false} CheckpointRestores(trace: seq<State>, steps: seq<Step>)
    requires SparingRun(trace, steps) && Sound(trace[0])
    ensures Sound(trace[|steps|])
    ensures steps != [] && steps[|steps| - 1].WriteMeta? ==>
              Inv(trace[|steps|]) && SafeToAppend(trace[|steps|])
    decreases |steps|
  {
    if steps == [] {
    } else {
      var n := |steps| - 1;
      SparingShorter(trace, steps);
      CheckpointRestores(trace[..n + 1], steps[..n]);
      SoundStep(trace[n], steps[n]);
    }
  }

  lemma SparingShorter(trace: seq<State>, steps: seq<Step>)
    requires SparingRun(trace, steps) && steps != []
    ensures SparingRun(trace[..|steps|], steps[..|steps| - 1])
    ensures SparingStep(trace[|steps| - 1], steps[|steps| - 1], trace[|steps|])
  {
  }

  /** Everything logged in such a stretch. */
  ghost function Stored(trace: seq<State>, steps: seq<Step>): seq<Entry>
    requires SparingRun(trace, steps)
    decreases |steps|
  {
    if steps == [] then []
    else
      var n := |steps| - 1;
      SparingShorter(trace, steps);
      Stored(trace[..n + 1], steps[..n]) + Logged(trace[n], steps[n])
  }

  lemma {:induction false} StoredShown(trace: seq<State>, steps: seq<Step>)
    requires SparingRun(trace, steps)
    ensures trace[|steps|].mem.View() == Apply(Stored(trace, steps), trace[0].mem.View())
    decreases |steps|
  {
    if steps == [] {
    } else {
      var n := |steps| - 1;
      SparingShorter(trace, steps);
      StoredShown(trace[..n + 1], steps[..n]);
      MoveView(trace[n], steps[n]);
      ApplyConcat(Stored(trace[..n + 1], steps[..n]), Logged(trace[n], steps[n]), trace[0].mem.View());
    }
  }

  /** A completed checkpoint makes durable everything stored before it in the session, the entries that
      a crash would have lost included. */
  lemma {:induction false} CheckpointDurable(trace: seq<State>, steps: seq<Step>, d: Disk)
    requires SparingRun(trace, steps) && Sound(trace[0])
    requires steps != [] && steps[|steps| - 1].WriteMeta? && CrashOutcome(trace[|steps|], d)
    ensures d.Keeps(Apply(Stored(trace, steps), trace[0].mem.View()))
  {
    CheckpointRestores(trace, steps);
    StoredShown(trace, steps);
    CrashExact(trace[|steps|], d);
  }

  // ---------- what a published snapshot keeps ----------

  /** A checkpoint from the emptying of the log on: the sidecar written or not. */
  ghost predicate Truncated(s: State, now: nat, t: State)
    requires s.mem.Valid() && Enabled(s, Publish(now))
  {
    var emptied := Do(Do(s, Publish(now)), EmptyLog);
    t == emptied || t == Do(emptied, WriteMeta)
  }

  /** Its files open and show the store that was checkpointed. */
  lemma TruncatedShows(s: State, now: nat, t: State, d: Disk)
    requires Sound(s) && Enabled(s, Publish(now)) && Readable(s, Publish(now))
    requires Truncated(s, now, t) && CrashOutcome(t, d)
    ensures d.Keeps(s.mem.View())
  {
    var e := Do(Do(s, Publish(now)), EmptyLog);
    PublishRebases(s, now);
    EmptyLogRebased(Do(s, Publish(now)));
    assert e.mem == s.mem;
    if t == e {
      RebasedShows(e, d);
    } else {
      WriteMetaRestores(e);
      CrashExact(t, d);
    }
  }

  lemma RebasedShows(t: State, d: Disk)
    requires Rebased(t) && t.phase.Emptied? && CrashOutcome(t, d)
    ensures d.Keeps(t.mem.View())
  {
    assert d.vecs == t.disk.vecs;
    assert d.Replayed() == [];
    RecoverView(d);
    forall id: Id | id.User? ensures Agree(d.Shown(), t.mem.View(), id) { assert Settled(t, id); }
    SameUsers(d.Shown(), t.mem.View());
  }

  /** A full or incremental checkpoint keeps what users stored if and only if the manifest it
      publishes can be opened again: a test on the store and the log as they are before it begins. */
  lemma {:induction false} ManifestKeeps(s: State, now: nat, t: State, d: Disk)
    requires Sound(s) && Enabled(s, Publish(now)) && s.phase.kind != Auto
    requires Truncated(s, now, t) && CrashOutcome(t, d)
    ensures d.Keeps(s.mem.View()) <==> s.disk.limits.opens(ManifestNow(s))
  {
    if s.disk.limits.opens(ManifestNow(s)) {
      TruncatedShows(s, now, t, d);
    } else {
      UnopenedDisk(s, now, t);
    }
  }

  lemma UnopenedDisk(s: State, now: nat, t: State)
    requires s.mem.Valid() && Enabled(s, Publish(now)) && s.phase.kind != Auto
    requires t == Do(s, Publish(now)) || Truncated(s, now, t)
    ensures t.disk.omen == ManifestNow(s) && t.disk.limits == s.disk.limits
  {
  }

  /** Otherwise the database is lost as soon as the manifest is renamed: no reopen succeeds, then or
      later. */
  lemma {:induction false} UnopenedLost(s: State, now: nat, t: State, d: Disk)
    requires s.mem.Valid() && Enabled(s, Publish(now)) && s.phase.kind != Auto
    requires !s.disk.limits.opens(ManifestNow(s)) && t.mem.Valid()
    requires (t == Do(s, Publish(now)) || Truncated(s, now, t)) && CrashOutcome(t, d)
    ensures !d.Opens() && Do(t, Reopen(d)) == Closed(t, d)
  {
    UnopenedDisk(s, now, t);
  }

  /** Files that do not open stay so: the only step left is to try again, and it fails again. */
  lemma {:induction false} ClosedForGood(s: State, step: Step)
    requires s.phase.Refused? && s.mem.Valid() && !s.disk.Opens() && Enabled(s, step)
    ensures step.Reopen? && Do(s, step).phase.Refused? && !Do(s, step).disk.Opens()
  {
  }

  /** The limits of the `.records` loader: over them an auto-checkpoint keeps what users stored only
      where the last manifest shows it already. Again a test before it begins. */
  lemma {:induction false} AutoKeeps(s: State, now: nat, t: State, d: Disk)
    requires Sound(s) && Enabled(s, Publish(now)) && s.phase.kind == Auto
    requires Truncated(s, now, t) && CrashOutcome(t, d)
    ensures d.Keeps(s.mem.View())
            <==> || s.disk.limits.readable(SlimNow(s))
                 || Users(s.disk.TableView(s.disk.omen.tables)) == Users(s.mem.View())
  {
    if s.disk.limits.readable(SlimNow(s)) {
      TruncatedShows(s, now, t, d);
    } else {
      FallsBack(s, now, t, d);
    }
  }

  /** Over the limits, a reopen shows what the last manifest says, and nothing stored since. */
  lemma FallsBack(s: State, now: nat, t: State, d: Disk)
    requires s.mem.Valid() && BaseOk(s) && CacheOk(s)
    requires Enabled(s, Publish(now)) && s.phase.kind == Auto && !s.disk.limits.readable(SlimNow(s))
    requires Truncated(s, now, t) && CrashOutcome(t, d)
    ensures d.Opens() && Users(d.Recover().View()) == Users(s.disk.TableView(s.disk.omen.tables))
  {
    FallenDisk(s, now, t, d);
    RecoverView(d);
    SameUsers(d.Shown(), d.BaseView());
  }

  lemma FallenDisk(s: State, now: nat, t: State, d: Disk)
    requires s.mem.Valid() && BaseOk(s) && CacheOk(s)
    requires Enabled(s, Publish(now)) && s.phase.kind == Auto && !s.disk.limits.readable(SlimNow(s))
    requires Truncated(s, now, t) && CrashOutcome(t, d)
    ensures d.Opens() && d.Sane() && d.Replayed() == []
    ensures d.BaseView() == s.disk.TableView(s.disk.omen.tables)
  {
    assert t.disk.records == Some(SlimNow(s)) && t.disk.limits == s.disk.limits;
    assert t.disk.omen == s.disk.omen && t.disk.vecs == s.disk.vecs == s.cache;
    assert d.vecs == s.disk.vecs && d.VectorCount() == s.disk.VectorCount();
  }

  /** A live id that no manifest has seen is lost. */
  lemma {:induction false} UnflushedLost(s: State, now: nat, t: State, d: Disk, id: Id)
    requires s.mem.Valid() && BaseOk(s) && CacheOk(s)
    requires Enabled(s, Publish(now)) && s.phase.kind == Auto && !s.disk.limits.readable(SlimNow(s))
    requires Truncated(s, now, t) && CrashOutcome(t, d)
    requires id in s.mem.ids && id.User? && id !in s.disk.omen.tables.ids
    ensures id in t.mem.View() && d.Opens() && id !in d.Recover().View()
  {
    FallsBack(s, now, t, d);
    assert id !in Users(d.Recover().View());
    assert t.mem == s.mem by { TruncatedMem(s, now, t); }
  }

  lemma TruncatedMem(s: State, now: nat, t: State)
    requires s.mem.Valid() && Enabled(s, Publish(now)) && Truncated(s, now, t)
    ensures t.mem == s.mem
  {
  }
}
