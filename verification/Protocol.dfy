/** The checkpoint protocol as a state machine whose steps are the durable actions of the code:
    one log append, one slot written through the mapping, one fsync, one rename, one truncation,
    one sidecar write; and a reopen, which may follow a crash at any point. */
module Protocol {
  import opened Records
  import opened Recovery
  import opened Compaction

  datatype Kind = Auto | Incremental | Full

  datatype Phase =
    | Idle
    | Writing(kind: Kind, todo: set<nat>)  // slots of `.vecs` still to be written
    | Synced(kind: Kind)                   // `.vecs` fsynced, snapshot not yet renamed
    | Published                            // snapshot renamed, log not yet emptied
    | Emptied                              // log emptied, sidecar not yet written
    | Refused                              // the files did not open

  /** `disk` is what survives a crash (its `vecs` up to the crash's choice, see `CrashOutcome`);
      `cache` is the content of the `.vecs` mapping; `mem` the record store; `walEpoch` and
      `nextTs` the open log's counters; `accumulated` the slots that auto-checkpoints have written
      since the last manifest. The last three describe, for the proofs only, how many of the log's
      first entries the base snapshot holds, how many of them the last reopen skipped, and what the
      base showed when it was published. */
  datatype State = State(disk: Disk, cache: seq<Vec>, mem: Store, walEpoch: nat, nextTs: nat, accumulated: set<nat>,
                         phase: Phase, contained: nat, skipped: nat, baseView: View)

  datatype Step =
    | Log(op: Op)
    | LogMetadata(id: Id, meta: Json)
    | Begin(kind: Kind)
    | SkipVecs  // an incremental checkpoint with no slot to write
    | Compact
    | WriteSlot(slot: nat)
    | Fsync
    | Publish(now: nat)
    | EmptyLog
    | WriteMeta
    | Reopen(survived: Disk)

  const NO_TABLES := Tables(map[], {}, map[], {})
  const NO_MANIFEST := Manifest(NO_TABLES, false, None)

  function Init(dim: nat, now: nat, limits: Limits): State {
    State(Disk(dim, [], 0, [], NO_MANIFEST, now, None, 0, limits),
          [], EMPTY, 0, 0, {}, Idle, 0, 0, map[])
  }

  /** The tables of a `.records` snapshot: metadata of every slot that still holds a record. */
  function SlimTables(st: Store): Tables {
    Tables(st.ids, st.deleted,
           map k | 0 <= k < |st.slots| && st.slots[k].Some? && st.slots[k].value.meta.Some? ::
             st.slots[k].value.meta.value,
           st.DenseSlots())
  }

  /** The `.records` snapshot an auto-checkpoint begun or finished now would publish. */
  function SlimNow(s: State): Slim {
    Slim(SlimTables(s.mem), s.accumulated + s.mem.dirty, s.walEpoch)
  }

  /** The tables of a manifest: metadata of the slots that are not deleted. */
  function ManifestTables(st: Store): Tables {
    var slim := SlimTables(st);
    slim.(meta := map k | k in slim.meta && k !in st.deleted :: slim.meta[k])
  }

  function Grown(vecs: seq<Vec>, n: nat, dim: nat): seq<Vec> {
    if n <= |vecs| then vecs else vecs + seq(n - |vecs|, _ => Zeros(dim))
  }

  /** The cutoff a manifest published over this log records. */
  function CutoffOf(epoch: nat, wal: seq<Entry>, nextTs: nat): Cutoff {
    Cutoff(epoch, if wal == [] || nextTs == 0 then None else Some(nextTs - 1))
  }

  /** The manifest a checkpoint of `st` publishes; it uses `.vecs` unless nothing was ever written there. */
  function ManifestOf(st: Store, dim: nat, usedVecs: bool, cutoff: Cutoff): Manifest {
    Manifest(ManifestTables(st), |st.slots| > 0 && (usedVecs || dim > 0), Some(cutoff))
  }

  /** The manifest that a full or incremental checkpoint begun or finished now would publish. */
  function ManifestNow(s: State): Manifest {
    ManifestOf(s.mem, s.disk.dim, s.disk.omen.usesVecs, CutoffOf(s.walEpoch, s.disk.wal, s.nextTs))
  }

  /** What a crash can leave: every slot of `.vecs` written since the last fsync keeps its old or
      its new content, independently; growth may be partly lost. The first full checkpoint
      truncates the file, so under it anything can be left. */
  ghost predicate CrashOutcome(s: State, d: Disk) {
    && d == s.disk.(vecs := d.vecs)
    && (forall k :: 0 <= k < |d.vecs| ==> |d.vecs[k]| == s.disk.dim)
    && (if s.phase.Writing? && s.phase.kind == Full then true else
          && |s.disk.vecs| <= |d.vecs| <= |s.cache|
          && forall k :: 0 <= k < |d.vecs| ==>
               d.vecs[k] == s.cache[k]
               || d.vecs[k] == (if k < |s.disk.vecs| then s.disk.vecs[k] else Zeros(s.disk.dim)))
  }

  ghost predicate Enabled(s: State, step: Step)
    requires s.mem.Valid()
  {
    match step
    case Log(op) => s.phase.Idle? && (if op.Upsert? then |op.vec| == s.disk.dim else op.id in s.mem.ids)
    case LogMetadata(id, meta) =>
      s.phase.Idle? && id in s.mem.ids && s.mem.slots[s.mem.ids[id]].value.vec.Some?
    case Begin(kind) =>
      && s.phase.Idle? && s.disk.omen.usesVecs == (kind != Full)
      && (kind != Full ==> s.disk.dim > 0 && |s.mem.slots| > 0) && (kind == Auto ==> s.mem.dirty != {})
    case SkipVecs => s.phase.Idle? && s.disk.omen.usesVecs && (s.disk.dim == 0 || s.mem.slots == [])
    case Compact => s.phase.Idle?
    case WriteSlot(k) => s.phase.Writing? && k in s.phase.todo && k < |s.cache|
    case Fsync => s.phase.Writing? && s.phase.todo == {}
    case Publish(now) => s.phase.Synced? && now > s.disk.omenTime && now > s.disk.recordsTime
    case EmptyLog => s.phase.Published?
    case WriteMeta => s.phase.Emptied?
    case Reopen(d) => CrashOutcome(s, d)
  }

  function Append(s: State, op: Op, mem: Store): State {
    s.(disk := s.disk.(wal := s.disk.wal + [Entry(s.nextTs, op)]), mem := mem, nextTs := s.nextTs + 1)
  }

  /** The entry of a metadata-only update is a whole record. */
  function MetadataOp(st: Store, id: Id, meta: Json): Op
    requires id in st.ids && st.Live(st.ids[id]) && st.slots[st.ids[id]].value.vec.Some?
  {
    Op.Upsert(id, st.slots[st.ids[id]].value.vec.value, meta)
  }

  ghost function Do(s: State, step: Step): State
    requires s.mem.Valid() && Enabled(s, step)
  {
    match step
    case Log(op) => Append(s, op, s.mem.Do(op))
    case LogMetadata(id, meta) =>
      Append(s, MetadataOp(s.mem, id, meta), s.mem.UpdateMetadata(s.mem.ids[id], meta))
    case Begin(kind) => BeginWriting(s, kind)
    case SkipVecs =>
      // a truncation that does not reach the disk is a crash before this step, and the manifest
      // published next does not look at `.vecs`
      var vecs := if s.mem.slots == [] then [] else s.disk.vecs;
      s.(phase := Synced(Incremental), mem := s.mem.(dirty := {}), disk := s.disk.(vecs := vecs),
         cache := if s.mem.slots == [] then [] else s.cache)
    case Compact => s.(mem := Compacted(s.mem))
    case WriteSlot(k) =>
      s.(phase := Writing(s.phase.kind, s.phase.todo - {k}), cache := s.cache[k := s.mem.Render(k, s.disk.dim)])
    case Fsync => s.(phase := Synced(s.phase.kind), disk := s.disk.(vecs := s.cache))
    case Publish(now) =>
      s.(phase := Published, disk := PublishedDisk(s, now),
         accumulated := if s.phase.kind == Auto then s.accumulated else {},
         contained := |s.disk.wal|, skipped := |s.disk.wal|, baseView := s.mem.View())
    case EmptyLog => s.(phase := Emptied, disk := s.disk.(wal := []), contained := 0, skipped := 0)
    case WriteMeta => s.(phase := Idle, disk := s.disk.(metaEpoch := s.walEpoch + 1), walEpoch := s.walEpoch + 1)
    case Reopen(d) => if d.Opens() then Reopened(s, d) else Closed(s, d)
  }

  /** The files did not open: there is no store, and they stay as they are. */
  function Closed(s: State, d: Disk): State {
    s.(phase := Refused, disk := d, cache := d.vecs, mem := EMPTY)
  }

  ghost function Reopened(s: State, d: Disk): State {
    s.(phase := Idle, disk := d, cache := d.vecs, mem := d.Recover(), walEpoch := d.OpenEpoch(),
       nextTs := d.OpenTimestamp(), accumulated := {},
       skipped := if |d.Replayed()| <= |d.wal| then |d.wal| - |d.Replayed()| else 0)
  }

  /** Take the dirty set and prepare the mapping. The accumulated set is not durable, so that it
      grows here and not after the write loop cannot be observed. */
  function BeginWriting(s: State, kind: Kind): State {
    var n := |s.mem.slots|;
    var mem := s.mem.(dirty := {});
    if kind == Full then
      s.(phase := Writing(kind, if s.disk.dim == 0 then {} else SlotsBelow(n)), mem := mem,
         cache := if n == 0 || s.disk.dim == 0 then s.cache else seq(n, _ => Zeros(s.disk.dim)))
    else
      s.(phase := Writing(kind, s.mem.dirty), mem := mem, cache := Grown(s.cache, n, s.disk.dim),
         accumulated := if kind == Auto then s.accumulated + s.mem.dirty else s.accumulated)
  }

  function PublishedDisk(s: State, now: nat): Disk
    requires s.phase.Synced?
  {
    if s.phase.kind == Auto then s.disk.(records := Some(SlimNow(s)), recordsTime := now)
    else s.disk.(omen := ManifestNow(s), omenTime := now)
  }

  /** One step of a run. */
  ghost predicate Follows(s: State, step: Step, s': State) {
    s.mem.Valid() && Enabled(s, step) && s' == Do(s, step)
  }

  /** `trace[i + 1]` is `trace[i]` after `steps[i]`. */
  ghost predicate Run(trace: seq<State>, steps: seq<Step>) {
    && |trace| == |steps| + 1
    && forall i :: 0 <= i < |steps| ==> Taken(trace, steps, i)
  }

  ghost predicate Taken(trace: seq<State>, steps: seq<Step>, i: nat)
    requires i < |steps| && |trace| == |steps| + 1
  {
    Follows(trace[i], steps[i], trace[i + 1])
  }

  lemma RunGrows(trace: seq<State>, steps: seq<Step>, step: Step, next: State)
    requires Run(trace, steps) && Follows(trace[|steps|], step, next)
    ensures Run(trace + [next], steps + [step])
  {
    forall i | 0 <= i < |steps + [step]| ensures Taken(trace + [next], steps + [step], i) {
      if i < |steps| { assert Taken(trace, steps, i); }
    }
  }

  // ---------- what a careful caller checks ----------

  /** Whether recovery will replay an entry appended now: under a `.records` base the sidecar's
      epoch must be past the snapshot's; under a manifest of the same epoch the timestamp must be
      past the recorded maximum. */
  predicate SafeToAppend(s: State) {
    if s.disk.SlimLoaded() then s.disk.metaEpoch > s.disk.records.value.epoch
    else
      match s.disk.omen.cutoff
      case Some(Cutoff(epoch, Some(maxTs))) => s.disk.metaEpoch == epoch ==> s.nextTs > maxTs
      case _ => true
  }

  /** A checkpoint of this kind would publish a file that can be read again. */
  predicate Publishable(s: State, kind: Kind) {
    if kind == Auto then s.disk.limits.readable(SlimNow(s)) else s.disk.limits.opens(ManifestNow(s))
  }

  predicate Readable(s: State, step: Step) {
    step.Publish? && s.phase.Synced? ==> Publishable(s, s.phase.kind)
  }

  /** An operation on an id outside the reserved form, and within the limits of the log's readers. */
  predicate Loggable(d: Disk, op: Op) {
    op.id.User? && d.limits.parses(op) && d.limits.scans(op)
  }

  /** Steps after which the store still holds what its caller wrote: appends only when safe, and
      neither entries nor snapshots over their readers' limits; compaction, which rewrites slots
      under the old snapshot, only while no snapshot has any. Crashes and reopens are not
      restricted. */
  ghost predicate Guarded(s: State, step: Step)
    requires s.mem.Valid()
  {
    && Enabled(s, step)
    && (step.Log? ==> SafeToAppend(s) && Loggable(s.disk, step.op))
    && (step.LogMetadata? ==> SafeToAppend(s) && Loggable(s.disk, MetadataOp(s.mem, step.id, step.meta)))
    && Readable(s, step)
    && (step.Compact? ==> !s.disk.omen.usesVecs)
  }

  // ---------- the invariant ----------

  /** The entries memory has applied on top of the base. */
  function Pending(s: State): seq<Entry>
    requires s.skipped <= |s.disk.wal|
  {
    s.disk.wal[s.skipped..]
  }

  /** The entries the base snapshot does not hold. */
  function Missing(s: State): seq<Entry>
    requires s.contained <= |s.disk.wal|
  {
    s.disk.wal[s.contained..]
  }

  /** The log epoch recorded in the snapshot recovery would pick. */
  function BaseEpoch(d: Disk): Option<nat> {
    if d.SlimLoaded() then Some(d.records.value.epoch)
    else if d.omen.cutoff.Some? then Some(d.omen.cutoff.value.epoch)
    else None
  }

  function Todo(s: State): set<nat> {
    if s.phase.Writing? then s.phase.todo else {}
  }

  ghost predicate MemOk(s: State) {
    && s.mem.Valid()
    && (forall id :: id in s.mem.ids ==>
          && (id.Synthetic? ==> s.mem.ids[id] == id.slot)
          && s.mem.slots[s.mem.ids[id]].value.vec.Some?
          && |s.mem.slots[s.mem.ids[id]].value.vec.value| == s.disk.dim)
    && (forall k :: k in s.mem.dirty ==> k < |s.mem.slots|)
  }

  ghost predicate LogOk(s: State) {
    && s.skipped <= s.contained <= |s.disk.wal|
    && (forall i :: 0 <= i < |s.disk.wal| ==> s.disk.wal[i].ts < s.nextTs && Loggable(s.disk, s.disk.wal[i].op))
    && (s.phase.Published? ==> s.skipped == |s.disk.wal|)
    && (s.phase.Emptied? ==> s.disk.wal == [])
    && (s.disk.wal != [] ==> s.nextTs == MaxTimestamp(s.disk.wal) + 1)
  }

  /** The base snapshot never knows a slot the store in memory does not. */
  ghost predicate BaseOk(s: State) {
    var base := s.disk.Base();
    && s.disk.limits.opens(s.disk.omen)
    && s.disk.Sane() && Fits(s.disk.omen.tables, s.disk.omen.tables, s.disk.VectorCount())
    && base.deleted <= s.mem.deleted
    && (forall k: nat :: k in base.ids.Values ==> s.mem.Knows(k))
    && (s.disk.SlimLoaded() ==> s.disk.omen.usesVecs)
    && (s.phase.Published? || s.phase.Emptied? ==> base.ids == s.mem.ids && base.deleted == s.mem.deleted)
  }

  /** An id a user chose, or one the base has. */
  predicate Known(d: Disk, id: Id) {
    id.User? || id in d.Base().ids
  }

  /** On the known ids memory is the base plus the pending entries, to which the contained ones add
      nothing. */
  ghost predicate ViewOk(s: State)
    requires s.skipped <= s.contained <= |s.disk.wal|
  {
    && (forall id :: Known(s.disk, id) ==> Agree(s.mem.View(), Apply(Pending(s), s.baseView), id))
    && Apply(s.disk.wal[..s.contained], s.baseView) == s.baseView
  }

  /** The slots whose synthetic record is in memory but not in the base: strays the last reopen
      resurrected. */
  ghost function Ghosts(s: State): set<nat> {
    Synthetics(s.mem.ids.Keys - s.disk.Base().ids.Keys)
  }

  /** A ghost still holds the vector of a stray, which no checkpoint under way touches. */
  ghost predicate Haunts(s: State, k: nat) {
    && k in s.disk.Strays() && k < |s.cache| && s.cache[k] == s.disk.vecs[k]
    && k !in s.mem.dirty && k !in Todo(s) && k < |s.mem.slots|
    && s.mem.slots[k] == Some(Rec(Synthetic(k), Some(s.disk.vecs[k]), Lookup(s.disk.Base().meta, k)))
  }

  ghost predicate StrayOk(s: State) {
    forall k: nat :: Synthetic(k) in s.mem.ids && Synthetic(k) !in s.disk.Base().ids ==> Haunts(s, k)
  }

  /** An id no pending entry touches still has its base slot, and every copy of that slot, on disk
      or in the mapping, holds its vector. */
  ghost predicate Settled(s: State, id: Id)
    requires s.mem.Valid()
  {
    && Agree(s.baseView, s.disk.BaseView(), id)
    && (id in s.disk.Base().ids ==>
          var k := s.disk.Base().ids[id];
          && id in s.mem.ids && s.mem.ids[id] == k
          && k < |s.disk.vecs| && s.mem.slots[k].value.vec == Some(s.disk.vecs[k])
          && (s.disk.omen.usesVecs ==> k < |s.cache| && s.cache[k] == s.disk.vecs[k]))
  }

  ghost predicate SettledOk(s: State)
    requires s.skipped <= |s.disk.wal| && s.mem.Valid()
  {
    forall id :: !Touches(Pending(s), id) ==> Settled(s, id)
  }

  /** A live slot that is not waiting to be written is in the mapping. */
  ghost predicate CacheOk(s: State)
    requires s.mem.Valid()
  {
    && s.disk.dim > 0
    && (forall k :: 0 <= k < |s.cache| ==> |s.cache[k]| == s.disk.dim)
    && (forall k :: 0 <= k < |s.disk.vecs| ==> |s.disk.vecs[k]| == s.disk.dim)
    && (s.disk.omen.usesVecs ==> |s.disk.vecs| <= |s.cache|)
    && (!s.phase.Writing? ==> s.cache == s.disk.vecs)
    && (!s.phase.Idle? ==> s.mem.dirty == {})
    && (s.phase.Writing? || s.phase.Synced? ==>
          s.disk.omen.usesVecs == (s.phase.kind != Full) && (|s.mem.slots| > 0 ==> |s.mem.slots| <= |s.cache|))
    && (forall k :: k in Todo(s) ==> k < |s.mem.slots|)
    && (s.disk.omen.usesVecs || !s.phase.Idle? ==>
          forall id :: id in s.mem.ids ==>
            var k := s.mem.ids[id];
            k in s.mem.dirty || k in Todo(s) || (k < |s.cache| && s.mem.slots[k].value.vec == Some(s.cache[k])))
  }

  /** Recovery's epoch and timestamp tests tell pending entries from contained ones, except that
      contained entries may be taken for pending. */
  ghost predicate EpochOk(s: State) {
    var d := s.disk;
    && s.walEpoch <= d.metaEpoch
    && (s.skipped == s.contained || (s.skipped == 0 && BaseEpoch(d) != Some(d.metaEpoch)))
    && (s.phase.Published? || s.phase.Emptied? ==> BaseEpoch(d) == Some(s.walEpoch))
    && (s.phase.Published? && !d.SlimLoaded() ==> d.omen.cutoff == Some(CutoffOf(s.walEpoch, d.wal, s.nextTs)))
    && (if d.SlimLoaded() then
          && d.records.value.epoch <= d.metaEpoch
          && (s.contained < |d.wal| ==> d.metaEpoch > d.records.value.epoch)
        else
          match d.omen.cutoff
          case None => s.contained == 0
          case Some(Cutoff(epoch, None)) => epoch <= d.metaEpoch && s.contained == 0
          case Some(Cutoff(epoch, Some(maxTs))) =>
            && epoch <= d.metaEpoch
            && (forall i :: 0 <= i < s.contained && i < |d.wal| ==> d.wal[i].ts <= maxTs)
            && (d.metaEpoch == epoch ==> forall i :: s.contained <= i < |d.wal| ==> d.wal[i].ts > maxTs))
  }

  ghost predicate Inv(s: State) {
    MemOk(s) && LogOk(s) && BaseOk(s) && ViewOk(s) && SettledOk(s) && StrayOk(s) && CacheOk(s) && EpochOk(s)
  }

  lemma {:induction false} InitInv(dim: nat, now: nat, limits: Limits)
    requires dim > 0 && limits.opens(NO_MANIFEST)
    ensures Inv(Init(dim, now, limits))
  {
  }
}
