/** The size limits of the log's parser and of the `.records` loader, tied to the protocol: which
    snapshots the loader refuses, what that loses, and which limits a guarded run cannot meet. */
module LoaderLimits {
  import opened Bytes
  import opened Records
  import opened Recovery
  import opened Protocol
  import opened Compaction
  import opened Safety
  import opened Restoration
  import Orec
  import OrecFiles

  // ---------- the loader that `.records` files have ----------

  /** The string form of an id. */
  function Name(id: Id): string {
    match id
    case User(name) => name
    case Synthetic(slot) => "__slot_" + Decimal(slot)
  }

  function Decimal(n: nat): string {
    if n < 10 then [DIGITS[n]] else Decimal(n / 10) + [DIGITS[n % 10]]
  }

  const DIGITS := "0123456789"

  /** The snapshot the writer is given for `slim`. */
  ghost predicate Describes(s: Orec.Snapshot, slim: Slim) {
    && (forall id :: id in slim.tables.ids ==> Name(id) in s.ids && s.ids[Name(id)] == slim.tables.ids[id])
    && (forall name :: name in s.ids ==> exists id :: id in slim.tables.ids && Name(id) == name)
    && s.deleted == slim.tables.deleted && s.metadata == slim.tables.meta
    && s.dense.Listed? && |s.dense.slots| == |slim.tables.dense| && (set k | k in s.dense.slots) == slim.tables.dense
    && s.dirty == slim.dirty && s.epoch == slim.epoch
  }

  /** The file written for `slim` loads as what was written. */
  ghost predicate Accepts(c: Orec.Codec, slim: Slim) {
    exists s, w: Orec.Written ::
      Describes(s, slim) && w.Orders(s) && w.Fits(c) && Orec.Load(c, w.Print(c)) == Orec.Found(s)
  }

  /** The loader's verdict does not depend on the order in which the file was written: it is the
      limits on the snapshot. */
  lemma {:induction false} AcceptsExact(c: Orec.Codec, slim: Slim, s: Orec.Snapshot, w: Orec.Written)
    requires c.Lawful() && Describes(s, slim) && w.Orders(s) && w.Fits(c)
    ensures Accepts(c, slim) <==> Orec.Loadable(c, s)
    ensures !Accepts(c, slim) ==> Orec.Load(c, w.Print(c)) == Orec.Missing
  {
    LoadsAs(c, s, w);
    if Accepts(c, slim) {
      var s', w': Orec.Written :|
        Describes(s', slim) && w'.Orders(s') && w'.Fits(c) && Orec.Load(c, w'.Print(c)) == Orec.Found(s');
      LoadsAs(c, s', w');
      SameIds(slim, s, s');
    }
  }

  lemma LoadsAs(c: Orec.Codec, s: Orec.Snapshot, w: Orec.Written)
    requires c.Lawful() && w.Orders(s) && w.Fits(c)
    ensures Orec.Load(c, w.Print(c)) == if Orec.Loadable(c, s) then Orec.Found(s) else Orec.Missing
  {
    assert w.Print(c) + [] == w.Print(c);
    OrecFiles.LoadWritten(c, w, s, []);
    OrecFiles.AnyOrder(c, w, s);
  }

  lemma SameIds(slim: Slim, s: Orec.Snapshot, s': Orec.Snapshot)
    requires Describes(s, slim) && Describes(s', slim)
    ensures s.ids == s'.ids
  {
    forall name ensures name in s.ids <==> name in s'.ids {
    }
  }

  /** An id of more than 65,536 bytes makes every snapshot that holds it unreadable. */
  lemma {:induction false} LongIdRefused(c: Orec.Codec, slim: Slim, id: Id)
    requires c.Lawful() && id in slim.tables.ids && |c.text(Name(id))| > Orec.MAX_ID_LEN
    ensures !Accepts(c, slim)
  {
    forall s, w: Orec.Written | Describes(s, slim) && w.Orders(s) && w.Fits(c)
      ensures Orec.Load(c, w.Print(c)) != Orec.Found(s)
    {
      assert Name(id) in s.ids;
      LoadsAs(c, s, w);
    }
  }

  /** So does metadata of more than 16 MiB. */
  lemma {:induction false} LongMetadataRefused(c: Orec.Codec, slim: Slim, k: nat)
    requires c.Lawful() && k in slim.tables.meta && |c.json(slim.tables.meta[k])| > Orec.MAX_BLOB_BYTES
    ensures !Accepts(c, slim)
  {
    forall s, w: Orec.Written | Describes(s, slim) && w.Orders(s) && w.Fits(c)
      ensures Orec.Load(c, w.Print(c)) != Orec.Found(s)
    {
      assert k in s.metadata;
      LoadsAs(c, s, w);
    }
  }

  /** The readers of the code: the `.records` loader, and a log parser with the same limits on ids and
      metadata. */
  ghost predicate SameLimits(c: Orec.Codec, l: Limits) {
    && (forall slim :: l.readable(slim) == Accepts(c, slim))
    && (forall op :: l.parses(op) ==> OpWithin(c, op))
  }

  ghost predicate OpWithin(c: Orec.Codec, op: Op) {
    && |c.text(Name(op.id))| <= Orec.MAX_ID_LEN
    && (op.Upsert? ==> |c.json(op.meta)| <= Orec.MAX_BLOB_BYTES)
  }

  /** One id over the limit, stored at any time and however, loses every id stored since the last
      manifest at the next auto-checkpoint. */
  lemma {:induction false} LongIdLoses(c: Orec.Codec, s: State, now: nat, t: State, d: Disk, long: Id, id: Id)
    requires c.Lawful() && SameLimits(c, s.disk.limits)
    requires s.mem.Valid() && BaseOk(s) && CacheOk(s)
    requires Enabled(s, Publish(now)) && s.phase.kind == Auto && Truncated(s, now, t) && CrashOutcome(t, d)
    requires long in s.mem.ids && |c.text(Name(long))| > Orec.MAX_ID_LEN
    requires id in s.mem.ids && id.User? && id !in s.disk.omen.tables.ids
    ensures id in t.mem.View() && d.Opens() && id !in d.Recover().View()
  {
    LongIdRefused(c, SlimNow(s), long);
    UnflushedLost(s, now, t, d, id);
  }

  // ---------- the limits that guarded runs keep ----------

  /** The ids and the metadata of a store, or of tables, are within the log parser's limits. */
  ghost predicate StoreWithin(c: Orec.Codec, st: Store) {
    && (forall id :: id in st.ids && id.User? ==> |c.text(Name(id))| <= Orec.MAX_ID_LEN)
    && (forall k: nat :: k < |st.slots| && st.slots[k].Some? ==> MetaWithin(c, st.slots[k].value.meta))
  }

  ghost predicate MetaWithin(c: Orec.Codec, meta: Option<Json>) {
    meta.Some? ==> |c.json(meta.value)| <= Orec.MAX_BLOB_BYTES
  }

  ghost predicate TablesWithin(c: Orec.Codec, tables: Tables) {
    && (forall id :: id in tables.ids && id.User? ==> |c.text(Name(id))| <= Orec.MAX_ID_LEN)
    && (forall k :: k in tables.meta ==> |c.json(tables.meta[k])| <= Orec.MAX_BLOB_BYTES)
  }

  ghost predicate Within(c: Orec.Codec, s: State) {
    StoreWithin(c, s.mem) && TablesWithin(c, s.disk.Base())
  }

  lemma DoWithin(c: Orec.Codec, st: Store, op: Op)
    requires StoreWithin(c, st) && OpWithin(c, op)
    ensures StoreWithin(c, st.Do(op))
  {
  }

  lemma {:induction false} ReplayWithin(c: Orec.Codec, es: seq<Entry>, st: Store)
    requires StoreWithin(c, st) && forall i :: 0 <= i < |es| ==> OpWithin(c, es[i].op)
    ensures StoreWithin(c, Replay(es, st))
  {
    if es != [] {
      ReplayWithin(c, es[..|es| - 1], st);
      DoWithin(c, Replay(es[..|es| - 1], st), es[|es| - 1].op);
    }
  }

  lemma BuildWithin(c: Orec.Codec, d: Disk)
    requires d.Sane() && TablesWithin(c, d.Base())
    ensures StoreWithin(c, d.BuildInitial())
  {
    var b := d.BuildInitial();
    BuildView(d);
    forall id | id in b.ids && id.User? ensures id in d.Base().ids {
      if id !in d.Base().ids { UnreferencedUser(d, id); }
    }
    forall k: nat | k < |b.slots| && b.slots[k].Some? ensures MetaWithin(c, b.slots[k].value.meta) {
      assert b.slots[k] == d.SlotRecord(k);
    }
  }

  lemma ReopenWithin(c: Orec.Codec, s: State, d: Disk)
    requires Inv(s) && CrashOutcome(s, d) && Within(c, s)
    requires forall op :: s.disk.limits.parses(op) ==> OpWithin(c, op)
    ensures Within(c, Reopened(s, d))
  {
    ReopenFacts(s, d);
    ReplayedCases(s);
    BuildWithin(c, d);
    ReplayWithin(c, d.Replayed(), d.BuildInitial());
  }

  lemma CompactWithin(c: Orec.Codec, st: Store)
    requires st.Valid() && StoreWithin(c, st)
    ensures StoreWithin(c, Compacted(st))
  {
    CompactedView(st);
    CompactedIndex(st);
  }

  lemma {:induction false} StepWithin(c: Orec.Codec, s: State, step: Step)
    requires Inv(s) && Guarded(s, step) && Within(c, s)
    requires forall op :: s.disk.limits.parses(op) ==> OpWithin(c, op)
    ensures Within(c, Do(s, step)) && Do(s, step).disk.limits == s.disk.limits
  {
    if step.Reopen? {
      CrashOpens(s, step.survived);
      ReopenWithin(c, s, step.survived);
    } else {
      MemWithin(c, s, step);
      BaseWithin(c, s, step);
    }
  }

  lemma MemWithin(c: Orec.Codec, s: State, step: Step)
    requires s.mem.Valid() && Guarded(s, step) && StoreWithin(c, s.mem) && !step.Reopen?
    requires forall op :: s.disk.limits.parses(op) ==> OpWithin(c, op)
    ensures StoreWithin(c, Do(s, step).mem)
  {
    match step {
      case Log(op) => DoWithin(c, s.mem, op);
      case LogMetadata(id, meta) => assert OpWithin(c, MetadataOp(s.mem, id, meta));
      case Compact => CompactWithin(c, s.mem);
      case _ =>
    }
  }

  lemma BaseWithin(c: Orec.Codec, s: State, step: Step)
    requires s.mem.Valid() && Guarded(s, step) && Within(c, s) && !step.Reopen?
    ensures TablesWithin(c, Do(s, step).disk.Base()) && Do(s, step).disk.limits == s.disk.limits
  {
    if step.Publish? {
      assert forall k: nat :: k < |s.mem.slots| && s.mem.slots[k].Some? ==> MetaWithin(c, s.mem.slots[k].value.meta);
    }
  }

  /** In every guarded run, whatever it stores and however often it crashes, all ids of users and all
      metadata stay within the limits: what the log's parser accepts the loader accepts too. */
  lemma {:induction false} RunWithin(c: Orec.Codec, trace: seq<State>, steps: seq<Step>)
    requires GuardedRun(trace, steps) && forall op :: trace[0].disk.limits.parses(op) ==> OpWithin(c, op)
    ensures Within(c, trace[|steps|]) && trace[|steps|].disk.limits == trace[0].disk.limits
    decreases |steps|
  {
    if steps == [] {
    } else {
      var n := |steps| - 1;
      Shorter(trace, steps);
      RunHolds(trace[..n + 1], steps[..n]);
      RunWithin(c, trace[..n + 1], steps[..n]);
      StepWithin(c, trace[n], steps[n]);
    }
  }

  /** The limits on numbers of entries and on bitmaps. */
  ghost predicate CountsFit(c: Orec.Codec, s: Orec.Snapshot) {
    && |s.ids| <= Orec.MAX_RECORD_COUNT && |s.metadata| <= Orec.MAX_RECORD_COUNT
    && s.dense.Listed? && |s.dense.slots| <= Orec.MAX_RECORD_COUNT
    && |c.bitmap(s.deleted)| <= Orec.MAX_BLOB_BYTES && |c.bitmap(s.dirty)| <= Orec.MAX_BLOB_BYTES
  }

  /** So in a guarded run only those are left to decide whether a snapshot loads: more than 100,000,000
      entries, or a bitmap of more than 16 MiB. UTF-8 takes at most 4 bytes for a character. */
  lemma {:induction false} GuardedLimits(
    c: Orec.Codec, trace: seq<State>, steps: seq<Step>, s: Orec.Snapshot, w: Orec.Written)
    requires c.Lawful() && (forall t :: |c.text(t)| <= 4 * |t|)
    requires GuardedRun(trace, steps) && SameLimits(c, trace[0].disk.limits)
    requires Describes(s, SlimNow(trace[|steps|])) && w.Orders(s) && w.Fits(c)
    ensures Publishable(trace[|steps|], Auto) <==> CountsFit(c, s)
  {
    var slim := SlimNow(trace[|steps|]);
    RunWithin(c, trace, steps);
    AcceptsExact(c, slim, s, w);
    forall name | name in s.ids ensures |c.text(name)| <= Orec.MAX_ID_LEN {
      var id :| id in slim.tables.ids && Name(id) == name;
      if id.Synthetic? { ReachedSlot(trace, steps, id, s); }
    }
    forall k | k in s.metadata ensures |c.json(s.metadata[k])| <= Orec.MAX_BLOB_BYTES {
      assert MetaWithin(c, trace[|steps|].mem.slots[k].value.meta);
    }
  }

  /** A synthetic id has the number of its slot, which the snapshot holds in 32 bits. */
  lemma ReachedSlot(trace: seq<State>, steps: seq<Step>, id: Id, s: Orec.Snapshot)
    requires GuardedRun(trace, steps) && Describes(s, SlimNow(trace[|steps|]))
    requires id in trace[|steps|].mem.ids && id.Synthetic?
    ensures 4 * |Name(id)| <= 1000
  {
    RunHolds(trace, steps);
    assert s.ids[Name(id)] == id.slot;
    DecimalDigits(id.slot, 10);
  }

  lemma {:induction false} DecimalDigits(n: nat, digits: nat)
    requires n < Power10(digits) && digits > 0
    ensures |Decimal(n)| <= digits
    decreases digits
  {
    if n >= 10 { DecimalDigits(n / 10, digits - 1); }
  }

  function Power10(n: nat): nat {
    if n == 0 then 1 else 10 * Power10(n - 1)
  }
}
