/** When a checkpoint and an append survive a crash: exact conditions a caller can test beforehand,
    and concrete databases for which they fail. */
module Atomicity {
  import opened Records
  import opened Recovery
  import opened Protocol
  import opened Safety

  // ---------- appends ----------

  /** Recovery replays an entry appended now if and only if `SafeToAppend` holds and the log's parser
      accepts it. */
  lemma {:induction false} AppendReplayed(s: State, op: Op, mem: Store)
    ensures Append(s, op, mem).disk.Replayed() == s.disk.Replayed() + [Entry(s.nextTs, op)]
            <==> SafeToAppend(s) && s.disk.limits.parses(op)
  {
    var d, d' := s.disk, Append(s, op, mem).disk;
    AppendSelected(s, op, mem);
    if SafeToAppend(s) {
      var es, es' := d.Selected(), d'.Selected();
      assert es'[..|es'| - 1] == es && d'.limits == d.limits;
    }
  }

  lemma AppendSelected(s: State, op: Op, mem: Store)
    ensures var es := s.disk.Selected();
            Append(s, op, mem).disk.Selected() == if SafeToAppend(s) then es + [Entry(s.nextTs, op)] else es
  {
    var d, d' := s.disk, Append(s, op, mem).disk;
    assert d'.wal[..|d'.wal| - 1] == d.wal;
    assert d.wal == [] ==> d.Selected() == [];
    if !d.SlimLoaded() && d.omen.cutoff.Some? && d.omen.cutoff.value.maxTs.Some? {
      var maxTs := d.omen.cutoff.value.maxTs.value;
      assert After(d'.wal, maxTs) == After(d.wal, maxTs) + (if s.nextTs > maxTs then [Entry(s.nextTs, op)] else []);
      assert d.wal == [] ==> After(d.wal, maxTs) == [];
    }
  }

  lemma UnsafeReplayed(s: State, op: Op, mem: Store)
    requires !(SafeToAppend(s) && s.disk.limits.parses(op))
    ensures Append(s, op, mem).disk.Replayed() == s.disk.Replayed()
  {
    AppendSelected(s, op, mem);
    if SafeToAppend(s) {
      var es := Append(s, op, mem).disk.Selected();
      assert es[..|es| - 1] == s.disk.Selected();
    }
  }

  /** A session that appends `ops`, whatever the log and whatever their size. */
  ghost function Appends(s: State, ops: seq<Op>): State {
    if ops == [] then s
    else
      var t := Appends(s, ops[..|ops| - 1]);
      Append(t, ops[|ops| - 1], t.mem.Do(ops[|ops| - 1]))
  }

  /** Those of its entries that were appended when that was safe, and that parse. */
  ghost function Survivors(s: State, ops: seq<Op>): seq<Entry> {
    if ops == [] then []
    else
      var t, op := Appends(s, ops[..|ops| - 1]), ops[|ops| - 1];
      var kept := SafeToAppend(t) && t.disk.limits.parses(op);
      Survivors(s, ops[..|ops| - 1]) + (if kept then [Entry(t.nextTs, op)] else [])
  }

  /** All of its entries. */
  ghost function Appended(s: State, ops: seq<Op>): (es: seq<Entry>)
    ensures |es| == |ops| && forall i :: 0 <= i < |ops| ==> es[i].op == ops[i]
  {
    if ops == [] then []
    else
      var front := ops[..|ops| - 1];
      Appended(s, front) + [Entry(Appends(s, front).nextTs, ops[|ops| - 1])]
  }

  /** The appends change nothing on disk but the log. */
  lemma {:induction false} AppendsLog(s: State, ops: seq<Op>)
    ensures var t := Appends(s, ops);
            t == s.(disk := s.disk.(wal := s.disk.wal + Appended(s, ops)), mem := t.mem, nextTs := t.nextTs)
  {
    if ops == [] {
      assert s.disk.wal + [] == s.disk.wal;
    } else {
      var front := ops[..|ops| - 1];
      AppendsLog(s, front);
      assert s.disk.wal + Appended(s, front) + [Entry(Appends(s, front).nextTs, ops[|ops| - 1])]
             == s.disk.wal + Appended(s, ops);
    }
  }

  lemma {:induction false} AppendsReplayed(s: State, ops: seq<Op>)
    ensures Appends(s, ops).disk.Replayed() == s.disk.Replayed() + Survivors(s, ops)
  {
    if ops != [] {
      var front, op := ops[..|ops| - 1], ops[|ops| - 1];
      var t := Appends(s, front);
      AppendsReplayed(s, front);
      if SafeToAppend(t) && t.disk.limits.parses(op) {
        AppendReplayed(t, op, t.mem.Do(op));
      } else {
        UnsafeReplayed(t, op, t.mem.Do(op));
      }
    }
  }

  /** After any sequence of appends, safe or not, recovery shows what users had stored before it with
      exactly the surviving entries applied; but one entry over the log reader's limit, and the files
      do not open. */
  lemma {:induction false} AppendsDurable(s: State, ops: seq<Op>, d: Disk)
    requires Inv(s) && s.phase.Idle? && CrashOutcome(Appends(s, ops), d)
    requires forall i :: 0 <= i < |Survivors(s, ops)| ==> Survivors(s, ops)[i].op.id.User?
    ensures d.Opens() <==> forall i :: 0 <= i < |ops| ==> s.disk.limits.scans(ops[i])
    ensures Users(d.Recover().View()) == Apply(Survivors(s, ops), Users(s.mem.View()))
  {
    var before := d.(wal := s.disk.wal);
    assert CrashOutcome(s, before) && d.Replayed() == before.Replayed() + Survivors(s, ops) by {
      AppendsOutcome(s, ops, d);
    }
    assert d.Opens() <==> forall i :: 0 <= i < |ops| ==> s.disk.limits.scans(ops[i]) by { AppendsOpen(s, ops, d); }
    assert before.Sane() && Users(before.Recover().View()) == Users(s.mem.View()) by {
      CrashBase(s, before);
      CrashExact(s, before);
    }
    assert forall i :: 0 <= i < |before.Replayed()| ==> before.Replayed()[i].op.id.User? by { UserLogOf(s, before); }
    OtherLog(d, s.disk.wal);
    UsersRecovered(before);
    UsersRecovered(d);
    ApplyConcat(before.Replayed(), Survivors(s, ops), Users(d.BaseView()));
  }

  lemma UserLogOf(s: State, d: Disk)
    requires Inv(s) && CrashOutcome(s, d)
    ensures forall i :: 0 <= i < |d.Replayed()| ==> d.Replayed()[i].op.id.User?
  {
    CrashBase(s, d);
    UserLog(s, d);
  }

  /** But for the entries, a crash outcome after the appends is one before them. */
  lemma AppendsOutcome(s: State, ops: seq<Op>, d: Disk)
    requires CrashOutcome(Appends(s, ops), d)
    ensures var before := d.(wal := s.disk.wal);
            CrashOutcome(s, before) && d.Replayed() == before.Replayed() + Survivors(s, ops)
  {
    var before, t := d.(wal := s.disk.wal), Appends(s, ops);
    AppendsLog(s, ops);
    assert d.Replayed() == t.disk.Replayed() by { OtherVectors(t.disk, d.vecs); }
    assert before.Replayed() == s.disk.Replayed() by { OtherVectors(s.disk, d.vecs); }
    AppendsReplayed(s, ops);
  }

  /** What is replayed does not depend on the vectors. */
  lemma OtherVectors(d: Disk, vecs: seq<Vec>)
    ensures d.(vecs := vecs).Replayed() == d.Replayed()
  {
  }

  lemma AppendsOpen(s: State, ops: seq<Op>, d: Disk)
    requires LogOk(s) && s.mem.Valid() && BaseOk(s) && CrashOutcome(Appends(s, ops), d)
    ensures d.Opens() <==> forall i :: 0 <= i < |ops| ==> s.disk.limits.scans(ops[i])
  {
    AppendsLog(s, ops);
    ScansSplit(s.disk.limits, s.disk.wal, Appended(s, ops));
  }

  lemma ScansSplit(l: Limits, a: seq<Entry>, b: seq<Entry>)
    requires forall i :: 0 <= i < |a| ==> l.scans(a[i].op)
    ensures (forall i :: 0 <= i < |a + b| ==> l.scans((a + b)[i].op))
            <==> (forall i :: 0 <= i < |b| ==> l.scans(b[i].op))
  {
    if forall i :: 0 <= i < |a + b| ==> l.scans((a + b)[i].op) {
      forall i | 0 <= i < |b| ensures l.scans(b[i].op) { assert (a + b)[|a| + i] == b[i]; }
    }
  }

  /** What users find after a recovery: the base with the replayed entries applied. */
  lemma UsersRecovered(d: Disk)
    requires d.Sane()
    requires forall i :: 0 <= i < |d.Replayed()| ==> d.Replayed()[i].op.id.User?
    ensures Users(d.Recover().View()) == Apply(d.Replayed(), Users(d.BaseView()))
  {
    RecoverView(d);
    UsersApply(d.Replayed(), d.Shown());
    SameUsers(d.Shown(), d.BaseView());
  }

  /** An append to an unsafe log, or of an entry that does not parse, is lost although it was logged
      and synced: whatever the crash leaves, the reopen shows what users had stored before. If the
      entry is over the limit of the log's reader, no reopen succeeds. */
  lemma {:induction false} UnsafeAppendLost(s: State, op: Op, mem: Store, d: Disk)
    requires Inv(s) && s.phase.Idle? && !(SafeToAppend(s) && s.disk.limits.parses(op))
    requires mem.Valid() && CrashOutcome(Append(s, op, mem), d)
    ensures if s.disk.limits.scans(op) then d.Keeps(s.mem.View()) else !d.Opens()
  {
    assert [op][..0] == [];
    assert Appends(s, []) == s && Survivors(s, [op]) == [];
    assert Appends(s, [op]) == Append(s, op, s.mem.Do(op));
    AppendsDurable(s, [op], d);
  }

  /** Where the danger comes from: a session that reopens after a crash between the rename and the
      sidecar write may append safely if and only if the crashed session's epoch was not the
      sidecar's, or the base is a manifest and the old timestamps are still in the log or were
      never recorded. */
  lemma {:induction false} ReopenInWindow(s: State, d: Disk)
    requires Inv(s) && (s.phase.Published? || s.phase.Emptied?) && CrashOutcome(s, d)
    ensures SafeToAppend(Do(s, Reopen(d))) <==>
            || s.walEpoch < s.disk.metaEpoch
            || (!s.disk.SlimLoaded() && (s.phase.Published? || s.disk.omen.cutoff.value.maxTs.None?))
  {
    if s.disk.wal != [] {
      TimestampBound(s.disk.wal);
    }
  }

  /** The log is past the epoch of the base. */
  predicate Ahead(s: State) {
    s.phase.Published? || s.phase.Emptied? || BaseEpoch(s.disk).None? || BaseEpoch(s.disk).value < s.disk.metaEpoch
  }

  /** A session whose files were opened between a rename and the sidecar write, and which has not
      finished a checkpoint since. */
  ghost predicate Stale(trace: seq<State>, steps: seq<Step>)
    requires GuardedRun(trace, steps)
    decreases |steps|
  {
    steps != [] &&
    var n := |steps| - 1;
    Shorter(trace, steps);
    match steps[n]
    case Reopen(_) => trace[n].phase.Published? || trace[n].phase.Emptied? || Stale(trace[..n + 1], steps[..n])
    case WriteMeta => false
    case _ => Stale(trace[..n + 1], steps[..n])
  }

  /** The window is the only way to an unsafe log: in every guarded run that is not in such a
      session, an idle store may append. */
  lemma {:induction false} SafeOutsideWindow(trace: seq<State>, steps: seq<Step>)
    requires GuardedRun(trace, steps) && !Stale(trace, steps)
    ensures Ahead(trace[|steps|])
    ensures trace[|steps|].phase.Idle? ==> SafeToAppend(trace[|steps|])
    decreases |steps|
  {
    if steps != [] {
      var n := |steps| - 1;
      Shorter(trace, steps);
      RunHolds(trace[..n + 1], steps[..n]);
      if !steps[n].WriteMeta? { SafeOutsideWindow(trace[..n + 1], steps[..n]); }
      AheadStep(trace[n], steps[n]);
    }
  }

  lemma AheadStep(s: State, step: Step)
    requires Inv(s) && Guarded(s, step) && (step.WriteMeta? || Ahead(s))
    requires step.Reopen? ==> !s.phase.Published? && !s.phase.Emptied?
    ensures Ahead(Do(s, step))
  {
  }

  /** A step for which nothing about the log's state has to be checked: entries and snapshots within
      the limits, and no reopen of files left in the window. */
  ghost predicate Careful(s: State, step: Step)
    requires s.mem.Valid()
  {
    && Enabled(s, step) && Readable(s, step)
    && (step.Log? ==> Loggable(s.disk, step.op))
    && (step.LogMetadata? ==> Loggable(s.disk, MetadataOp(s.mem, step.id, step.meta)))
    && (step.Reopen? ==> !s.phase.Published? && !s.phase.Emptied?)
    && (step.Compact? ==> !s.disk.omen.usesVecs)
  }

  ghost predicate CarefulStep(s: State, step: Step, s': State) {
    Follows(s, step, s') && Careful(s, step)
  }

  ghost predicate CarefulTrace(trace: seq<State>, steps: seq<Step>) {
    && |trace| == |steps| + 1 && Created(trace[0])
    && forall i :: 0 <= i < |steps| ==> CarefulStep(trace[i], steps[i], trace[i + 1])
  }

  lemma CarefulShorter(trace: seq<State>, steps: seq<Step>)
    requires CarefulTrace(trace, steps) && steps != []
    ensures CarefulTrace(trace[..|steps|], steps[..|steps| - 1])
    ensures CarefulStep(trace[|steps| - 1], steps[|steps| - 1], trace[|steps|])
  {
  }

  /** Runs of careful steps are guarded: all results about guarded runs hold of them. */
  lemma {:induction false} CarefulRun(trace: seq<State>, steps: seq<Step>)
    requires CarefulTrace(trace, steps)
    ensures GuardedRun(trace, steps) && !Stale(trace, steps)
    decreases |steps|
  {
    if steps == [] {
    } else {
      var n := |steps| - 1;
      var t, ss := trace[..n + 1], steps[..n];
      CarefulShorter(trace, steps);
      CarefulRun(t, ss);
      SafeOutsideWindow(t, ss);
      CarefulExtends(t, ss, steps[n], trace[n + 1]);
      assert t + [trace[n + 1]] == trace && ss + [steps[n]] == steps;
    }
  }

  lemma CarefulExtends(trace: seq<State>, steps: seq<Step>, step: Step, next: State)
    requires GuardedRun(trace, steps) && !Stale(trace, steps) && CarefulStep(trace[|steps|], step, next)
    requires trace[|steps|].phase.Idle? ==> SafeToAppend(trace[|steps|])
    ensures GuardedRun(trace + [next], steps + [step]) && !Stale(trace + [next], steps + [step])
  {
    var t, ss := trace + [next], steps + [step];
    assert GuardedRun(t, ss) by {
      assert GuardedStep(trace[|steps|], step, next);
      RunExtends(trace, steps, step, next);
    }
    assert t[..|steps| + 1] == trace && ss[..|steps|] == steps;
    assert !Stale(t, ss);
  }

  /** The sidecar may become durable before the truncation of the log does: the old log under the
      new epoch recovers and reopens as the published state does. */
  lemma {:induction false} SidecarFirst(s: State, d: Disk)
    requires Inv(s) && s.phase.Published? && CrashOutcome(s, d)
    ensures var d' := d.(metaEpoch := s.walEpoch + 1);
            var s' := s.(disk := s.disk.(metaEpoch := s.walEpoch + 1));
            && Inv(s') && CrashOutcome(s', d') && Inv(Do(s', Reopen(d')))
            && d'.Keeps(s.mem.View()) && (d'.Shows(s.mem.View()) <==> d'.Phantoms() == {})
  {
    var s' := s.(disk := s.disk.(metaEpoch := s.walEpoch + 1));
    var d' := d.(metaEpoch := s.walEpoch + 1);
    SidecarInv(s);
    assert CrashOutcome(s', d');
    ReopenInv(s', d');
    CrashExact(s', d');
    NoGhosts(s');
  }

  lemma SidecarInv(s: State)
    requires Inv(s) && s.phase.Published?
    ensures Inv(s.(disk := s.disk.(metaEpoch := s.walEpoch + 1)))
  {
    var s' := s.(disk := s.disk.(metaEpoch := s.walEpoch + 1));
    assert s'.disk.Base() == s.disk.Base() && Pending(s') == Pending(s);
    BaseKept(s, s');
    SlotsKept(s, s');
  }

  /** A published base holds every id. */
  lemma NoGhosts(s: State)
    requires Inv(s) && (s.phase.Published? || s.phase.Emptied?)
    ensures Ghosts(s) == {}
  {
    SyntheticsOf(s.mem.ids.Keys - s.disk.Base().ids.Keys);
  }

  // ---------- checkpoints that write dirty slots in place ----------

  /** `t` is a checkpoint begun in `s` that has written the slots `w` of the dirty set, and no more. */
  ghost predicate During(s: State, kind: Kind, w: set<nat>, t: State) {
    && w <= s.mem.dirty
    && t == s.(phase := Writing(kind, s.mem.dirty - w), mem := s.mem.(dirty := {}), cache := t.cache,
               accumulated := BeginWriting(s, kind).accumulated)
    && |t.cache| == Max(|s.cache|, |s.mem.slots|)
    && (forall k :: 0 <= k < |t.cache| ==>
          t.cache[k] == if k in w then s.mem.Render(k, s.disk.dim)
                        else if k < |s.cache| then s.cache[k] else Zeros(s.disk.dim))
  }

  /** The write loop goes through these states: it begins with none written, and each step adds one. */
  lemma DuringSteps(s: State, kind: Kind, w: set<nat>, t: State, k: nat)
    requires s.mem.Valid() && (forall j :: j in s.mem.dirty ==> j < |s.mem.slots|)
    requires kind != Full && Enabled(s, Begin(kind))
    ensures During(s, kind, {}, Do(s, Begin(kind)))
    ensures During(s, kind, w, t) && k in s.mem.dirty - w ==>
              t.mem.Valid() && Enabled(t, WriteSlot(k)) && During(s, kind, w + {k}, Do(t, WriteSlot(k)))
  {
    var b := Do(s, Begin(kind));
    assert s.mem.dirty - {} == s.mem.dirty;
    if During(s, kind, w, t) && k in s.mem.dirty - w {
      var none := s.mem.(dirty := {});
      assert forall j: nat :: none.Live(j) <==> s.mem.Live(j);
      assert s.mem.dirty - w - {k} == s.mem.dirty - (w + {k});
    }
  }

  lemma DuringInv(s: State, kind: Kind, w: set<nat>, t: State)
    requires Inv(s) && kind != Full && Enabled(s, Begin(kind)) && During(s, kind, w, t)
    ensures Inv(t) && t.mem.View() == s.mem.View()
  {
    assert MemOk(t) && BaseOk(t) && t.mem.View() == s.mem.View() by { DuringMem(s, kind, w, t); }
    assert CacheOk(t) by { DuringCache(s, kind, w, t); }
    assert SettledOk(t) by { DuringSettled(s, kind, w, t); }
    assert StrayOk(t) && Ghosts(t) == Ghosts(s) by { DuringStray(s, kind, w, t); }
  }

  lemma DuringStray(s: State, kind: Kind, w: set<nat>, t: State)
    requires MemOk(s) && StrayOk(s) && kind != Full && Enabled(s, Begin(kind)) && During(s, kind, w, t)
    ensures StrayOk(t) && Ghosts(t) == Ghosts(s)
  {
    forall k: nat | Synthetic(k) in t.mem.ids && Synthetic(k) !in t.disk.Base().ids ensures Haunts(t, k) {
      assert Haunts(s, k);
    }
  }

  lemma DuringMem(s: State, kind: Kind, w: set<nat>, t: State)
    requires MemOk(s) && BaseOk(s) && kind != Full && Enabled(s, Begin(kind)) && During(s, kind, w, t)
    ensures MemOk(t) && BaseOk(t) && t.mem.View() == s.mem.View()
  {
    BeginMem(s, kind);
  }

  lemma DuringCache(s: State, kind: Kind, w: set<nat>, t: State)
    requires MemOk(s) && t.mem.Valid() && CacheOk(s) && kind != Full && Enabled(s, Begin(kind)) && During(s, kind, w, t)
    ensures CacheOk(t)
  {
    RenderLengths(s.mem, s.disk.dim);
  }

  lemma DuringSettled(s: State, kind: Kind, w: set<nat>, t: State)
    requires MemOk(s) && t.mem.Valid() && LogOk(s) && BaseOk(s) && SettledOk(s)
    requires kind != Full && Enabled(s, Begin(kind)) && During(s, kind, w, t)
    ensures SettledOk(t)
  {
    forall id | !Touches(Pending(t), id) ensures Settled(t, id) {
      assert Pending(t) == Pending(s) && Settled(s, id);
    }
  }

  lemma RenderLengths(st: Store, dim: nat)
    ensures forall k: nat :: |st.Render(k, dim)| == dim
  {
  }

  /** A dirty slot whose bytes would be a stray if they reached the disk before the snapshot. */
  ghost predicate WritesStray(s: State, k: nat) {
    k in s.mem.dirty && k !in s.disk.Base().deleted && k !in s.disk.Base().ids.Values
    && !IsZero(s.mem.Render(k, s.disk.dim))
  }

  /** What a caller can test before a checkpoint: a reopen now would resurrect just the strays that
      are records already, and either it filters unreferenced vectors or no dirty slot would become
      a stray. */
  ghost predicate WritesInvisible(s: State) {
    s.disk.Phantoms() == Ghosts(s) && (s.disk.FilterOn() || forall k :: !WritesStray(s, k))
  }

  /** A crash inside the checkpoint in state `t`, or after it has synced `.vecs`. */
  ghost predicate CrashBeforeRename(t: State, d: Disk) {
    CrashOutcome(t, d) || (t.mem.Valid() && Enabled(t, Fsync) && CrashOutcome(Do(t, Fsync), d))
  }

  /** In-place writes that run ahead of the snapshot: a checkpoint recovers to memory from every
      crash before its rename, whatever slots were written and whichever of them survived, if and
      only if `WritesInvisible` held when it began. Under a `.records` base that fails as soon as
      one fresh live slot is dirty. */
  lemma {:induction false} WritesAtomic(s: State, kind: Kind)
    requires Inv(s) && kind != Full && Enabled(s, Begin(kind))
    ensures (forall w, t, d :: During(s, kind, w, t) && CrashBeforeRename(t, d) ==> d.Shows(s.mem.View()))
            <==> WritesInvisible(s)
  {
    if WritesInvisible(s) {
      forall w, t, d | During(s, kind, w, t) && CrashBeforeRename(t, d) ensures d.Shows(s.mem.View()) {
        DuringInv(s, kind, w, t);
        if !CrashOutcome(t, d) { FsyncOutcome(t, d); }
        NoStrayWrites(s, kind, w, t, d);
      }
    } else if s.disk.Phantoms() != Ghosts(s) {
      StrayBefore(s, kind);
    } else {
      var k :| WritesStray(s, k);
      StrayWrite(s, kind, k);
    }
  }

  /** A stray left by an interrupted checkpoint was there before, or is a dirty slot it wrote. */
  lemma StrayOrigin(s: State, kind: Kind, w: set<nat>, t: State, d: Disk, k: nat)
    requires s.cache == s.disk.vecs && kind != Full && During(s, kind, w, t) && CrashOutcome(t, d) && k in d.Strays()
    ensures k in s.disk.Strays() || WritesStray(s, k)
  {
    assert d.Base() == s.disk.Base();
    assert d.vecs[k] == t.cache[k] || d.vecs[k] == if k < |s.disk.vecs| then s.disk.vecs[k] else Zeros(s.disk.dim);
  }

  lemma NoStrayWrites(s: State, kind: Kind, w: set<nat>, t: State, d: Disk)
    requires Inv(s) && kind != Full && Enabled(s, Begin(kind)) && During(s, kind, w, t)
    requires WritesInvisible(s) && CrashOutcome(t, d)
    ensures d.Shows(s.mem.View())
  {
    DuringInv(s, kind, w, t);
    CrashExact(t, d);
    GhostsStay(t, d);
    assert d.FilterOn() <==> s.disk.FilterOn();
    if !d.FilterOn() {
      forall k | k in d.Strays() ensures k in s.disk.Strays() { StrayOrigin(s, kind, w, t, d, k); }
    }
  }

  /** A crash outcome whose phantoms are not the ghosts is a failed recovery. */
  lemma PhantomFails(s: State, kind: Kind, w: set<nat>, t: State, d: Disk)
    requires Inv(s) && kind != Full && Enabled(s, Begin(kind)) && During(s, kind, w, t)
    requires CrashOutcome(t, d) && d.Phantoms() != Ghosts(s)
    ensures !d.Shows(s.mem.View())
  {
    DuringInv(s, kind, w, t);
    CrashExact(t, d);
  }

  lemma StrayBefore(s: State, kind: Kind)
    requires Inv(s) && kind != Full && Enabled(s, Begin(kind)) && s.disk.Phantoms() != Ghosts(s)
    ensures exists w, t, d :: During(s, kind, w, t) && CrashBeforeRename(t, d) && !d.Shows(s.mem.View())
  {
    var t := Do(s, Begin(kind));
    DuringSteps(s, kind, {}, t, 0);
    assert CrashOutcome(t, s.disk) && CrashBeforeRename(t, s.disk);
    PhantomFails(s, kind, {}, t, s.disk);
  }

  lemma StrayWrite(s: State, kind: Kind, k: nat)
    requires Inv(s) && kind != Full && Enabled(s, Begin(kind)) && !s.disk.FilterOn() && WritesStray(s, k)
    ensures exists w, t, d :: During(s, kind, w, t) && CrashBeforeRename(t, d) && !d.Shows(s.mem.View())
  {
    var b := Do(s, Begin(kind));
    DuringSteps(s, kind, {}, b, k);
    var t := Do(b, WriteSlot(k));
    var d := t.disk.(vecs := t.cache);
    assert {} + {k} == {k} && During(s, kind, {k}, t);
    StrayWritten(s, kind, t, d, k);
    DirtyNoGhost(s, k);
    assert CrashBeforeRename(t, d);
    PhantomFails(s, kind, {k}, t, d);
  }

  lemma DirtyNoGhost(s: State, k: nat)
    requires StrayOk(s) && k in s.mem.dirty
    ensures k !in Ghosts(s)
  {
    SyntheticsOf(s.mem.ids.Keys - s.disk.Base().ids.Keys);
    assert Haunts(s, k) ==> k !in s.mem.dirty;
  }

  lemma StrayWritten(s: State, kind: Kind, t: State, d: Disk, k: nat)
    requires MemOk(s) && CacheOk(s) && kind != Full && Enabled(s, Begin(kind)) && !s.disk.FilterOn()
    requires WritesStray(s, k)
    requires During(s, kind, {k}, t) && d == t.disk.(vecs := t.cache)
    ensures CrashOutcome(t, d) && k in d.Phantoms()
  {
    RenderLengths(s.mem, s.disk.dim);
  }

  /** After the fsync a crash leaves no more than before it. */
  lemma FsyncOutcome(t: State, d: Disk)
    requires t.mem.Valid() && CacheOk(t) && Enabled(t, Fsync) && CrashOutcome(Do(t, Fsync), d)
    ensures CrashOutcome(t, d)
  {
  }

  /** The first checkpoint, over a manifest that does not use `.vecs`, recovers to memory from every
      crash before its rename. */
  lemma {:induction false} FullWritesAtomic(t: State, d: Disk)
    requires Inv(t) && (t.phase.Writing? || t.phase.Synced?) && t.phase.kind == Full && CrashOutcome(t, d)
    ensures d.Shows(t.mem.View())
  {
    assert d.Strays() == {};
    forall k ensures k !in Ghosts(t) {
      SyntheticsOf(t.mem.ids.Keys - t.disk.Base().ids.Keys);
      assert !Haunts(t, k);
    }
    CrashExact(t, d);
  }

  /** `.vecs` is in use, or is about to be published for the first time. */
  predicate Mapped(s: State) {
    s.disk.omen.usesVecs || ((s.phase.Writing? || s.phase.Synced?) && |s.mem.slots| > 0)
  }

  /** Every vector in the mapping belongs to a slot memory knows. */
  ghost predicate Accounted(s: State) {
    Mapped(s) ==> forall k :: 0 <= k < |s.cache| && !IsZero(s.cache[k]) ==> s.mem.Knows(k)
  }

  lemma RenderedKnown(st: Store, k: nat, dim: nat)
    requires st.Valid() && !IsZero(st.Render(k, dim))
    ensures st.Knows(k)
  {
    assert st.Live(k) && st.ids[st.slots[k].value.id] == k;
  }

  /** Only a reopen that hides a stray vector can leave one unaccounted for. */
  lemma {:induction false} AccountedStep(s: State, step: Step)
    requires Inv(s) && Guarded(s, step) && Accounted(s)
    requires step.Reopen? ==> step.survived.Strays() == step.survived.Phantoms()
    ensures Accounted(Do(s, step))
  {
    if step.Reopen? {
      ReopenFacts(s, step.survived);
      CrashOpens(s, step.survived);
      AccountedReopen(s, step.survived);
    } else {
      AccountedMove(s, step);
    }
  }

  lemma {:induction false} AccountedMove(s: State, step: Step)
    requires s.mem.Valid() && s.disk.dim > 0 && Guarded(s, step) && !step.Reopen? && Accounted(s)
    ensures Accounted(Do(s, step))
  {
    match step {
      case Log(op) => AccountedLog(s, op);
      case WriteSlot(k) => AccountedWrite(s, k);
      case _ =>
    }
  }

  lemma {:induction false} AccountedLog(s: State, op: Op)
    requires s.mem.Valid() && Enabled(s, Log(op)) && Accounted(s)
    ensures Accounted(Do(s, Log(op)))
  {
    DoView(s.mem, op);
  }

  lemma {:induction false} AccountedWrite(s: State, k: nat)
    requires s.mem.Valid() && Enabled(s, WriteSlot(k)) && Accounted(s)
    ensures Accounted(Do(s, WriteSlot(k)))
  {
    if !IsZero(s.mem.Render(k, s.disk.dim)) {
      RenderedKnown(s.mem, k, s.disk.dim);
    }
  }

  lemma {:induction false} AccountedReopen(s: State, d: Disk)
    requires s.mem.Valid() && CrashOutcome(s, d) && d.Sane() && d.Strays() == d.Phantoms()
    requires forall i :: 0 <= i < |d.Replayed()| ==> d.Replayed()[i].op.id.User?
    requires forall k: nat :: k in d.Base().deleted || k in d.Base().ids.Values ==> d.Recover().Knows(k)
    ensures Accounted(Reopened(s, d))
  {
    if d.omen.usesVecs {
      forall k | 0 <= k < |d.vecs| && !IsZero(d.vecs[k]) ensures d.Recover().Knows(k) {
        if k in d.Strays() { PhantomKnown(d, k); }
      }
    }
  }

  lemma PhantomKnown(d: Disk, k: nat)
    requires d.Sane() && k in d.Phantoms()
    requires forall i :: 0 <= i < |d.Replayed()| ==> d.Replayed()[i].op.id.User?
    ensures d.Recover().Knows(k)
  {
    BuildValid(d);
    PhantomBuilt(d, k);
    assert !Touches(d.Replayed(), Synthetic(k));
    ReplaySlots(d.Replayed(), d.BuildInitial());
    assert d.Recover().ids[Synthetic(k)] == k;
  }

  /** In every guarded run whose reopens hid no stray, all vectors stay accounted for. */
  lemma {:induction false} RunAccounted(trace: seq<State>, steps: seq<Step>)
    requires GuardedRun(trace, steps)
    requires forall i :: 0 <= i < |steps| && steps[i].Reopen? ==>
               steps[i].survived.Strays() == steps[i].survived.Phantoms()
    ensures Accounted(trace[|steps|])
    decreases |steps|
  {
    if steps != [] {
      var n := |steps| - 1;
      Shorter(trace, steps);
      RunHolds(trace[..n + 1], steps[..n]);
      RunAccounted(trace[..n + 1], steps[..n]);
      AccountedStep(trace[n], steps[n]);
    }
  }

  /** From the rename to the sidecar write a crash recovers to memory if and only if recovery drops
      unreferenced vectors or there is none to drop. */
  lemma {:induction false} PublishedAtomic(s: State, d: Disk)
    requires Inv(s) && (s.phase.Published? || s.phase.Emptied?) && CrashOutcome(s, d)
    ensures d.Keeps(s.mem.View())
    ensures d.Shows(s.mem.View()) <==> d.FilterOn() || Accounted(s)
  {
    PublishedStrays(s, d);
    CrashExact(s, d);
    NoGhosts(s);
  }

  lemma {:induction false} PublishedStrays(s: State, d: Disk)
    requires Inv(s) && (s.phase.Published? || s.phase.Emptied?) && CrashOutcome(s, d)
    ensures d.Strays() == {} <==> Accounted(s)
  {
    assert d.vecs == s.cache;
    assert d.Base().ids == s.mem.ids && d.Base().deleted == s.mem.deleted;
    if d.Strays() == {} && d.omen.usesVecs {
      forall k | 0 <= k < |s.cache| && !IsZero(s.cache[k]) ensures s.mem.Knows(k) {
        assert k !in d.Strays();
      }
    }
    if Accounted(s) {
      forall k | 0 <= k < |d.vecs| ensures k !in d.Strays() {
        assert d.omen.usesVecs ==> IsZero(s.cache[k]) || s.mem.Knows(k);
      }
    }
  }
}
