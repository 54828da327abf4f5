/** Safety of the checkpoint protocol over whole runs. */
module Safety {
  import opened Records
  import opened Recovery
  import opened Protocol
  import opened Compaction

  // ---------- what recovery replays ----------

  lemma AfterAll(wal: seq<Entry>, c: nat, maxTs: nat)
    requires c <= |wal|
    requires forall i :: 0 <= i < c ==> wal[i].ts <= maxTs
    requires forall i :: c <= i < |wal| ==> wal[i].ts > maxTs
    ensures After(wal, maxTs) == wal[c..]
  {
    AfterPrefix(wal, c, maxTs, |wal|);
    assert wal[..|wal|] == wal && wal[c..|wal|] == wal[c..];
  }

  lemma {:induction false} AfterPrefix(wal: seq<Entry>, c: nat, maxTs: nat, k: nat)
    requires c <= |wal| && k <= |wal|
    requires forall i :: 0 <= i < c ==> wal[i].ts <= maxTs
    requires forall i :: c <= i < |wal| ==> wal[i].ts > maxTs
    ensures After(wal[..k], maxTs) == if k <= c then [] else wal[c..k]
  {
    if k > 0 {
      AfterPrefix(wal, c, maxTs, k - 1);
      AfterGrows(wal[..k - 1], wal[k - 1], maxTs);
      assert wal[..k] == wal[..k - 1] + [wal[k - 1]];
      if k <= c {
        assert wal[k - 1].ts <= maxTs;
      } else {
        assert wal[k - 1].ts > maxTs;
        assert wal[c..k] == wal[c..k - 1] + [wal[k - 1]];
      }
    }
  }

  lemma AfterGrows(es: seq<Entry>, e: Entry, maxTs: nat)
    ensures After(es + [e], maxTs) == After(es, maxTs) + (if e.ts > maxTs then [e] else [])
  {
    assert (es + [e])[..|es|] == es;
  }

  lemma {:induction false} AfterParsed(parses: Op -> bool, wal: seq<Entry>, maxTs: nat)
    requires forall i :: 0 <= i < |wal| ==> parses(wal[i].op)
    ensures Parsed(parses, After(wal, maxTs)) == After(wal, maxTs)
  {
    if wal != [] {
      var last := wal[|wal| - 1];
      AfterParsed(parses, wal[..|wal| - 1], maxTs);
      var es := After(wal, maxTs);
      if last.ts > maxTs {
        assert es[..|es| - 1] == After(wal[..|wal| - 1], maxTs) && es[|es| - 1] == last;
      } else {
        assert es == After(wal[..|wal| - 1], maxTs);
      }
    }
  }

  /** A log within the parser's limits: no entry is skipped. */
  lemma ReplayedSelected(s: State)
    requires LogOk(s)
    ensures s.disk.Replayed() == s.disk.Selected()
  {
    var d := s.disk;
    ParsedAll(d.limits.parses, d.wal);
    if !d.SlimLoaded() && d.omen.cutoff.Some? && d.omen.cutoff.value.maxTs.Some? {
      AfterParsed(d.limits.parses, d.wal, d.omen.cutoff.value.maxTs.value);
    }
  }

  /** In every guarded run recovery replays either exactly the missing entries or the whole log. */
  lemma {:induction false} ReplayedCases(s: State)
    requires LogOk(s) && EpochOk(s)
    ensures s.disk.Replayed() == Missing(s) || s.disk.Replayed() == s.disk.wal
  {
    var d := s.disk;
    ReplayedSelected(s);
    if !d.SlimLoaded() {
      match d.omen.cutoff
      case Some(Cutoff(epoch, Some(maxTs))) =>
        if d.OpenEpoch() == epoch && d.wal != [] { AfterAll(d.wal, s.contained, maxTs); }
      case _ =>
    }
  }

  /** Recovery replays exactly the entries the base does not hold, none lost and none repeated, if
      and only if the log holds no contained entry or the snapshot carries the sidecar's epoch. It
      carries another one only when it was published by a session that had opened an empty log. */
  lemma {:induction false} ReplaysExactly(s: State)
    requires LogOk(s) && EpochOk(s)
    ensures s.disk.Replayed() == Missing(s) <==> s.contained == 0 || BaseEpoch(s.disk) == Some(s.disk.metaEpoch)
  {
    var d := s.disk;
    ReplayedSelected(s);
    if s.contained > 0 { assert |Missing(s)| < |d.wal|; }
    if !d.SlimLoaded() {
      match d.omen.cutoff
      case Some(Cutoff(epoch, Some(maxTs))) =>
        if d.OpenEpoch() == epoch && d.wal != [] { AfterAll(d.wal, s.contained, maxTs); }
      case _ =>
    }
  }

  /** Between a rename and the emptying of the log, in terms of what is on disk: nothing is replayed
      again if and only if there is no log or the session that published had the sidecar's epoch. */
  lemma {:induction false} PublishedReplays(s: State)
    requires LogOk(s) && EpochOk(s) && s.phase.Published?
    ensures s.disk.Replayed() == Missing(s) <==> s.disk.wal == [] || s.walEpoch == s.disk.metaEpoch
  {
    ReplaysExactly(s);
  }

  /** Replaying the whole log over the base gives what replaying the pending entries gives. */
  lemma WholeLog(s: State)
    requires LogOk(s) && ViewOk(s)
    requires s.skipped == 0 || s.skipped == s.contained
    ensures Apply(s.disk.wal, s.baseView) == Apply(Pending(s), s.baseView)
  {
    var c := s.disk.wal[..s.skipped];
    assert s.disk.wal == c + Pending(s);
    ApplyConcat(c, Pending(s), s.baseView);
  }

  /** So does whatever recovery replays. */
  lemma ReplayedIsPending(s: State)
    requires LogOk(s) && EpochOk(s) && ViewOk(s)
    ensures Apply(s.disk.Replayed(), s.baseView) == Apply(Pending(s), s.baseView)
  {
    ReplayedOrWhole(s);
    if s.disk.Replayed() == s.disk.wal { WholeLog(s); }
  }

  /** Recovery replays the pending entries, or the whole log. */
  lemma ReplayedOrWhole(s: State)
    requires LogOk(s) && EpochOk(s)
    ensures s.disk.Replayed() == Pending(s) || s.disk.Replayed() == s.disk.wal
  {
    ReplayedCases(s);
    ReplaysExactly(s);
  }

  /** What recovery replays includes the pending entries. */
  lemma PendingReplayed(s: State, id: Id)
    requires LogOk(s) && EpochOk(s) && Touches(Pending(s), id)
    ensures Touches(s.disk.Replayed(), id)
  {
    ReplayedOrWhole(s);
    TouchesWhole(s.disk.wal, s.skipped, id);
  }

  lemma TouchesWhole(wal: seq<Entry>, k: nat, id: Id)
    requires k <= |wal| && Touches(wal[k..], id)
    ensures Touches(wal, id)
  {
    var i :| 0 <= i < |wal[k..]| && wal[k..][i].op.id == id;
    assert wal[k + i].op.id == id;
  }

  // ---------- crashes ----------

  lemma CrashBase(s: State, d: Disk)
    requires Inv(s) && CrashOutcome(s, d)
    ensures d.Sane() && d.Base() == s.disk.Base() && d.Replayed() == s.disk.Replayed()
    ensures forall id :: !Touches(Pending(s), id) ==> Agree(s.baseView, d.BaseView(), id)
  {
    assert d.VectorCount() >= s.disk.VectorCount();
    forall id | !Touches(Pending(s), id) ensures Agree(s.baseView, d.BaseView(), id) {
      assert Settled(s, id);
      if id in s.disk.Base().ids {
        var k := s.disk.Base().ids[id];
        assert d.vecs[k] == s.disk.vecs[k];
      }
    }
  }

  /** Whatever a crash leaves, replaying over the base gives the map memory held, on the known ids. */
  lemma CrashReplay(s: State, d: Disk)
    requires Inv(s) && CrashOutcome(s, d)
    ensures d.Sane()
    ensures forall id :: Known(s.disk, id) ==> Agree(Apply(d.Replayed(), d.BaseView()), s.mem.View(), id)
  {
    CrashBase(s, d);
    ReplayedIsPending(s);
    forall id ensures Touches(d.Replayed(), id) || Agree(d.BaseView(), s.baseView, id) {
      if Touches(Pending(s), id) { PendingReplayed(s, id); }
    }
    ApplyAgree(d.Replayed(), d.BaseView(), s.baseView);
  }

  /** A log of users does not touch what recovery shows beside the base. */
  lemma ReplayOverPhantoms(d: Disk, id: Id)
    requires d.Sane()
    requires forall i :: 0 <= i < |d.Replayed()| ==> d.Replayed()[i].op.id.User?
    ensures Known(d, id) ==> Agree(Apply(d.Replayed(), d.Shown()), Apply(d.Replayed(), d.BaseView()), id)
    ensures !Known(d, id) ==> Agree(Apply(d.Replayed(), d.Shown()), d.PhantomView(), id)
  {
    if Known(d, id) {
      assert id in d.PhantomView() ==> id.slot in d.Strays();
      ApplyTouched(d.Replayed(), d.Shown(), d.BaseView(), id);
    } else {
      ApplyUntouched(d.Replayed(), d.Shown(), id);
    }
  }

  /** What a reopen shows, given what replaying over the base gives: `m` on the known ids, and the
      phantoms beside them. */
  lemma {:induction false} RecoverExact(d: Disk, m: View, id: Id)
    requires d.Sane()
    requires forall i :: 0 <= i < |d.Replayed()| ==> d.Replayed()[i].op.id.User?
    requires Known(d, id) ==> Agree(Apply(d.Replayed(), d.BaseView()), m, id)
    ensures Agree(d.Recover().View(), if Known(d, id) then m else d.PhantomView(), id)
  {
    RecoverView(d);
    ReplayOverPhantoms(d, id);
  }

  /** A ghost is one of the strays a crash leaves, with the same vector. */
  lemma GhostKept(s: State, d: Disk, k: nat)
    requires Inv(s) && CrashOutcome(s, d) && k in Ghosts(s)
    ensures k in d.Strays() && d.vecs[k] == s.disk.vecs[k]
    ensures Synthetic(k) in s.mem.View()
    ensures s.mem.View()[Synthetic(k)] == Value(Some(d.vecs[k]), Lookup(d.Base().meta, k))
  {
    SyntheticsOf(s.mem.ids.Keys - s.disk.Base().ids.Keys);
    assert Haunts(s, k) && d.Base() == s.disk.Base();
  }

  lemma CrashShows(s: State, d: Disk, id: Id)
    requires Inv(s) && CrashOutcome(s, d)
    ensures Known(s.disk, id) ==> Agree(d.Recover().View(), s.mem.View(), id)
    ensures !Known(s.disk, id) ==>
              && (id in d.Recover().View() <==> id.slot in d.Phantoms())
              && (id in s.mem.View() <==> id.slot in Ghosts(s))
              && (id.slot in d.Phantoms() && id.slot in Ghosts(s) ==> Agree(d.Recover().View(), s.mem.View(), id))
  {
    assert d.Sane() && d.Base() == s.disk.Base() by { CrashBase(s, d); }
    assert Known(d, id) <==> Known(s.disk, id);
    assert Agree(d.Recover().View(), if Known(d, id) then s.mem.View() else d.PhantomView(), id) by {
      CrashReplay(s, d);
      CrashBase(s, d);
      ReplayedCases(s);
      RecoverExact(d, s.mem.View(), id);
    }
    if !Known(s.disk, id) {
      assert id == Synthetic(id.slot);
      SyntheticsOf(s.mem.ids.Keys - s.disk.Base().ids.Keys);
      if id.slot in Ghosts(s) { GhostKept(s, d, id.slot); }
    }
  }

  /** Whatever a crash leaves, the files open. */
  lemma CrashOpens(s: State, d: Disk)
    requires s.mem.Valid() && LogOk(s) && BaseOk(s) && CrashOutcome(s, d)
    ensures d.Opens()
  {
  }

  /** Crash atomicity, exactly. In every reachable state of a guarded run, inside a checkpoint or
      not, and for every content a crash can leave, reopening succeeds and rebuilds what users stored. It
      rebuilds the whole map held in memory if and only if the strays it turns into records are
      those that already are records in memory. */
  lemma {:induction false} CrashExact(s: State, d: Disk)
    requires Inv(s) && CrashOutcome(s, d)
    ensures d.Keeps(s.mem.View())
    ensures forall id :: Known(s.disk, id) ==> Agree(d.Recover().View(), s.mem.View(), id)
    ensures d.Shows(s.mem.View()) <==> d.Phantoms() == Ghosts(s)
  {
    CrashOpens(s, d);
    forall id ensures Known(s.disk, id) ==> Agree(d.Recover().View(), s.mem.View(), id) { CrashShows(s, d, id); }
    SameUsers(d.Recover().View(), s.mem.View());
    if d.Phantoms() == Ghosts(s) {
      forall id ensures Agree(d.Recover().View(), s.mem.View(), id) { CrashShows(s, d, id); }
      SameView(d.Recover().View(), s.mem.View());
    }
    if d.Recover().View() == s.mem.View() {
      forall k: nat ensures k in d.Phantoms() <==> k in Ghosts(s) {
        if !Known(s.disk, Synthetic(k)) { CrashShows(s, d, Synthetic(k)); } else { KnownSlot(s, d, k); }
      }
    }
  }

  /** The slot of a synthetic record of the base is neither a phantom nor a ghost. */
  lemma KnownSlot(s: State, d: Disk, k: nat)
    requires Inv(s) && CrashOutcome(s, d) && Known(s.disk, Synthetic(k))
    ensures k !in d.Phantoms() && k !in Ghosts(s)
  {
    SyntheticsOf(s.mem.ids.Keys - s.disk.Base().ids.Keys);
    assert s.disk.Base().ids[Synthetic(k)] == k && d.Base() == s.disk.Base();
  }

  /** A crash forgets a ghost only when the filter has come on since the last reopen. */
  lemma {:induction false} GhostsStay(s: State, d: Disk)
    requires Inv(s) && CrashOutcome(s, d)
    ensures d.FilterOn() || Ghosts(s) <= d.Phantoms()
  {
    forall k | k in Ghosts(s) ensures k in d.Strays() { GhostKept(s, d, k); }
  }

  // ---------- every step keeps the invariant ----------

  /** A step that leaves the base alone, adds vectors at most and forgets no slot. */
  lemma BaseKept(s: State, s': State)
    requires s.mem.Valid() && BaseOk(s) && s'.mem.Valid()
    requires s'.disk.omen == s.disk.omen && s'.disk.VectorCount() >= s.disk.VectorCount()
    requires s'.disk.limits == s.disk.limits
    requires s'.disk.SlimLoaded() == s.disk.SlimLoaded() && s'.disk.Base() == s.disk.Base()
    requires s.disk.Base().deleted <= s'.mem.deleted
    requires forall k: nat :: k in s.disk.Base().ids.Values ==> s'.mem.Knows(k)
    requires s'.phase.Published? || s'.phase.Emptied? ==>
               s.disk.Base().ids == s'.mem.ids && s.disk.Base().deleted == s'.mem.deleted
    ensures BaseOk(s')
  {
    FitsMore(s.disk.Base(), s.disk.omen.tables, s.disk.VectorCount(), s'.disk.VectorCount());
    FitsMore(s.disk.omen.tables, s.disk.omen.tables, s.disk.VectorCount(), s'.disk.VectorCount());
  }

  /** A step that leaves the base, the vectors and the store alone. */
  lemma SlotsKept(s: State, s': State)
    requires s.mem.Valid() && s'.mem == s.mem && s'.cache == s.cache && s'.baseView == s.baseView
    requires s'.disk.Base() == s.disk.Base() && s'.disk.vecs == s.disk.vecs && s'.disk.omen == s.disk.omen
    requires LogOk(s) && LogOk(s') && Pending(s') == Pending(s) && Todo(s') == Todo(s)
    ensures SettledOk(s) ==> SettledOk(s')
    ensures StrayOk(s) ==> StrayOk(s')
    ensures ViewOk(s) && Apply(s'.disk.wal[..s'.contained], s.baseView) == s.baseView ==> ViewOk(s')
  {
    if SettledOk(s) {
      forall id | !Touches(Pending(s'), id) ensures Settled(s', id) { assert Settled(s, id); }
    }
    if StrayOk(s) {
      forall k: nat | Synthetic(k) in s'.mem.ids && Synthetic(k) !in s'.disk.Base().ids ensures Haunts(s', k) {
        assert Haunts(s, k);
      }
    }
    if ViewOk(s) && Apply(s'.disk.wal[..s'.contained], s.baseView) == s.baseView {
      forall id | Known(s'.disk, id) ensures Agree(s'.mem.View(), Apply(Pending(s'), s'.baseView), id) {
        assert Known(s.disk, id);
      }
    }
  }

  /** What one logged operation does to the store in memory. */
  ghost predicate Logs(s: State, op: Op, mem: Store)
    requires s.mem.Valid() && mem.Valid()
  {
    && mem.View() == Effect(op, s.mem.View())
    && s.mem.deleted <= mem.deleted && s.mem.dirty <= mem.dirty
    && (forall k: nat :: s.mem.Knows(k) ==> mem.Knows(k))
    && (forall k :: k in mem.dirty ==> k < |mem.slots|)
    && (forall id :: id in mem.ids && id != op.id ==>
          && id in s.mem.ids && mem.ids[id] == s.mem.ids[id] && mem.slots[mem.ids[id]] == s.mem.slots[mem.ids[id]]
          && (mem.ids[id] in mem.dirty ==> mem.ids[id] in s.mem.dirty))
    && (forall id :: id in s.mem.ids && id != op.id ==> id in mem.ids)
    && (op.id in mem.ids ==>
          var k := mem.ids[op.id];
          k in mem.dirty && mem.slots[k].value.vec.Some? && |mem.slots[k].value.vec.value| == s.disk.dim)
  }

  lemma AppendSplit(s: State, op: Op, mem: Store)
    requires s.skipped <= s.contained <= |s.disk.wal|
    ensures var s' := Append(s, op, mem);
            && Pending(s') == Pending(s) + [Entry(s.nextTs, op)]
            && s'.disk.wal[..s'.contained] == s.disk.wal[..s.contained]
            && s'.disk.Base() == s.disk.Base() && s'.disk.BaseView() == s.disk.BaseView()
  {
  }

  lemma AppendView(s: State, op: Op, mem: Store)
    requires LogOk(s) && ViewOk(s) && s.mem.Valid() && mem.Valid() && Logs(s, op, mem)
    ensures ViewOk(Append(s, op, mem))
  {
    var s' := Append(s, op, mem);
    AppendSplit(s, op, mem);
    var es := Pending(s');
    assert es[..|es| - 1] == Pending(s);
    forall id | Known(s'.disk, id) ensures Agree(mem.View(), Apply(es, s.baseView), id) {
      assert Known(s.disk, id);
    }
  }

  /** The base and the vectors do not depend on the log. */
  lemma OtherLog(d: Disk, wal: seq<Entry>)
    ensures var d' := d.(wal := wal);
            && d'.Base() == d.Base() && d'.BaseView() == d.BaseView() && d'.Strays() == d.Strays()
            && (d'.Sane() <==> d.Sane())
  {
    var d' := d.(wal := wal);
    assert d'.Base() == d.Base() && d'.VectorCount() == d.VectorCount();
  }

  lemma AppendStray(s: State, op: Op, mem: Store)
    requires MemOk(s) && StrayOk(s) && mem.Valid() && Logs(s, op, mem) && s.phase.Idle? && op.id.User?
    ensures StrayOk(Append(s, op, mem))
  {
    var s' := Append(s, op, mem);
    forall k: nat | Synthetic(k) in mem.ids && Synthetic(k) !in s'.disk.Base().ids ensures Haunts(s', k) {
      OtherRecord(s, op, mem, Synthetic(k));
      assert Haunts(s, k);
      HauntsOn(s, op, mem, k);
    }
  }

  lemma OtherRecord(s: State, op: Op, mem: Store, id: Id)
    requires s.mem.Valid() && mem.Valid() && Logs(s, op, mem) && id in mem.ids && id != op.id
    ensures id in s.mem.ids && mem.ids[id] == s.mem.ids[id] && mem.slots[mem.ids[id]] == s.mem.slots[s.mem.ids[id]]
    ensures mem.ids[id] < |mem.slots| && (mem.ids[id] in mem.dirty ==> mem.ids[id] in s.mem.dirty)
  {
  }

  lemma HauntsOn(s: State, op: Op, mem: Store, k: nat)
    requires Haunts(s, k) && s.phase.Idle? && k < |mem.slots| && mem.slots[k] == s.mem.slots[k] && k !in mem.dirty
    ensures Haunts(Append(s, op, mem), k)
  {
    OtherLog(s.disk, Append(s, op, mem).disk.wal);
  }

  lemma AppendSettled(s: State, op: Op, mem: Store)
    requires MemOk(s) && LogOk(s) && SettledOk(s) && mem.Valid() && Logs(s, op, mem)
    ensures SettledOk(Append(s, op, mem))
  {
    var s' := Append(s, op, mem);
    AppendSplit(s, op, mem);
    var es := Pending(s);
    var es' := Pending(s');
    forall id | !Touches(es', id) ensures Settled(s', id) {
      assert !Touches(es, id) && id != op.id by {
        assert es'[|es|].op == op;
        assert forall i :: 0 <= i < |es| ==> es'[i] == es[i];
      }
      AppendSettles(s, op, mem, id);
    }
  }

  lemma AppendSettles(s: State, op: Op, mem: Store, id: Id)
    requires s.mem.Valid() && mem.Valid() && Logs(s, op, mem) && Settled(s, id) && id != op.id
    ensures Settled(Append(s, op, mem), id)
  {
  }

  lemma AppendMem(s: State, op: Op, mem: Store)
    requires MemOk(s) && mem.Valid() && Logs(s, op, mem) && op.id.User?
    ensures MemOk(Append(s, op, mem))
  {
  }

  lemma AppendBase(s: State, op: Op, mem: Store)
    requires s.mem.Valid() && BaseOk(s) && s.phase.Idle? && mem.Valid() && Logs(s, op, mem)
    ensures BaseOk(Append(s, op, mem))
  {
    BaseKept(s, Append(s, op, mem));
  }

  lemma AppendCache(s: State, op: Op, mem: Store)
    requires s.mem.Valid() && CacheOk(s) && s.phase.Idle? && mem.Valid() && Logs(s, op, mem)
    ensures CacheOk(Append(s, op, mem))
  {
  }

  lemma AppendEpoch(s: State, op: Op, mem: Store)
    requires LogOk(s) && EpochOk(s) && s.phase.Idle? && SafeToAppend(s)
    ensures EpochOk(Append(s, op, mem))
  {
  }

  lemma AppendLog(s: State, op: Op, mem: Store)
    requires LogOk(s) && s.phase.Idle? && Loggable(s.disk, op)
    ensures LogOk(Append(s, op, mem))
  {
    var wal, wal' := s.disk.wal, Append(s, op, mem).disk.wal;
    assert wal'[..|wal|] == wal && wal'[|wal|] == Entry(s.nextTs, op);
    if wal != [] { TimestampBound(wal); }
  }

  lemma {:induction false} AppendInv(s: State, op: Op, mem: Store)
    requires Inv(s) && s.phase.Idle? && SafeToAppend(s) && Loggable(s.disk, op)
    requires mem.Valid() && Logs(s, op, mem)
    ensures Inv(Append(s, op, mem))
  {
    AppendLog(s, op, mem);
    AppendMem(s, op, mem);
    AppendBase(s, op, mem);
    AppendView(s, op, mem);
    AppendSettled(s, op, mem);
    AppendStray(s, op, mem);
    AppendCache(s, op, mem);
    AppendEpoch(s, op, mem);
  }

  lemma UpsertLogs(s: State, op: Op)
    requires MemOk(s) && op.Upsert? && |op.vec| == s.disk.dim
    ensures s.mem.Do(op).Valid() && Logs(s, op, s.mem.Do(op))
  {
    DoView(s.mem, op);
  }

  lemma DeleteLogs(s: State, op: Op)
    requires MemOk(s) && op.Delete?
    ensures s.mem.Do(op).Valid() && Logs(s, op, s.mem.Do(op))
  {
    DoView(s.mem, op);
  }

  lemma MetadataLogs(s: State, id: Id, meta: Json)
    requires MemOk(s) && id in s.mem.ids
    ensures var mem := s.mem.UpdateMetadata(s.mem.ids[id], meta);
            mem.Valid() && Logs(s, MetadataOp(s.mem, id, meta), mem)
  {
    UpdateMetadataView(s.mem, id, meta);
    assert forall k: nat :: s.mem.Knows(k) ==> s.mem.UpdateMetadata(s.mem.ids[id], meta).Knows(k);
  }

  // ---- writing `.vecs` ----

  lemma BeginInv(s: State, kind: Kind)
    requires Inv(s) && Enabled(s, Begin(kind))
    ensures Inv(Do(s, Begin(kind)))
  {
    var s' := Do(s, Begin(kind));
    BeginMem(s, kind);
    BeginCache(s, kind);
    BeginSettled(s, kind);
    BeginStray(s, kind);
    assert ViewOk(s') by { assert Pending(s') == Pending(s); }
  }

  lemma BeginMem(s: State, kind: Kind)
    requires MemOk(s) && Enabled(s, Begin(kind))
    ensures MemOk(Do(s, Begin(kind))) && (BaseOk(s) ==> BaseOk(Do(s, Begin(kind))))
    ensures Do(s, Begin(kind)).mem.View() == s.mem.View()
  {
    var mem' := s.mem.(dirty := {});
    assert forall k: nat :: mem'.Live(k) <==> s.mem.Live(k);
    assert forall k: nat :: mem'.Knows(k) <==> s.mem.Knows(k);
    assert mem'.Valid();
  }

  lemma BeginCache(s: State, kind: Kind)
    requires MemOk(s) && CacheOk(s) && Enabled(s, Begin(kind)) && s.mem.(dirty := {}).Valid()
    ensures CacheOk(Do(s, Begin(kind)))
  {
  }

  lemma BeginSettled(s: State, kind: Kind)
    requires MemOk(s) && LogOk(s) && BaseOk(s) && SettledOk(s) && Enabled(s, Begin(kind)) && s.mem.(dirty := {}).Valid()
    ensures SettledOk(Do(s, Begin(kind)))
  {
    var s' := Do(s, Begin(kind));
    forall id | !Touches(Pending(s'), id) ensures Settled(s', id) {
      assert Pending(s') == Pending(s) && Settled(s, id);
    }
  }

  lemma BeginStray(s: State, kind: Kind)
    requires MemOk(s) && StrayOk(s) && Enabled(s, Begin(kind)) && s.mem.(dirty := {}).Valid()
    ensures StrayOk(Do(s, Begin(kind)))
  {
    var s' := Do(s, Begin(kind));
    if kind == Full {
      forall k: nat ensures !(Synthetic(k) in s.mem.ids && Synthetic(k) !in s.disk.Base().ids) {
        assert k !in s.disk.Strays() && !Haunts(s, k);
      }
    } else {
      forall k: nat | Synthetic(k) in s.mem.ids && Synthetic(k) !in s.disk.Base().ids ensures Haunts(s', k) {
        assert Haunts(s, k);
      }
    }
  }

  /** Compacting a store whose snapshots know no slot. */
  lemma CompactInv(s: State)
    requires Inv(s) && Enabled(s, Compact) && !s.disk.omen.usesVecs
    ensures Inv(Do(s, Compact)) && Do(s, Compact).mem.View() == s.mem.View()
  {
    var s' := Do(s, Compact);
    EmptyBase(s);
    CompactedView(s.mem);
    assert MemOk(s') by { CompactMem(s); }
    assert Pending(s') == Pending(s) && s'.disk == s.disk;
    BaseKept(s, s');
    forall id | !Touches(Pending(s'), id) ensures Settled(s', id) { assert Settled(s, id); }
  }

  /** A base that counts no vector has no slot. */
  lemma EmptyBase(s: State)
    requires s.mem.Valid() && BaseOk(s) && !s.disk.omen.usesVecs
    ensures s.disk.Base().ids == map[] && s.disk.Base().deleted == {} && s.disk.Strays() == {}
  {
    assert forall id :: id in s.disk.Base().ids ==> s.disk.Base().ids[id] < s.disk.VectorCount();
    assert forall k :: k in s.disk.Base().deleted ==> k < s.disk.VectorCount();
    assert s.disk.VectorCount() == 0;
  }

  lemma CompactMem(s: State)
    requires MemOk(s) && StrayOk(s) && s.disk.Base().ids == map[] && s.disk.Strays() == {}
    ensures MemOk(s.(mem := Compacted(s.mem)))
  {
    CompactedView(s.mem);
    forall k: nat ensures Synthetic(k) !in s.mem.ids { assert !Haunts(s, k); }
    assert forall id: Id :: id.User? || exists k: nat :: id == Synthetic(k);
  }

  lemma SkipVecsInv(s: State)
    requires Inv(s) && Enabled(s, SkipVecs)
    ensures Inv(Do(s, SkipVecs)) && Do(s, SkipVecs).mem.View() == s.mem.View()
  {
    var s' := Do(s, SkipVecs);
    NothingKnown(s);
    assert s'.disk.Base() == s.disk.Base() && Pending(s') == Pending(s);
    forall id | !Touches(Pending(s'), id) ensures Settled(s', id) {
      assert Settled(s, id);
    }
  }

  /** A store without slots stands over a base without ids. */
  lemma NothingKnown(s: State)
    requires MemOk(s) && BaseOk(s) && s.mem.slots == []
    ensures s.mem.ids == map[] && s.mem.deleted == {} && s.mem.dirty == {}
    ensures s.disk.Base().ids == map[] && s.disk.Base().deleted == {}
    ensures s.disk.omen.tables.ids == map[] && s.disk.omen.tables.deleted == {} && s.disk.omen.tables.dense == {}
  {
    assert forall id :: id in s.mem.ids ==> s.mem.Live(s.mem.ids[id]);
    assert s.mem.ids == map[] && s.mem.deleted == {};
    assert forall k: nat :: !s.mem.Knows(k);
    NoValues(s.disk.Base().ids);
    NoValues(s.disk.omen.tables.ids);
  }

  lemma NoValues(ids: map<Id, nat>)
    ensures ids.Values == {} ==> ids == map[]
  {
    if ids != map[] {
      var id :| id in ids;
      assert ids[id] in ids.Values;
    }
  }

  lemma WriteSlotInv(s: State, k: nat)
    requires Inv(s) && Enabled(s, WriteSlot(k))
    ensures Inv(Do(s, WriteSlot(k)))
  {
    WriteSlotCache(s, k);
    WriteSlotSettled(s, k);
    WriteSlotStray(s, k);
  }

  lemma WriteSlotStray(s: State, k: nat)
    requires s.mem.Valid() && StrayOk(s) && Enabled(s, WriteSlot(k))
    ensures StrayOk(Do(s, WriteSlot(k)))
  {
    var s' := Do(s, WriteSlot(k));
    forall j: nat | Synthetic(j) in s.mem.ids && Synthetic(j) !in s.disk.Base().ids ensures Haunts(s', j) {
      assert Haunts(s, j);
    }
  }

  lemma WriteSlotCache(s: State, k: nat)
    requires MemOk(s) && CacheOk(s) && Enabled(s, WriteSlot(k))
    ensures CacheOk(Do(s, WriteSlot(k)))
  {
    RenderLength(s.mem, k, s.disk.dim);
  }

  lemma RenderLength(st: Store, k: nat, dim: nat)
    ensures |st.Render(k, dim)| == dim
  {
  }

  lemma WriteSlotSettled(s: State, k: nat)
    requires MemOk(s) && LogOk(s) && BaseOk(s) && SettledOk(s) && Enabled(s, WriteSlot(k))
    ensures SettledOk(Do(s, WriteSlot(k)))
  {
    var s' := Do(s, WriteSlot(k));
    forall id | !Touches(Pending(s'), id) ensures Settled(s', id) {
      assert Pending(s') == Pending(s) && Settled(s, id);
    }
  }

  lemma FsyncInv(s: State)
    requires Inv(s) && Enabled(s, Fsync)
    ensures Inv(Do(s, Fsync))
  {
    var s' := Do(s, Fsync);
    assert BaseOk(s') && CacheOk(s') by { FsyncBase(s); }
    assert SettledOk(s') by { FsyncSettled(s); }
    assert StrayOk(s') by { FsyncStray(s); }
    assert ViewOk(s') by { FsyncView(s); }
  }

  lemma FsyncView(s: State)
    requires s.mem.Valid() && LogOk(s) && ViewOk(s) && Enabled(s, Fsync)
    ensures ViewOk(Do(s, Fsync))
  {
    var s' := Do(s, Fsync);
    assert Pending(s') == Pending(s);
    forall id | Known(s'.disk, id) ensures Agree(s'.mem.View(), Apply(Pending(s'), s'.baseView), id) {
      assert Known(s.disk, id);
    }
  }

  lemma FsyncStray(s: State)
    requires s.mem.Valid() && CacheOk(s) && StrayOk(s) && Enabled(s, Fsync)
    ensures StrayOk(Do(s, Fsync))
  {
    var s' := Do(s, Fsync);
    assert s'.disk.Base() == s.disk.Base();
    forall k: nat | Synthetic(k) in s.mem.ids && Synthetic(k) !in s.disk.Base().ids ensures Haunts(s', k) {
      assert Haunts(s, k);
    }
  }

  lemma FsyncBase(s: State)
    requires MemOk(s) && CacheOk(s) && Enabled(s, Fsync)
    ensures CacheOk(Do(s, Fsync)) && (BaseOk(s) ==> BaseOk(Do(s, Fsync)))
  {
    if BaseOk(s) { BaseKept(s, Do(s, Fsync)); }
  }

  lemma FsyncSettled(s: State)
    requires MemOk(s) && LogOk(s) && BaseOk(s) && CacheOk(s) && SettledOk(s) && Enabled(s, Fsync)
    ensures SettledOk(Do(s, Fsync))
  {
    var s' := Do(s, Fsync);
    forall id | !Touches(Pending(s'), id) ensures Settled(s', id) {
      assert Pending(s') == Pending(s) && Settled(s, id);
      assert s'.disk.Base() == s.disk.Base();
    }
  }

  // ---- publishing ----

  lemma {:induction false} PublishInv(s: State, now: nat)
    requires Inv(s) && Enabled(s, Publish(now)) && Readable(s, Publish(now))
    ensures Inv(Do(s, Publish(now)))
  {
    PublishView(s, now);
    PublishBase(s, now);
    PublishSettled(s, now);
    PublishEpoch(s, now);
    PublishStray(s, now);
  }

  lemma PublishView(s: State, now: nat)
    requires MemOk(s) && LogOk(s) && EpochOk(s) && ViewOk(s) && Enabled(s, Publish(now))
    ensures LogOk(Do(s, Publish(now))) && ViewOk(Do(s, Publish(now)))
  {
    var wal := s.disk.wal;
    WholeLog(s);
    forall id | Touches(wal, id) ensures Agree(s.mem.View(), Apply(wal, s.baseView), id) { assert Known(s.disk, id); }
    Absorbs(wal, s.mem.View(), s.baseView);
    assert wal[..|wal|] == wal && wal[|wal|..] == [];
  }

  /** A map that already is what the log makes of some map, on every id the log touches, is not
      changed by the log. */
  lemma Absorbs(wal: seq<Entry>, v: View, m: View)
    requires forall id :: Touches(wal, id) ==> Agree(v, Apply(wal, m), id)
    ensures Apply(wal, v) == v
  {
    forall id ensures Agree(Apply(wal, v), v, id) {
      if Touches(wal, id) { ApplyTouched(wal, v, m, id); } else { ApplyUntouched(wal, v, id); }
    }
    SameView(Apply(wal, v), v);
  }

  lemma PublishStray(s: State, now: nat)
    requires s.mem.Valid() && Enabled(s, Publish(now)) && Readable(s, Publish(now))
    ensures StrayOk(Do(s, Publish(now)))
  {
    assert Do(s, Publish(now)).disk.Base().ids == s.mem.ids;
  }

  /** The published tables describe the store in memory. */
  lemma PublishedTables(s: State, now: nat)
    requires MemOk(s) && Enabled(s, Publish(now)) && Readable(s, Publish(now))
    ensures var base := Do(s, Publish(now)).disk.Base();
            && base.ids == s.mem.ids && base.deleted == s.mem.deleted && base.dense == s.mem.ids.Values
            && forall id :: id in s.mem.ids ==>
                 Lookup(base.meta, s.mem.ids[id]) == s.mem.slots[s.mem.ids[id]].value.meta
  {
    assert s.mem.DenseSlots() == s.mem.ids.Values by {
      forall k | k in s.mem.DenseSlots() ensures k in s.mem.ids.Values {
        assert s.mem.ids[s.mem.slots[k].value.id] == k;
      }
    }
  }

  lemma PublishBase(s: State, now: nat)
    requires MemOk(s) && CacheOk(s) && Enabled(s, Publish(now)) && Readable(s, Publish(now))
    requires s.phase.kind == Auto ==> BaseOk(s)
    ensures BaseOk(Do(s, Publish(now)))
  {
    PublishedTables(s, now);
    PublishSane(s, now);
    PublishManifestSane(s, now);
    assert s.mem.Valid();
  }

  lemma PublishSane(s: State, now: nat)
    requires MemOk(s) && CacheOk(s) && Enabled(s, Publish(now)) && Readable(s, Publish(now))
    requires s.phase.kind == Auto ==> BaseOk(s)
    ensures Do(s, Publish(now)).disk.Sane()
  {
    var d := Do(s, Publish(now)).disk;
    PublishedTables(s, now);
    assert s.mem.Valid();
    assert |s.mem.slots| <= d.VectorCount() || s.mem.slots == [];
    if s.phase.kind == Auto {
      forall k | k in s.disk.omen.tables.ids.Values + s.disk.omen.tables.dense
        ensures k in s.mem.deleted + s.mem.ids.Values
      {
        assert s.mem.Knows(k);
      }
    }
  }

  lemma PublishManifestSane(s: State, now: nat)
    requires MemOk(s) && CacheOk(s) && Enabled(s, Publish(now)) && Readable(s, Publish(now))
    requires s.phase.kind == Auto ==> BaseOk(s)
    ensures var d := Do(s, Publish(now)).disk; Fits(d.omen.tables, d.omen.tables, d.VectorCount())
  {
    if s.phase.kind != Auto { PublishSane(s, now); }
  }

  lemma PublishSettled(s: State, now: nat)
    requires MemOk(s) && CacheOk(s) && LogOk(s) && Enabled(s, Publish(now)) && Readable(s, Publish(now))
    ensures SettledOk(Do(s, Publish(now))) && CacheOk(Do(s, Publish(now)))
  {
    PublishSettles(s, now);
  }

  /** Every id of a published base is settled. */
  lemma PublishSettles(s: State, now: nat)
    requires MemOk(s) && CacheOk(s) && Enabled(s, Publish(now)) && Readable(s, Publish(now))
    ensures CacheOk(Do(s, Publish(now))) && forall id :: Settled(Do(s, Publish(now)), id)
  {
    var s' := Do(s, Publish(now));
    PublishedTables(s, now);
    forall id ensures Settled(s', id) {
      if id in s.mem.ids {
        var k := s.mem.ids[id];
        assert s.mem.Live(k);
      }
    }
  }

  lemma PublishEpoch(s: State, now: nat)
    requires s.mem.Valid() && LogOk(s) && EpochOk(s) && Enabled(s, Publish(now)) && Readable(s, Publish(now))
    ensures EpochOk(Do(s, Publish(now)))
  {
    var s' := Do(s, Publish(now));
    if s.phase.kind == Auto {
      assert s'.disk.SlimLoaded();
    } else {
      assert !s'.disk.SlimLoaded();
      if s.disk.wal != [] { assert s.disk.wal[0].ts < s.nextTs; }
    }
  }

  // ---- truncating the log ----

  lemma {:induction false} EmptyLogInv(s: State)
    requires Inv(s) && Enabled(s, EmptyLog)
    ensures Inv(Do(s, EmptyLog))
  {
    var s' := Do(s, EmptyLog);
    assert Pending(s) == [] && Pending(s') == [];
    EmptyLogBase(s);
    SlotsKept(s, s');
  }

  lemma EmptyLogBase(s: State)
    requires s.mem.Valid() && BaseOk(s) && Enabled(s, EmptyLog)
    ensures BaseOk(Do(s, EmptyLog))
  {
    BaseKept(s, Do(s, EmptyLog));
  }

  /** Once the sidecar is written the next append is safe. */
  lemma {:induction false} WriteMetaInv(s: State)
    requires Inv(s) && Enabled(s, WriteMeta)
    ensures Inv(Do(s, WriteMeta)) && SafeToAppend(Do(s, WriteMeta))
  {
    var s' := Do(s, WriteMeta);
    WriteMetaBase(s);
    SlotsKept(s, s');
  }

  lemma WriteMetaBase(s: State)
    requires s.mem.Valid() && BaseOk(s) && Enabled(s, WriteMeta)
    ensures BaseOk(Do(s, WriteMeta))
  {
    BaseKept(s, Do(s, WriteMeta));
  }

  // ---- reopening ----

  /** What recovery replays is the end of the log, after nothing or after what the base holds. */
  lemma ReplayedEnd(s: State)
    requires LogOk(s) && EpochOk(s)
    ensures var wal, es := s.disk.wal, s.disk.Replayed();
            && |es| <= |wal| && wal[|wal| - |es|..] == es
            && (|wal| - |es| == s.contained || (es == wal && BaseEpoch(s.disk) != Some(s.disk.metaEpoch)))
  {
    ReplayedCases(s);
    ReplaysExactly(s);
  }

  lemma ReopenLog(s: State, d: Disk)
    requires s.mem.Valid() && LogOk(s) && EpochOk(s) && CrashOutcome(s, d) && d.Replayed() == s.disk.Replayed()
    ensures var s' := Reopened(s, d);
            LogOk(s') && EpochOk(s') && Pending(s') == d.Replayed()
  {
    var s' := Reopened(s, d);
    assert s'.skipped == |d.wal| - |d.Replayed()| by { ReplayedEnd(s); }
    assert s'.skipped == s.contained || (s'.skipped == 0 && BaseEpoch(s.disk) != Some(s.disk.metaEpoch)) by {
      ReplayedEnd(s);
    }
    OpenedLog(s, d, s');
    assert Pending(s') == d.Replayed() by { ReplayedEnd(s); }
  }

  lemma OpenedLog(s: State, d: Disk, s': State)
    requires LogOk(s) && EpochOk(s) && d == s.disk.(vecs := d.vecs)
    requires s'.disk == d && s'.phase.Idle? && s'.contained == s.contained
    requires s'.walEpoch == d.OpenEpoch() && s'.nextTs == d.OpenTimestamp()
    requires s'.skipped == s.contained || (s'.skipped == 0 && BaseEpoch(s.disk) != Some(s.disk.metaEpoch))
    ensures LogOk(s') && EpochOk(s')
  {
    if d.wal != [] { TimestampBound(d.wal); }
  }

  lemma ReopenView(s: State, d: Disk)
    requires s.mem.Valid() && LogOk(s) && EpochOk(s) && ViewOk(s) && CrashOutcome(s, d)
    requires d.Replayed() == s.disk.Replayed() && d.Base() == s.disk.Base()
    requires forall id :: Known(s.disk, id) ==> Agree(d.Recover().View(), s.mem.View(), id)
    ensures LogOk(Reopened(s, d)) && ViewOk(Reopened(s, d))
  {
    var s' := Reopened(s, d);
    ReopenLog(s, d);
    ReplayedIsPending(s);
    forall id | Known(d, id) ensures Agree(s'.mem.View(), Apply(Pending(s'), s'.baseView), id) {
      assert Known(s.disk, id);
    }
  }

  lemma ReopenMem(s: State, d: Disk)
    requires MemOk(s) && CrashOutcome(s, d) && d.Sane() && d.Recover().Valid() && d.Base() == s.disk.Base()
    requires forall id :: Known(s.disk, id) ==> Agree(d.Recover().View(), s.mem.View(), id)
    requires forall i :: 0 <= i < |d.Replayed()| ==> d.Replayed()[i].op.id.User?
    ensures MemOk(Reopened(s, d))
  {
    var r, m := d.Recover(), s.mem;
    forall id | id in r.ids
      ensures id.Synthetic? ==> r.ids[id] == id.slot
      ensures r.slots[r.ids[id]].value.vec.Some? && |r.slots[r.ids[id]].value.vec.value| == s.disk.dim
    {
      if id.User? {
        assert Known(s.disk, id) && id in r.View() && id in m.View();
        assert r.View()[id].vec == r.slots[r.ids[id]].value.vec;
        assert m.View()[id].vec == m.slots[m.ids[id]].value.vec;
      } else {
        assert id == Synthetic(id.slot);
        ReopenSynthetic(d, id.slot);
      }
    }
    BuildValid(d);
    ReplaySlots(d.Replayed(), d.BuildInitial());
  }

  /** After a reopen a synthetic record sits in its own slot, with the vector on disk, not dirty. */
  lemma ReopenSynthetic(d: Disk, k: nat)
    requires d.Sane() && d.Recover().Valid() && Synthetic(k) in d.Recover().ids
    requires forall i :: 0 <= i < |d.Replayed()| ==> d.Replayed()[i].op.id.User?
    ensures var r := d.Recover();
            && r.ids[Synthetic(k)] == k && k < |d.vecs| && r.slots[k].value.vec == Some(d.vecs[k]) && k !in r.dirty
            && (Synthetic(k) !in d.Base().ids ==>
                  && k in d.Phantoms()
                  && r.slots[k] == Some(Rec(Synthetic(k), Some(d.vecs[k]), Lookup(d.Base().meta, k))))
  {
    var id, b := Synthetic(k), d.BuildInitial();
    assert !Touches(d.Replayed(), id);
    BuildView(d);
    ReplayView(d.Replayed(), b);
    ApplyUntouched(d.Replayed(), d.Shown(), id);
    assert id in d.Shown();
    ReplaySlots(d.Replayed(), b);
    if id in d.Base().ids { BuildReferenced(d, id); } else { PhantomBuilt(d, k); }
    assert d.Recover().slots[k] == b.slots[k];
  }

  lemma ReopenStray(s: State, d: Disk)
    requires CrashOutcome(s, d) && s.mem.Valid() && d.Sane() && d.Recover().Valid()
    requires forall i :: 0 <= i < |d.Replayed()| ==> d.Replayed()[i].op.id.User?
    ensures StrayOk(Reopened(s, d))
  {
    var s' := Reopened(s, d);
    forall k: nat | Synthetic(k) in s'.mem.ids && Synthetic(k) !in d.Base().ids ensures Haunts(s', k) {
      ReopenSynthetic(d, k);
    }
  }

  /** Untouched ids keep the slot the base gives them. */
  lemma ReopenSlot(d: Disk, id: Id)
    requires d.Sane() && id in d.Base().ids && !Touches(d.Replayed(), id)
    ensures var r := d.Recover();
            var k := d.Base().ids[id];
            r.Valid() && id in r.ids && r.ids[id] == k && r.slots[k].value.vec == Some(d.vecs[k])
  {
    var b := d.BuildInitial();
    BuildValid(d);
    BuildReferenced(d, id);
    ReplayView(d.Replayed(), b);
    ReplaySlots(d.Replayed(), b);
    var k := d.Base().ids[id];
    assert d.Recover().slots[k] == b.slots[k];
  }

  lemma ReopenSettled(s: State, d: Disk)
    requires MemOk(s) && LogOk(s) && EpochOk(s) && CrashOutcome(s, d) && d.Sane() && d.Replayed() == s.disk.Replayed()
    requires d.Recover().Valid()
    requires forall id :: !Touches(Pending(s), id) ==> Agree(s.baseView, d.BaseView(), id)
    ensures LogOk(Reopened(s, d)) && SettledOk(Reopened(s, d))
  {
    var s' := Reopened(s, d);
    ReopenLog(s, d);
    forall id | !Touches(Pending(s'), id) ensures Settled(s', id) {
      if Touches(Pending(s), id) { PendingReplayed(s, id); }
      assert Agree(s.baseView, d.BaseView(), id);
      if id in d.Base().ids { ReopenSlot(d, id); }
    }
  }

  lemma ReopenCache(s: State, d: Disk)
    requires s.mem.Valid() && CacheOk(s) && CrashOutcome(s, d) && d.Sane()
    ensures d.Recover().Valid() && CacheOk(Reopened(s, d))
  {
    var r, b := d.Recover(), d.BuildInitial();
    BuildValid(d);
    ReplayView(d.Replayed(), b);
    ReplaySlots(d.Replayed(), b);
    if d.omen.usesVecs {
      forall id | id in r.ids
        ensures var k := r.ids[id];
                k in r.dirty || (k < |d.vecs| && r.slots[k].value.vec == Some(d.vecs[k]))
      {
        var k := r.ids[id];
        if k !in r.dirty {
          assert b.Live(k) && r.slots[k] == b.slots[k] && b.slots[k] == d.SlotRecord(k);
          LoadedFromDisk(d, k);
        }
      }
    }
  }

  /** A slot filled from disk holds the bytes of `.vecs`. */
  lemma LoadedFromDisk(d: Disk, k: nat)
    requires d.Sane() && d.SlotRecord(k).Some?
    ensures k < |d.vecs| && d.SlotRecord(k).value.vec == Some(d.vecs[k])
  {
    if k in d.Base().ids.Values { assert k in d.KnownDense(); }
  }

  lemma ReopenBase(s: State, d: Disk)
    requires s.mem.Valid() && BaseOk(s) && CrashOutcome(s, d) && d.Sane() && d.Recover().Valid()
    requires d.Base() == s.disk.Base() && d.VectorCount() >= s.disk.VectorCount()
    requires forall k: nat :: k in d.Base().deleted || k in d.Base().ids.Values ==> d.Recover().Knows(k)
    ensures BaseOk(Reopened(s, d))
  {
    BuildValid(d);
    ReplayView(d.Replayed(), d.BuildInitial());
    BaseKept(s, Reopened(s, d));
  }

  lemma ReopenFacts(s: State, d: Disk)
    requires Inv(s) && CrashOutcome(s, d)
    ensures d.Sane() && d.Replayed() == s.disk.Replayed() && d.Recover().Valid()
    ensures d.Base() == s.disk.Base() && d.VectorCount() >= s.disk.VectorCount()
    ensures forall i :: 0 <= i < |d.Replayed()| ==> d.Replayed()[i].op.id.User?
    ensures forall id :: Known(s.disk, id) ==> Agree(d.Recover().View(), s.mem.View(), id)
    ensures forall k: nat :: k in d.Base().deleted || k in d.Base().ids.Values ==> d.Recover().Knows(k)
    ensures forall id :: !Touches(Pending(s), id) ==> Agree(s.baseView, d.BaseView(), id)
  {
    assert forall id :: Known(s.disk, id) ==> Agree(d.Recover().View(), s.mem.View(), id) by { CrashExact(s, d); }
    assert d.VectorCount() >= s.disk.VectorCount() by { CrashVectors(s, d); }
    CrashBase(s, d);
    UserLog(s, d);
    assert d.Recover().Valid() by { RecoverView(d); }
    assert forall k: nat :: k in d.Base().deleted || k in d.Base().ids.Values ==> d.Recover().Knows(k) by {
      RecoverView(d);
    }
  }

  /** A crash loses no vector that the manifest counts. */
  lemma CrashVectors(s: State, d: Disk)
    requires s.mem.Valid() && CacheOk(s) && CrashOutcome(s, d)
    ensures d.VectorCount() >= s.disk.VectorCount()
  {
  }

  /** Recovery replays entries of users only. */
  lemma UserLog(s: State, d: Disk)
    requires LogOk(s) && EpochOk(s) && d.Replayed() == s.disk.Replayed()
    ensures forall i :: 0 <= i < |d.Replayed()| ==> d.Replayed()[i].op.id.User?
  {
    ReplayedCases(s);
  }

  /** A reopen gives back what users stored, and keeps the invariant, whatever it resurrects. */
  lemma {:induction false} ReopenInv(s: State, d: Disk)
    requires Inv(s) && CrashOutcome(s, d)
    ensures Inv(Do(s, Reopen(d)))
    ensures Users(Do(s, Reopen(d)).mem.View()) == Users(s.mem.View())
  {
    assert d.Opens() && Users(d.Recover().View()) == Users(s.mem.View()) by { CrashExact(s, d); }
    assert Inv(Reopened(s, d)) by { ReopenedInv(s, d); }
    assert Do(s, Reopen(d)) == Reopened(s, d);
  }

  lemma ReopenedInv(s: State, d: Disk)
    requires Inv(s) && CrashOutcome(s, d)
    ensures Inv(Reopened(s, d))
  {
    var s' := Reopened(s, d);
    assert d.Sane() && d.Replayed() == s.disk.Replayed() && d.Recover().Valid() by { ReopenFacts(s, d); }
    assert LogOk(s') && EpochOk(s') by { ReopenLog(s, d); }
    assert MemOk(s') by { ReopenFacts(s, d); ReopenMem(s, d); }
    assert BaseOk(s') by { ReopenFacts(s, d); ReopenBase(s, d); }
    assert ViewOk(s') by { ReopenFacts(s, d); ReopenView(s, d); }
    assert SettledOk(s') by { ReopenFacts(s, d); ReopenSettled(s, d); }
    assert StrayOk(s') by { ReopenFacts(s, d); ReopenStray(s, d); }
    assert CacheOk(s') by { ReopenCache(s, d); }
  }

  /** Taking the dirty slots does not change what would be published. */
  lemma SameTables(st: Store)
    requires st.Valid()
    ensures st.(dirty := {}).Valid() && SlimTables(st.(dirty := {})) == SlimTables(st)
    ensures ManifestTables(st.(dirty := {})) == ManifestTables(st)
    ensures st.(dirty := {}).View() == st.View()
  {
    var st' := st.(dirty := {});
    assert forall k: nat :: st'.Live(k) <==> st.Live(k);
    assert st'.DenseSlots() == st.DenseSlots();
  }

  // ---------- whole runs ----------

  lemma {:induction false} StepInv(s: State, step: Step)
    requires Inv(s) && Guarded(s, step)
    ensures Inv(Do(s, step))
  {
    match step {
      case Log(op) =>
        if op.Upsert? { UpsertLogs(s, op); } else { DeleteLogs(s, op); }
        AppendInv(s, op, s.mem.Do(op));
      case LogMetadata(id, meta) =>
        MetadataLogs(s, id, meta);
        AppendInv(s, MetadataOp(s.mem, id, meta), s.mem.UpdateMetadata(s.mem.ids[id], meta));
      case Begin(kind) => BeginInv(s, kind);
      case SkipVecs => SkipVecsInv(s);
      case Compact => CompactInv(s);
      case WriteSlot(k) => WriteSlotInv(s, k);
      case Fsync => FsyncInv(s);
      case Publish(now) => PublishInv(s, now);
      case EmptyLog => EmptyLogInv(s);
      case WriteMeta => WriteMetaInv(s);
      case Reopen(d) => ReopenInv(s, d);
    }
  }

  /** A finite run: `trace[i + 1]` is `trace[i]` after `steps[i]`, every step guarded. */
  ghost predicate GuardedRun(trace: seq<State>, steps: seq<Step>) {
    && |trace| == |steps| + 1 && Created(trace[0])
    && forall i :: 0 <= i < |steps| ==> GuardedStep(trace[i], steps[i], trace[i + 1])
  }

  /** A newly created database. */
  ghost predicate Created(s: State) {
    exists dim, now, limits: Limits :: dim > 0 && limits.opens(NO_MANIFEST) && s == Init(dim, now, limits)
  }

  ghost predicate GuardedStep(s: State, step: Step, s': State) {
    Follows(s, step, s') && Guarded(s, step)
  }

  lemma RunExtends(trace: seq<State>, steps: seq<Step>, step: Step, next: State)
    requires GuardedRun(trace, steps) && GuardedStep(trace[|steps|], step, next)
    ensures GuardedRun(trace + [next], steps + [step])
  {
  }

  lemma Shorter(trace: seq<State>, steps: seq<Step>)
    requires GuardedRun(trace, steps) && steps != []
    ensures GuardedRun(trace[..|steps|], steps[..|steps| - 1])
    ensures GuardedStep(trace[|steps| - 1], steps[|steps| - 1], trace[|steps|])
  {
  }

  /** A state that ends a guarded run. */
  ghost predicate Reachable(s: State) {
    exists trace, steps :: GuardedRun(trace, steps) && trace[|steps|] == s
  }

  lemma ReachableCreated(s: State)
    requires Created(s)
    ensures Reachable(s)
  {
    assert GuardedRun([s], []) && [s][0] == s;
  }

  lemma ReachableStep(s: State, step: Step, s': State)
    requires Reachable(s) && GuardedStep(s, step, s')
    ensures Reachable(s')
  {
    var trace, steps :| GuardedRun(trace, steps) && trace[|steps|] == s;
    RunExtends(trace, steps, step, s');
    assert (trace + [s'])[|steps + [step]|] == s';
  }

  /** The entry a step logs. */
  ghost function Logged(s: State, step: Step): seq<Entry>
    requires s.mem.Valid() && Enabled(s, step)
  {
    match step
    case Log(op) => [Entry(s.nextTs, op)]
    case LogMetadata(id, meta) => [Entry(s.nextTs, MetadataOp(s.mem, id, meta))]
    case _ => []
  }

  /** Everything logged since the database was created, across all crashes and reopens. */
  ghost function History(trace: seq<State>, steps: seq<Step>): (es: seq<Entry>)
    requires GuardedRun(trace, steps)
    ensures forall i :: 0 <= i < |es| ==> es[i].op.id.User?
    decreases |steps|
  {
    if steps == [] then []
    else
      var n := |steps| - 1;
      Shorter(trace, steps);
      History(trace[..n + 1], steps[..n]) + Logged(trace[n], steps[n])
  }

  /** The slots with a synthetic record, in the base and in memory: a reopen adds the strays it
      finds to those of the base, a publication makes all of them the base's. */
  ghost function Revived(trace: seq<State>, steps: seq<Step>): (set<nat>, set<nat>)
    requires GuardedRun(trace, steps)
    decreases |steps|
  {
    if steps == [] then ({}, {})
    else
      var n := |steps| - 1;
      Shorter(trace, steps);
      var r := Revived(trace[..n + 1], steps[..n]);
      match steps[n]
      case Publish(_) => (r.1, r.1)
      case Reopen(d) => (r.0, r.0 + d.Phantoms())
      case _ => r
  }

  /** A step changes the map by what it logs; a reopen may add and drop synthetic records only. */
  lemma {:induction false} StepView(s: State, step: Step)
    requires Inv(s) && Guarded(s, step)
    ensures !step.Reopen? ==> Do(s, step).mem.View() == Apply(Logged(s, step), s.mem.View())
    ensures Users(Do(s, step).mem.View()) == Apply(Logged(s, step), Users(s.mem.View()))
  {
    var es := Logged(s, step);
    if step.Reopen? {
      assert Users(Do(s, step).mem.View()) == Users(s.mem.View()) by { ReopenInv(s, step.survived); }
    } else {
      MoveView(s, step);
      UsersApply(es, s.mem.View());
    }
  }

  lemma MoveView(s: State, step: Step)
    requires s.mem.Valid() && Enabled(s, step) && !step.Reopen?
    ensures Do(s, step).mem.View() == Apply(Logged(s, step), s.mem.View())
  {
    match step {
      case Log(op) =>
        DoView(s.mem, op);
        assert [Entry(s.nextTs, op)][..0] == [];
      case LogMetadata(id, meta) =>
        UpdateMetadataView(s.mem, id, meta);
        assert [Entry(s.nextTs, MetadataOp(s.mem, id, meta))][..0] == [];
      case Begin(_) => SameTables(s.mem);
      case SkipVecs => SameTables(s.mem);
      case Compact => CompactedView(s.mem);
      case _ =>
    }
  }

  /** What a step does to the synthetic records of memory and of the base. */
  lemma {:induction false} StepSynthetics(s: State, step: Step)
    requires Inv(s) && Guarded(s, step) && Inv(Do(s, step))
    ensures var m, b := Synthetics(s.mem.ids.Keys), Synthetics(s.disk.Base().ids.Keys);
            && Synthetics(Do(s, step).mem.ids.Keys) == (if step.Reopen? then b + step.survived.Phantoms() else m)
            && Synthetics(Do(s, step).disk.Base().ids.Keys) == (if step.Publish? then m else b)
  {
    if step.Reopen? {
      CrashOpens(s, step.survived);
      ReopenSynthetics(s, step.survived);
    } else {
      MoveSynthetics(s, step);
      MoveBase(s, step);
    }
  }

  lemma MoveSynthetics(s: State, step: Step)
    requires s.mem.Valid() && Guarded(s, step) && !step.Reopen?
    ensures Synthetics(Do(s, step).mem.ids.Keys) == Synthetics(s.mem.ids.Keys)
  {
    match step {
      case Log(op) => LogSynthetics(s.mem, op);
      case Compact =>
        CompactedView(s.mem);
        assert Compacted(s.mem).ids.Keys == s.mem.ids.Keys;
      case _ =>
    }
  }

  lemma MoveBase(s: State, step: Step)
    requires s.mem.Valid() && Guarded(s, step) && !step.Reopen?
    ensures Do(s, step).disk.Base().ids == if step.Publish? then s.mem.ids else s.disk.Base().ids
  {
  }

  lemma LogSynthetics(st: Store, op: Op)
    requires op.id.User?
    ensures Synthetics(st.Do(op).ids.Keys) == Synthetics(st.ids.Keys)
  {
    SyntheticsOf(st.ids.Keys);
    SyntheticsOf(st.Do(op).ids.Keys);
  }

  lemma ReopenSynthetics(s: State, d: Disk)
    requires Inv(s) && CrashOutcome(s, d)
    ensures d.Recover().Valid() && d.Base() == s.disk.Base()
    ensures Synthetics(d.Recover().ids.Keys) == Synthetics(d.Base().ids.Keys) + d.Phantoms()
  {
    assert d.Base() == s.disk.Base() && d.Sane() by { ReopenFacts(s, d); }
    assert forall i :: 0 <= i < |d.Replayed()| ==> d.Replayed()[i].op.id.User? by { ReopenFacts(s, d); }
    RecoveredSynthetics(d);
  }

  lemma RecoveredSynthetics(d: Disk)
    requires d.Sane()
    requires forall i :: 0 <= i < |d.Replayed()| ==> d.Replayed()[i].op.id.User?
    ensures d.Recover().Valid()
    ensures Synthetics(d.Recover().ids.Keys) == Synthetics(d.Base().ids.Keys) + d.Phantoms()
  {
    SyntheticsOf(d.Recover().ids.Keys);
    SyntheticsOf(d.Base().ids.Keys);
    RecoverView(d);
    forall k: nat ensures Synthetic(k) in d.Recover().ids <==> Synthetic(k) in d.Base().ids || k in d.Phantoms() {
      assert !Touches(d.Replayed(), Synthetic(k));
      ApplyUntouched(d.Replayed(), d.Shown(), Synthetic(k));
      assert Synthetic(k) in d.Recover().View() <==> Synthetic(k) in d.Shown();
    }
  }

  /** In every guarded run, whatever crashes it contains, memory holds exactly what users logged,
      and beside it one synthetic record for every stray that reopens have resurrected since. */
  lemma {:induction false} RunHolds(trace: seq<State>, steps: seq<Step>)
    requires GuardedRun(trace, steps)
    ensures Inv(trace[|steps|])
    ensures Users(trace[|steps|].mem.View()) == Apply(History(trace, steps), map[])
    ensures Synthetics(trace[|steps|].mem.ids.Keys) == Revived(trace, steps).1
    ensures Synthetics(trace[|steps|].disk.Base().ids.Keys) == Revived(trace, steps).0
    decreases |steps|
  {
    if steps == [] {
      var dim, now, limits: Limits :| dim > 0 && limits.opens(NO_MANIFEST) && trace[0] == Init(dim, now, limits);
      InitInv(dim, now, limits);
      assert Users(EMPTY.View()) == map[];
    } else {
      var n := |steps| - 1;
      Shorter(trace, steps);
      RunHolds(trace[..n + 1], steps[..n]);
      StepInv(trace[n], steps[n]);
      StepView(trace[n], steps[n]);
      StepSynthetics(trace[n], steps[n]);
      ApplyConcat(History(trace[..n + 1], steps[..n]), Logged(trace[n], steps[n]), map[]);
    }
  }

  lemma {:induction false} ReachableInv(s: State)
    requires Reachable(s)
    ensures Inv(s)
  {
    var trace, steps :| GuardedRun(trace, steps) && trace[|steps|] == s;
    RunHolds(trace, steps);
  }

  /** Durability: a crash anywhere in a guarded run, followed by a reopen, succeeds and gives back exactly what
      users ever logged. Beside it are records for the strays published before and those the crash
      leaves: the recovered map is the history itself if and only if there are none. */
  lemma {:induction false} RunDurable(trace: seq<State>, steps: seq<Step>, d: Disk)
    requires GuardedRun(trace, steps) && CrashOutcome(trace[|steps|], d)
    ensures d.Opens() && Users(d.Recover().View()) == Apply(History(trace, steps), map[])
    ensures Synthetics(d.Recover().View().Keys) == Revived(trace, steps).0 + d.Phantoms()
    ensures d.Shows(Apply(History(trace, steps), map[]))
            <==> Revived(trace, steps).0 == {} && d.Phantoms() == {}
  {
    var s := trace[|steps|];
    RunHolds(trace, steps);
    CrashExact(s, d);
    ReopenSynthetics(s, d);
    assert d.Recover().View().Keys == d.Recover().ids.Keys;
    OnlyUsers(d.Recover().View(), Apply(History(trace, steps), map[]));
  }

  /** A map whose user part is `m` is `m` if it has no synthetic record. */
  lemma OnlyUsers(v: View, m: View)
    requires Users(v) == m
    ensures v == m <==> Synthetics(v.Keys) == {}
  {
    SyntheticsOf(v.Keys);
    if Synthetics(v.Keys) == {} {
      forall id ensures Agree(v, m, id) {
        if id.Synthetic? { assert id == Synthetic(id.slot) && id.slot !in Synthetics(v.Keys); }
      }
      SameView(v, m);
    } else {
      var k :| k in Synthetics(v.Keys);
      assert Synthetic(k) in v && Synthetic(k) !in m;
    }
  }
}
