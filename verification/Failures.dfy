/** Concrete databases in which a record is invented, lost, replayed twice, hidden or forgotten, each
    reached by a guarded run. */
module Failures {
  import opened Records
  import opened Recovery
  import opened Protocol
  import opened Safety
  import opened Atomicity
  import opened DirtySince

  const A := User("a")
  const B := User("b")
  const C := User("c")
  const RECORD_A := Some(Rec(A, Some([7]), Some("{}")))
  const RECORD_B := Some(Rec(B, Some([8]), Some("{}")))
  const RECORD_C := Some(Rec(C, Some([9]), Some("{}")))

  function Put(id: Id, word: int): Step {
    Log(Op.Upsert(id, [word], "{}"))
  }

  function PutEntry(ts: nat, id: Id, word: int): Entry {
    Entry(ts, Op.Upsert(id, [word], "{}"))
  }

  const TABLES_A := Tables(map[A := 0], {}, map[0 := "{}"], {0})
  const TABLES_AB := Tables(map[A := 0, B := 1], {}, map[0 := "{}", 1 := "{}"], {0, 1})
  const VIEW_A := map[A := Value(Some([7]), Some("{}"))]
  const VIEW_AB := map[A := Value(Some([7]), Some("{}")), B := Value(Some([8]), Some("{}"))]

  function StoreA(dirty: set<nat>): Store {
    Store([RECORD_A], {}, map[A := 0], dirty)
  }

  function StoreAB(dirty: set<nat>): Store {
    Store([RECORD_A, RECORD_B], {}, map[A := 0, B := 1], dirty)
  }

  function StoreABC(dirty: set<nat>): Store {
    Store([RECORD_A, RECORD_B, RECORD_C], {}, map[A := 0, B := 1, C := 2], dirty)
  }

  lemma ValidAB(dirty: set<nat>)
    ensures StoreAB(dirty).Valid()
  {
  }

  lemma ValidABC(dirty: set<nat>)
    ensures StoreABC(dirty).Valid()
  {
  }

  function NewDisk(l: Limits, wal: seq<Entry>, vecs: seq<Vec>): Disk {
    Disk(1, wal, 0, vecs, NO_MANIFEST, 0, None, 0, l)
  }

  const MANIFEST_A := Manifest(TABLES_A, true, Some(Cutoff(0, Some(0))))

  function FlushedDisk(l: Limits, wal: seq<Entry>, metaEpoch: nat, vecs: seq<Vec>): Disk {
    Disk(1, wal, metaEpoch, vecs, MANIFEST_A, 1, None, 0, l)
  }

  /** The snapshot an auto-checkpoint publishes under the log's epoch `e`. */
  function SlimAB(e: nat): Slim {
    Slim(TABLES_AB, {1}, e)
  }

  function AutoDisk(l: Limits, wal: seq<Entry>, metaEpoch: nat, e: nat): Disk {
    Disk(1, wal, metaEpoch, [[7], [8]], MANIFEST_A, 1, Some(SlimAB(e)), 2, l)
  }

  /** Readers that accept everything. */
  const OPEN := Limits(_ => true, _ => true, _ => true, _ => true)

  /** Readers that accept the operations and the manifests used below. */
  ghost predicate Takes(l: Limits) {
    && l.opens(NO_MANIFEST) && l.opens(MANIFEST_A)
    && forall id, word :: id == A || id == B || id == C ==> TakesOp(l, Op.Upsert(id, [word], "{}"))
  }

  predicate TakesOp(l: Limits, op: Op) {
    l.parses(op) && l.scans(op)
  }

  // ---------- a flush ----------

  // A new database of dimension 1 stores `a` and flushes for the first time.

  function S0(l: Limits): State {
    Init(1, 0, l)
  }

  function S1(l: Limits): State {
    State(NewDisk(l, [PutEntry(0, A, 7)], []), [], StoreA({0}), 0, 1, {}, Idle, 0, 0, map[])
  }

  function S2(l: Limits): State {
    State(NewDisk(l, [PutEntry(0, A, 7)], []), [[0]], StoreA({}), 0, 1, {}, Writing(Full, {0}), 0, 0, map[])
  }

  function S3(l: Limits): State {
    State(NewDisk(l, [PutEntry(0, A, 7)], []), [[7]], StoreA({}), 0, 1, {}, Writing(Full, {}), 0, 0, map[])
  }

  function S4(l: Limits): State {
    State(NewDisk(l, [PutEntry(0, A, 7)], [[7]]), [[7]], StoreA({}), 0, 1, {}, Synced(Full), 0, 0, map[])
  }

  function S5(l: Limits): State {
    State(FlushedDisk(l, [PutEntry(0, A, 7)], 0, [[7]]), [[7]], StoreA({}), 0, 1, {}, Published, 1, 1, VIEW_A)
  }

  function S6(l: Limits): State {
    State(FlushedDisk(l, [], 0, [[7]]), [[7]], StoreA({}), 0, 1, {}, Emptied, 0, 0, VIEW_A)
  }

  function S7(l: Limits): State {
    State(FlushedDisk(l, [], 1, [[7]]), [[7]], StoreA({}), 1, 1, {}, Idle, 0, 0, VIEW_A)
  }

  lemma Step0(l: Limits)
    requires Takes(l)
    ensures GuardedStep(S0(l), Put(A, 7), S1(l))
  {
  }

  lemma Step1(l: Limits)
    ensures GuardedStep(S1(l), Begin(Full), S2(l))
  {
    assert SlotsBelow(1) == {0} by { assert Below(0, 1); }
    assert Zeros(1) == [0];
    var t := Do(S1(l), Begin(Full));
    assert t.cache == S2(l).cache && t.mem == S2(l).mem;
  }

  lemma Step2(l: Limits)
    ensures GuardedStep(S2(l), WriteSlot(0), S3(l))
  {
    var t := Do(S2(l), WriteSlot(0));
    assert t.cache == S3(l).cache && t.phase.todo == {};
  }

  lemma Step3(l: Limits)
    ensures GuardedStep(S3(l), Fsync, S4(l))
  {
  }

  lemma Step4(l: Limits)
    requires Takes(l)
    ensures GuardedStep(S4(l), Publish(1), S5(l))
  {
    assert ManifestTables(S4(l).mem) == TABLES_A;
    assert S4(l).mem.View() == VIEW_A;
  }

  lemma Step5(l: Limits)
    ensures GuardedStep(S5(l), EmptyLog, S6(l))
  {
  }

  lemma Step6(l: Limits)
    ensures GuardedStep(S6(l), WriteMeta, S7(l))
  {
  }

  lemma Flushed(l: Limits)
    requires Takes(l)
    ensures Reachable(S7(l))
  {
    assert Created(S0(l));
    ReachableCreated(S0(l));
    Step0(l); ReachableStep(S0(l), Put(A, 7), S1(l));
    Step1(l); ReachableStep(S1(l), Begin(Full), S2(l));
    Step2(l); ReachableStep(S2(l), WriteSlot(0), S3(l));
    Step3(l); ReachableStep(S3(l), Fsync, S4(l));
    Step4(l); ReachableStep(S4(l), Publish(1), S5(l));
    Step5(l); ReachableStep(S5(l), EmptyLog, S6(l));
    Step6(l); ReachableStep(S6(l), WriteMeta, S7(l));
  }

  // ---------- an auto-checkpoint ----------

  // A session with the log's epoch `e` and next timestamp `ts` stores `b` and auto-checkpoints.

  function T0(l: Limits, e: nat, ts: nat): State {
    State(FlushedDisk(l, [], 1, [[7]]), [[7]], StoreA({}), e, ts, {}, Idle, 0, 0, VIEW_A)
  }

  function T1(l: Limits, e: nat, ts: nat): State {
    State(FlushedDisk(l, [PutEntry(ts, B, 8)], 1, [[7]]), [[7]], StoreAB({1}), e, ts + 1, {}, Idle, 0, 0, VIEW_A)
  }

  function T2(l: Limits, e: nat, ts: nat): State {
    State(FlushedDisk(l, [PutEntry(ts, B, 8)], 1, [[7]]), [[7], [0]], StoreAB({}), e, ts + 1, {1},
          Writing(Auto, {1}), 0, 0, VIEW_A)
  }

  function T3(l: Limits, e: nat, ts: nat): State {
    State(FlushedDisk(l, [PutEntry(ts, B, 8)], 1, [[7]]), [[7], [8]], StoreAB({}), e, ts + 1, {1},
          Writing(Auto, {}), 0, 0, VIEW_A)
  }

  function T4(l: Limits, e: nat, ts: nat): State {
    State(FlushedDisk(l, [PutEntry(ts, B, 8)], 1, [[7], [8]]), [[7], [8]], StoreAB({}), e, ts + 1, {1},
          Synced(Auto), 0, 0, VIEW_A)
  }

  function T5(l: Limits, e: nat, ts: nat): State {
    State(AutoDisk(l, [PutEntry(ts, B, 8)], 1, e), [[7], [8]], StoreAB({}), e, ts + 1, {1}, Published, 1, 1, VIEW_AB)
  }

  lemma StoreB(l: Limits, e: nat, ts: nat)
    requires Takes(l)
    ensures GuardedStep(T0(l, e, ts), Put(B, 8), T1(l, e, ts))
  {
  }

  lemma BeginAuto(l: Limits, e: nat, ts: nat)
    ensures GuardedStep(T1(l, e, ts), Begin(Auto), T2(l, e, ts))
  {
    assert Zeros(1) == [0];
    var t := Do(T1(l, e, ts), Begin(Auto));
    assert t.cache == T2(l, e, ts).cache && t.mem == T2(l, e, ts).mem && t.accumulated == {1};
  }

  lemma WriteB(l: Limits, e: nat, ts: nat)
    ensures GuardedStep(T2(l, e, ts), WriteSlot(1), T3(l, e, ts))
  {
    assert T2(l, e, ts).mem.Render(1, 1) == [8];
    var t := Do(T2(l, e, ts), WriteSlot(1));
    assert t.cache == T3(l, e, ts).cache && t.phase.todo == {};
  }

  lemma SyncB(l: Limits, e: nat, ts: nat)
    ensures GuardedStep(T3(l, e, ts), Fsync, T4(l, e, ts))
  {
  }

  lemma AutoTables()
    ensures SlimTables(StoreAB({})) == TABLES_AB
  {
    var st := StoreAB({});
    assert st.DenseSlots() == {0, 1} by { assert st.Live(0) && st.Live(1); }
    assert SlimTables(st).meta == TABLES_AB.meta;
  }

  lemma AutoView()
    ensures StoreAB({}).View() == VIEW_AB
  {
    var st := StoreAB({});
    assert st.Live(0) && st.Live(1);
  }

  lemma PublishAB(l: Limits, e: nat, ts: nat)
    ensures Enabled(T4(l, e, ts), Publish(2)) && SlimNow(T4(l, e, ts)) == SlimAB(e)
    ensures T4(l, e, ts).mem.Valid() && Do(T4(l, e, ts), Publish(2)) == T5(l, e, ts)
  {
    ValidAB({});
    AutoTables();
    AutoView();
    assert T4(l, e, ts).accumulated + {} == {1};
  }

  lemma WrittenB(l: Limits, e: nat, ts: nat)
    requires Takes(l) && Reachable(T0(l, e, ts))
    ensures Reachable(T3(l, e, ts)) && Reachable(T4(l, e, ts))
  {
    StoreB(l, e, ts); ReachableStep(T0(l, e, ts), Put(B, 8), T1(l, e, ts));
    BeginAuto(l, e, ts); ReachableStep(T1(l, e, ts), Begin(Auto), T2(l, e, ts));
    WriteB(l, e, ts); ReachableStep(T2(l, e, ts), WriteSlot(1), T3(l, e, ts));
    SyncB(l, e, ts); ReachableStep(T3(l, e, ts), Fsync, T4(l, e, ts));
  }

  lemma PublishedB(l: Limits, e: nat, ts: nat)
    requires Takes(l) && l.readable(SlimAB(e)) && Reachable(T0(l, e, ts))
    ensures Reachable(T5(l, e, ts))
  {
    WrittenB(l, e, ts);
    PublishAB(l, e, ts);
    ReachableStep(T4(l, e, ts), Publish(2), T5(l, e, ts));
  }

  // ---------- replay that repeats ----------

  /** A session opened on an empty log has epoch 0 though the sidecar says 1, and publishes under it:
      after a crash the whole log is replayed although the base holds all of it. */
  lemma {:induction false} RepeatedReplay()
    ensures var s := T5(OPEN, 0, 0);
            && Reachable(s) && s.contained == 1 && Missing(s) == []
            && s.disk.Replayed() == s.disk.wal == [PutEntry(0, B, 8)]
  {
    Flushed(OPEN);
    CleanReopen(OPEN);
    ReachableStep(S7(OPEN), Reopen(S7(OPEN).disk), T0(OPEN, 0, 0));
    PublishedB(OPEN, 0, 0);
    ParsedAll(OPEN.parses, T5(OPEN, 0, 0).disk.wal);
  }

  lemma CleanReopen(l: Limits)
    requires Takes(l)
    ensures GuardedStep(S7(l), Reopen(S7(l).disk), T0(l, 0, 0))
  {
    var d := S7(l).disk;
    FlushedRecovers(l);
    assert Replay([], d.BuildInitial()) == d.BuildInitial();
    ReopensAs(S7(l), d, T0(l, 0, 0));
  }

  lemma FlushedRecovers(l: Limits)
    ensures var d := S7(l).disk; d.Replayed() == [] && d.BuildInitial() == StoreA({})
  {
    var d := S7(l).disk;
    assert d.Base().ids.Values == {0} by { assert d.Base().ids[A] == 0; }
    assert d.SlotRecord(0) == RECORD_A;
    assert d.BuildInitial().slots == [RECORD_A];
    assert Rebuild([RECORD_A], {}, 0) == map[];
  }

  // ---------- a second record ----------

  const LOG_C := [PutEntry(2, C, 9)]

  // The session goes on: it stores `c`, and its next auto-checkpoint has written one slot.

  function T6(l: Limits): State {
    State(AutoDisk(l, [], 1, 1), [[7], [8]], StoreAB({}), 1, 2, {1}, Emptied, 0, 0, VIEW_AB)
  }

  function T7(l: Limits): State {
    State(AutoDisk(l, [], 2, 1), [[7], [8]], StoreAB({}), 2, 2, {1}, Idle, 0, 0, VIEW_AB)
  }

  function T8(l: Limits): State {
    State(AutoDisk(l, LOG_C, 2, 1), [[7], [8]], StoreABC({2}), 2, 3, {1}, Idle, 0, 0, VIEW_AB)
  }

  function T9(l: Limits): State {
    State(AutoDisk(l, LOG_C, 2, 1), [[7], [8], [0]], StoreABC({}), 2, 3, {1, 2}, Writing(Auto, {2}), 0, 0, VIEW_AB)
  }

  function T10(l: Limits): State {
    State(AutoDisk(l, LOG_C, 2, 1), [[7], [8], [9]], StoreABC({}), 2, 3, {1, 2}, Writing(Auto, {}), 0, 0, VIEW_AB)
  }

  lemma TruncateAB(l: Limits)
    ensures GuardedStep(T5(l, 1, 1), EmptyLog, T6(l))
  {
    ValidAB({});
  }

  lemma AdvanceAB(l: Limits)
    ensures GuardedStep(T6(l), WriteMeta, T7(l))
  {
    ValidAB({});
  }

  lemma StoreC(l: Limits)
    requires l.readable(SlimAB(1)) && Takes(l)
    ensures GuardedStep(T7(l), Put(C, 9), T8(l))
  {
    ValidAB({});
  }

  lemma BeginAgain(l: Limits)
    ensures GuardedStep(T8(l), Begin(Auto), T9(l))
  {
    assert Zeros(1) == [0];
    ValidABC({2});
    ValidABC({});
    var t := Do(T8(l), Begin(Auto));
    assert t.cache == T9(l).cache && t.mem == T9(l).mem && t.accumulated == {1, 2};
  }

  lemma WriteC(l: Limits)
    ensures GuardedStep(T9(l), WriteSlot(2), T10(l))
  {
    ValidABC({});
    assert T9(l).mem.Render(2, 1) == [9];
    var t := Do(T9(l), WriteSlot(2));
    assert t.cache == T10(l).cache && t.phase.todo == {};
  }

  lemma TruncatedAB()
    ensures Reachable(T7(OPEN)) && T7(OPEN).mem.Valid()
  {
    Flushed(OPEN);
    PublishedB(OPEN, 1, 1);
    TruncateAB(OPEN); ReachableStep(T5(OPEN, 1, 1), EmptyLog, T6(OPEN));
    AdvanceAB(OPEN); ReachableStep(T6(OPEN), WriteMeta, T7(OPEN));
    ValidAB({});
  }

  lemma WritingC()
    ensures Reachable(T10(OPEN))
  {
    TruncatedAB();
    StoreC(OPEN); ReachableStep(T7(OPEN), Put(C, 9), T8(OPEN));
    BeginAgain(OPEN); ReachableStep(T8(OPEN), Begin(Auto), T9(OPEN));
    WriteC(OPEN); ReachableStep(T9(OPEN), WriteSlot(2), T10(OPEN));
  }

  /** The second auto-checkpoint is not crash-atomic: a crash that keeps the vector it has just
      written reopens with a record nobody wrote, beside the one that was. */
  lemma {:induction false} PhantomRecord()
    ensures var s := T10(OPEN);
            var d := s.disk.(vecs := s.cache);
            && Reachable(s) && CrashOutcome(s, d)
            && Synthetic(2) in d.Recover().View() && Synthetic(2) !in s.mem.View()
            && C in d.Recover().View() && C in s.mem.View()
  {
    WritingC();
    var s := T10(OPEN);
    ReachableInv(s);
    VectorKept(s.disk.(vecs := s.cache));
    Resurrects(s, s.disk.(vecs := s.cache), 2);
    assert s.mem.Live(2) && C in s.mem.View();
    CrashExact(s, s.disk.(vecs := s.cache));
    assert Known(s.disk, C);
  }

  lemma VectorKept(d: Disk)
    requires d == T10(OPEN).disk.(vecs := T10(OPEN).cache)
    ensures CrashOutcome(T10(OPEN), d) && 2 in d.Phantoms() && Synthetic(2) !in T10(OPEN).mem.ids
  {
    assert [9][0] != 0;
    assert !IsZero(d.vecs[2]);
  }

  lemma Resurrects(s: State, d: Disk, k: nat)
    requires Inv(s) && CrashOutcome(s, d) && k in d.Phantoms() && Synthetic(k) !in s.mem.ids
    ensures Synthetic(k) in d.Recover().View() && Synthetic(k) !in s.mem.View()
  {
    assert !Known(s.disk, Synthetic(k)) by {
      if Known(s.disk, Synthetic(k)) { KnownSlot(s, d, k); }
    }
    CrashShows(s, d, Synthetic(k));
  }

  // ---------- a forgotten slot ----------

  /** A clean reopen after the auto-checkpoint: no manifest has slot 1, and the next snapshot would
      not list it as dirty. */
  lemma {:induction false} ForgottenSlot()
    ensures var t := Reopened(T7(OPEN), T7(OPEN).disk);
            && Reachable(t) && B in t.mem.ids && t.mem.ids[B] == 1
            && 1 !in t.disk.omen.tables.ids.Values && 1 !in SlimNow(t).dirty
  {
    var s := T7(OPEN);
    TruncatedAB();
    assert s.disk.Sane() by { ReachableInv(s); }
    assert Reachable(Reopened(s, s.disk)) by { ReopensClean(s); }
    SecondSlot(s.disk);
    NotAccumulated(s, s.disk);
  }

  lemma NotAccumulated(s: State, d: Disk)
    ensures SlimNow(Reopened(s, d)).dirty == d.Recover().dirty
  {
  }

  lemma ReopensClean(s: State)
    requires Reachable(s) && s.phase.Idle? && s.cache == s.disk.vecs && s.mem.Valid() && s.disk.Opens()
    requires forall k :: 0 <= k < |s.cache| ==> |s.cache[k]| == s.disk.dim
    ensures Reachable(Reopened(s, s.disk))
  {
    assert CrashOutcome(s, s.disk);
    ReachableStep(s, Reopen(s.disk), Reopened(s, s.disk));
  }

  lemma SecondSlot(d: Disk)
    requires d == T7(OPEN).disk && d.Sane()
    ensures var r := d.Recover();
            B in r.ids && r.ids[B] == 1 && 1 !in r.dirty && 1 !in d.omen.tables.ids.Values
  {
    assert d.Base().ids[B] == 1 && !Touches(d.Replayed(), B);
    RecoversSecond(d);
  }

  lemma RecoversSecond(d: Disk)
    requires d.Sane() && B in d.Base().ids && d.Base().ids[B] == 1 && d.Replayed() == []
    ensures var r := d.Recover(); B in r.ids && r.ids[B] == 1 && 1 !in r.dirty
  {
    RecoverView(d);
    RecoveredSlots(d);
  }

  // ---------- a lost record ----------

  /** In `t`, the reopen after a crash in `s`, `c` is stored: memory has it in `u`, recovery does not. */
  ghost predicate Loses(s: State, t: State, u: State) {
    && CrashOutcome(s, s.disk) && Follows(s, Reopen(s.disk), t) && Follows(t, Put(C, 9), u)
    && C in u.mem.View() && CrashOutcome(u, u.disk) && u.disk.Opens() && C !in u.disk.Recover().View()
  }

  /** A crash after the rename of the first auto-checkpoint and before its log is emptied: the
      reopen is exact, but what the next session stores is logged, synced and lost. */
  lemma {:induction false} LostRecord()
    ensures Reachable(T5(OPEN, 1, 1))
    ensures exists t, u :: Reachable(t) && t.mem.View() == T5(OPEN, 1, 1).mem.View() && Loses(T5(OPEN, 1, 1), t, u)
  {
    var s := T5(OPEN, 1, 1);
    Flushed(OPEN);
    PublishedB(OPEN, 1, 1);
    ReachableInv(s);
    NoPhantomsYet();
    StaleLoses(s);
  }

  lemma StaleLoses(s: State)
    requires Reachable(s) && Inv(s) && s.phase.Published? && s.disk.SlimLoaded() && s.walEpoch == s.disk.metaEpoch
    requires s.disk.Strays() == {} && s.disk.dim == 1 && C !in s.mem.View() && Takes(s.disk.limits)
    ensures exists t, u :: Reachable(t) && t.mem.View() == s.mem.View() && Loses(s, t, u)
  {
    var t := Reopened(s, s.disk);
    assert CrashOutcome(s, s.disk);
    StaleReopen(s, t);
    ReachableStep(s, Reopen(s.disk), t);
    LosesPut(t);
    assert Loses(s, t, Do(t, Put(C, 9)));
  }

  lemma StaleReopen(s: State, t: State)
    requires Inv(s) && s.phase.Published? && s.disk.SlimLoaded() && s.walEpoch == s.disk.metaEpoch
    requires s.disk.Strays() == {} && CrashOutcome(s, s.disk) && t == Reopened(s, s.disk)
    ensures GuardedStep(s, Reopen(s.disk), t) && Inv(t) && t.mem.View() == s.mem.View()
    ensures t.phase.Idle? && t.disk == s.disk && !SafeToAppend(t)
  {
    CrashOpens(s, s.disk);
    assert Follows(s, Reopen(s.disk), t);
    assert Inv(t) by { ReopenInv(s, s.disk); }
    assert t.mem.View() == s.mem.View() by { StaleView(s); }
  }

  lemma StaleView(s: State)
    requires Inv(s) && s.phase.Published? && s.disk.Strays() == {} && CrashOutcome(s, s.disk)
    ensures s.disk.Recover().View() == s.mem.View()
  {
    CrashExact(s, s.disk);
    NoGhosts(s);
  }

  lemma LosesPut(s: State)
    requires Inv(s) && s.phase.Idle? && s.disk.dim == 1 && !SafeToAppend(s) && C !in s.mem.View()
    requires Takes(s.disk.limits)
    ensures var u := Do(s, Put(C, 9));
            C in u.mem.View() && CrashOutcome(u, u.disk) && u.disk.Opens() && C !in u.disk.Recover().View()
  {
    var op := Op.Upsert(C, [9], "{}");
    var s' := Do(s, Put(C, 9));
    DoView(s.mem, op);
    assert TakesOp(s.disk.limits, op);
    assert CrashOutcome(s', s'.disk);
    UnsafeAppendLost(s, op, s.mem.Do(op), s'.disk);
    assert C !in Users(s.mem.View());
    assert C !in Users(s'.disk.Recover().View());
  }

  lemma NoPhantomsYet()
    ensures T5(OPEN, 1, 1).disk.Strays() == {} && C !in T5(OPEN, 1, 1).mem.View()
  {
    var d := T5(OPEN, 1, 1).disk;
    assert d.Base().ids.Values == {0, 1} by { assert d.Base().ids[A] == 0 && d.Base().ids[B] == 1; }
  }

  // ---------- a hidden stray ----------

  // The first auto-checkpoint crashes with its vector written. The reopen filters it out and
  // replays `b` into the next slot, and the session auto-checkpoints again.

  const TABLES_GAP := Tables(map[A := 0, B := 2], {}, map[0 := "{}", 2 := "{}"], {0, 2})

  function StoreGap(dirty: set<nat>): Store {
    Store([RECORD_A, None, RECORD_B], {}, map[A := 0, B := 2], dirty)
  }

  lemma ValidGap(dirty: set<nat>)
    ensures StoreGap(dirty).Valid()
  {
  }

  function LeftDisk(vecs: seq<Vec>): Disk {
    FlushedDisk(OPEN, [PutEntry(1, B, 8)], 1, vecs)
  }

  const H0 := State(LeftDisk([[7], [8]]), [[7], [8]], StoreGap({2}), 1, 2, {}, Idle, 0, 0, VIEW_A)
  const H1 := State(LeftDisk([[7], [8]]), [[7], [8], [0]], StoreGap({}), 1, 2, {2}, Writing(Auto, {2}), 0, 0, VIEW_A)
  const H2 := State(LeftDisk([[7], [8]]), [[7], [8], [8]], StoreGap({}), 1, 2, {2}, Writing(Auto, {}), 0, 0, VIEW_A)
  const H3 := State(LeftDisk([[7], [8], [8]]), [[7], [8], [8]], StoreGap({}), 1, 2, {2}, Synced(Auto), 0, 0, VIEW_A)
  const H4 := State(Disk(1, [PutEntry(1, B, 8)], 1, [[7], [8], [8]], MANIFEST_A, 1,
                         Some(Slim(TABLES_GAP, {2}, 1)), 2, OPEN),
                    [[7], [8], [8]], StoreGap({}), 1, 2, {2}, Published, 1, 1, VIEW_AB)

  lemma HidingReopen()
    ensures GuardedStep(T3(OPEN, 1, 1), Reopen(LeftDisk([[7], [8]])), H0)
  {
    LeftRecovers();
    LeftByCrash();
    ReopensAs(T3(OPEN, 1, 1), LeftDisk([[7], [8]]), H0);
  }

  lemma LeftByCrash()
    ensures T3(OPEN, 1, 1).mem.Valid() && CrashOutcome(T3(OPEN, 1, 1), LeftDisk([[7], [8]]))
  {
    var s, d := T3(OPEN, 1, 1), LeftDisk([[7], [8]]);
    assert d.vecs[0] == s.cache[0] && d.vecs[1] == s.cache[1];
  }

  /** A reopen that replays its whole log. */
  lemma ReopensAs(s: State, d: Disk, s': State)
    requires s.mem.Valid() && CrashOutcome(s, d) && d.Opens() && s'.mem == d.Recover() && |d.Replayed()| == |d.wal|
    requires s' == s.(phase := Idle, disk := d, cache := d.vecs, mem := s'.mem, walEpoch := d.OpenEpoch(),
                      nextTs := d.OpenTimestamp(), accumulated := {}, skipped := 0)
    ensures GuardedStep(s, Reopen(d), s')
  {
  }

  lemma LeftRecovers()
    ensures var d := LeftDisk([[7], [8]]);
            d.FilterOn() && d.Replayed() == [PutEntry(1, B, 8)] && d.Recover() == StoreGap({2})
  {
    var d := LeftDisk([[7], [8]]);
    ParsedAll(OPEN.parses, d.wal);
    LeftBuilt();
    var es, b := [PutEntry(1, B, 8)], d.BuildInitial();
    assert es[..0] == [];
    assert Replay(es, b) == b.Do(Op.Upsert(B, [8], "{}"));
    ReplaysB();
  }

  lemma ReplaysB()
    ensures Store([RECORD_A, None], {}, map[A := 0], {}).Upsert(B, [8], "{}") == StoreGap({2})
  {
    assert [RECORD_A, None] + [RECORD_B] == [RECORD_A, None, RECORD_B];
  }

  lemma LeftBuilt()
    ensures LeftDisk([[7], [8]]).BuildInitial() == Store([RECORD_A, None], {}, map[A := 0], {})
  {
    var d := LeftDisk([[7], [8]]);
    assert d.Base().ids.Values == {0} by { assert d.Base().ids[A] == 0; }
    assert d.SlotRecord(0) == RECORD_A && d.SlotRecord(1) == None;
    assert d.BuildInitial().slots == [RECORD_A, None];
    assert Rebuild([RECORD_A, None], {}, 1) == map[A := 0] by { assert Rebuild([RECORD_A, None], {}, 0) == map[]; }
  }

  lemma GapTables()
    ensures SlimTables(StoreGap({})) == TABLES_GAP
  {
    var st := StoreGap({});
    assert st.DenseSlots() == {0, 2} by { assert st.Live(0) && st.Live(2) && !st.Live(1); }
    assert SlimTables(st).meta == TABLES_GAP.meta;
  }

  lemma GapView(dirty: set<nat>)
    ensures StoreGap(dirty).View() == VIEW_AB
  {
    var st := StoreGap(dirty);
    assert st.Live(0) && st.Live(2);
  }

  lemma BeginHidden()
    ensures GuardedStep(H0, Begin(Auto), H1)
  {
    assert Zeros(1) == [0];
    var t := Do(H0, Begin(Auto));
    assert t.cache == H1.cache && t.mem == H1.mem && t.accumulated == {2};
  }

  lemma WriteHidden()
    ensures GuardedStep(H1, WriteSlot(2), H2)
  {
    assert H1.mem.Render(2, 1) == [8];
    var t := Do(H1, WriteSlot(2));
    assert t.cache == H2.cache && t.phase.todo == {};
  }

  lemma SyncHidden()
    ensures GuardedStep(H2, Fsync, H3)
  {
  }

  lemma HiddenSlim()
    ensures SlimNow(H3) == Slim(TABLES_GAP, {2}, 1)
  {
    GapTables();
    assert H3.accumulated + {} == {2};
  }

  lemma PublishHidden()
    ensures GuardedStep(H3, Publish(2), H4)
  {
    ValidGap({});
    GapView({});
    HiddenSlim();
  }

  /** The reopen shows no stray, but the vector stays in `.vecs`: once a `.records` snapshot is
      published a crash brings it back as a record. */
  lemma {:induction false} HiddenStray()
    ensures Reachable(T3(OPEN, 1, 1)) && Follows(T3(OPEN, 1, 1), Reopen(H0.disk), H0)
    ensures H0.mem.View() == T3(OPEN, 1, 1).mem.View()
    ensures Reachable(H4) && H4.phase.Published? && CrashOutcome(H4, H4.disk)
    ensures Synthetic(1) in H4.disk.Recover().View() && Synthetic(1) !in H4.mem.View()
  {
    HiddenReached();
    assert H0.mem.View() == T3(OPEN, 1, 1).mem.View() by { AutoView(); GapView({2}); }
    HiddenPublished();
    ReachableInv(H4);
    StrayShows(H4.disk);
    Resurrects(H4, H4.disk, 1);
  }

  lemma HiddenReached()
    ensures Reachable(T3(OPEN, 1, 1)) && Follows(T3(OPEN, 1, 1), Reopen(H0.disk), H0) && Reachable(H0)
  {
    Flushed(OPEN);
    WrittenB(OPEN, 1, 1);
    HidingReopen();
    ReachableStep(T3(OPEN, 1, 1), Reopen(H0.disk), H0);
  }

  lemma HiddenPublished()
    requires Reachable(H0)
    ensures Reachable(H4) && CrashOutcome(H4, H4.disk)
  {
    assert Reachable(H1) by { BeginHidden(); ReachableStep(H0, Begin(Auto), H1); }
    assert Reachable(H2) by { WriteHidden(); ReachableStep(H1, WriteSlot(2), H2); }
    assert Reachable(H3) by { SyncHidden(); ReachableStep(H2, Fsync, H3); }
    assert Reachable(H4) by { PublishHidden(); ReachableStep(H3, Publish(2), H4); }
  }

  lemma StrayShows(d: Disk)
    requires d == H4.disk
    ensures 1 in d.Phantoms() && Synthetic(1) !in H4.mem.ids
  {
    assert [8][0] != 0;
    assert !IsZero(d.vecs[1]);
  }
}
