/** Concrete databases that meet the limits of the readers, or that a compacting flush disturbs: every
    call succeeds, and what was stored is lost or found under another id. */
module LimitFailures {
  import opened Bytes
  import opened Records
  import opened Recovery
  import opened Compaction
  import opened Protocol
  import opened Restoration
  import opened Safety
  import opened Atomicity
  import opened CompactingFlush
  import opened LoaderLimits
  import opened ManifestLimits
  import opened Failures
  import Orec
  import Container

  // ---------- an id over the loader's limit ----------

  // The session that has stored `b` stores a record under an id of 65,537 characters. The log takes
  // it, and the auto-checkpoint that follows publishes a snapshot the loader refuses.

  const LONG := User(Repeated('x', 65537))
  const LOG_LONG := [PutEntry(1, B, 8), PutEntry(2, LONG, 9)]

  function Repeated(ch: char, n: nat): string {
    seq(n, _ => ch)
  }

  function StoreLong(dirty: set<nat>): Store {
    Store([RECORD_A, RECORD_B, Some(Rec(LONG, Some([9]), Some("{}")))], {}, map[A := 0, B := 1, LONG := 2], dirty)
  }

  lemma LongIsOther()
    ensures LONG != A && LONG != B && |LONG.name| == 65537
  {
  }

  lemma ValidLong(dirty: set<nat>)
    ensures StoreLong(dirty).Valid()
  {
    LongIsOther();
  }

  function U2(l: Limits): State {
    State(FlushedDisk(l, LOG_LONG, 1, [[7]]), [[7]], StoreLong({1, 2}), 1, 3, {}, Idle, 0, 0, VIEW_A)
  }

  function U3(l: Limits): State {
    State(FlushedDisk(l, LOG_LONG, 1, [[7]]), [[7], [0], [0]],
          StoreLong({}), 1, 3, {1, 2}, Writing(Auto, {1, 2}), 0, 0, VIEW_A)
  }

  function U4(l: Limits): State {
    State(FlushedDisk(l, LOG_LONG, 1, [[7]]), [[7], [8], [0]],
          StoreLong({}), 1, 3, {1, 2}, Writing(Auto, {2}), 0, 0, VIEW_A)
  }

  function U5(l: Limits): State {
    State(FlushedDisk(l, LOG_LONG, 1, [[7]]), [[7], [8], [9]],
          StoreLong({}), 1, 3, {1, 2}, Writing(Auto, {}), 0, 0, VIEW_A)
  }

  function U6(l: Limits): State {
    State(FlushedDisk(l, LOG_LONG, 1, [[7], [8], [9]]), [[7], [8], [9]],
          StoreLong({}), 1, 3, {1, 2}, Synced(Auto), 0, 0, VIEW_A)
  }

  lemma StoresLong(l: Limits)
    ensures Follows(T1(l, 1, 1), Put(LONG, 9), U2(l))
  {
    ValidAB({1});
    LongIsOther();
    assert T1(l, 1, 1).disk.wal + [PutEntry(2, LONG, 9)] == LOG_LONG;
    assert T1(l, 1, 1).mem.Do(Op.Upsert(LONG, [9], "{}")) == StoreLong({1, 2});
  }

  lemma BeginsLong(l: Limits)
    ensures Follows(U2(l), Begin(Auto), U3(l))
  {
    ValidLong({1, 2});
    assert Zeros(1) == [0];
    var t := Do(U2(l), Begin(Auto));
    assert t.cache == U3(l).cache && t.mem == U3(l).mem && t.accumulated == {1, 2};
  }

  lemma WritesLong(l: Limits)
    ensures Follows(U3(l), WriteSlot(1), U4(l)) && Follows(U4(l), WriteSlot(2), U5(l)) && Follows(U5(l), Fsync, U6(l))
  {
    ValidLong({});
    assert StoreLong({}).Render(1, 1) == [8] && StoreLong({}).Render(2, 1) == [9];
    assert Do(U3(l), WriteSlot(1)).cache == U4(l).cache && {1, 2} - {1} == {2};
    assert Do(U4(l), WriteSlot(2)).cache == U5(l).cache && {2} - {2} == {};
  }

  /** Before the rename the store and the base are in order. */
  lemma LongSound(l: Limits)
    requires Inv(T1(l, 1, 1))
    ensures Sound(U6(l)) && BaseOk(U6(l))
  {
    LongBegun(l);
    WritesLong(l);
    WritesSound(U3(l), WriteSlot(1), U4(l));
    WritesSound(U4(l), WriteSlot(2), U5(l));
    WritesSound(U5(l), Fsync, U6(l));
  }

  lemma WritesSound(s: State, step: Step, s': State)
    requires Sound(s) && Follows(s, step, s')
    requires step.WriteSlot? || step.Fsync? || (step.Begin? && step.kind != Auto)
    ensures Sound(s')
  {
    SoundStep(s, step);
  }

  lemma LongBegun(l: Limits)
    requires Inv(T1(l, 1, 1))
    ensures Sound(U3(l))
  {
    StoresLong(l);
    BeginsLong(l);
    var op := Op.Upsert(LONG, [9], "{}");
    assert Sound(U2(l)) by { SoundStep(T1(l, 1, 1), Put(LONG, 9)); }
    assert BaseOk(U2(l)) by {
      UpsertLogs(T1(l, 1, 1), op);
      ValidLong({1, 2});
      AppendBase(T1(l, 1, 1), op, T1(l, 1, 1).mem.Do(op));
    }
    SoundStep(U2(l), Begin(Auto));
  }

  /** `t` comes after `s` in the same session. */
  ghost predicate Led(s: State, t: State) {
    exists trace, steps :: Run(trace, steps) && Uninterrupted(steps) && trace[0] == s && trace[|steps|] == t
  }

  predicate Uninterrupted(steps: seq<Step>) {
    forall i :: 0 <= i < |steps| ==> !steps[i].Reopen?
  }

  lemma LedFrom(s: State)
    ensures Led(s, s)
  {
    assert Run([s], []) && Uninterrupted([]) && [s][0] == s;
  }

  lemma LedStep(s: State, t: State, step: Step, u: State)
    requires Led(s, t) && Follows(t, step, u) && !step.Reopen?
    ensures Led(s, u)
  {
    var trace, steps :| Run(trace, steps) && Uninterrupted(steps) && trace[0] == s && trace[|steps|] == t;
    RunGrows(trace, steps, step, u);
    assert Uninterrupted(steps + [step]) && (trace + [u])[|steps + [step]|] == u;
  }

  lemma LongSession(l: Limits) returns (t: State)
    ensures Follows(T1(l, 1, 1), Put(LONG, 9), U2(l)) && Led(U2(l), t) && t.phase.Idle?
    ensures StoreLong({}).Valid() && Enabled(U6(l), Publish(2)) && Truncated(U6(l), 2, t)
  {
    ValidLong({});
    StoresLong(l);
    LongWritten(l);
    t := Completes(U2(l), U6(l), 2);
  }

  lemma LongWritten(l: Limits)
    ensures Led(U2(l), U6(l))
  {
    LedFrom(U2(l));
    BeginsLong(l);
    LedStep(U2(l), U2(l), Begin(Auto), U3(l));
    WritesLong(l);
    LedStep(U2(l), U3(l), WriteSlot(1), U4(l));
    LedStep(U2(l), U4(l), WriteSlot(2), U5(l));
    LedStep(U2(l), U5(l), Fsync, U6(l));
  }

  /** The rest of a checkpoint, from the rename on. */
  lemma Completes(r: State, s: State, now: nat) returns (t: State)
    requires s.mem.Valid() && Enabled(s, Publish(now)) && Led(r, s)
    ensures Led(r, t) && Truncated(s, now, t) && t.phase.Idle?
  {
    var p := Do(s, Publish(now));
    var e := Do(p, EmptyLog);
    t := Do(e, WriteMeta);
    LedStep(r, s, Publish(now), p);
    LedStep(r, p, EmptyLog, e);
    LedStep(r, e, WriteMeta, t);
  }

  /** The files open, and a record of the store in memory is not in them. */
  ghost predicate Misses(t: State, id: Id) {
    && t.phase.Idle? && CrashOutcome(t, t.disk) && t.disk.Opens()
    && id in t.mem.View() && id !in t.disk.Recover().View()
  }

  /** One id over the limit, for the readers of the code and every encoding of at least a byte a
      character: no call fails, no crash happens, and once the session is over a reopen has neither it
      nor `b`, which was logged and checkpointed like any other record. */
  lemma {:induction false} LongIdLost(c: Orec.Codec, l: Limits)
    requires c.Lawful() && (forall t :: |c.text(t)| >= |t|) && SameLimits(c, l) && Takes(l)
    ensures Reachable(T1(l, 1, 1)) && Follows(T1(l, 1, 1), Put(LONG, 9), U2(l))
    ensures exists t :: Led(U2(l), t) && Misses(t, B) && Misses(t, LONG)
  {
    LongReached(l);
    var t := LongSession(l);
    assert Sound(U6(l)) && BaseOk(U6(l)) by { ReachableInv(T1(l, 1, 1)); LongSound(l); }
    LongLoses(c, l, t);
  }

  lemma LongLoses(c: Orec.Codec, l: Limits, t: State)
    requires c.Lawful() && (forall t :: |c.text(t)| >= |t|) && SameLimits(c, l)
    requires Sound(U6(l)) && BaseOk(U6(l)) && Enabled(U6(l), Publish(2)) && Truncated(U6(l), 2, t) && t.phase.Idle?
    ensures Misses(t, B) && Misses(t, LONG)
  {
    assert LONG in U6(l).mem.ids && B in U6(l).mem.ids && LONG !in MANIFEST_A.tables.ids by { LongIsOther(); }
    assert Misses(t, B) by { LongMisses(c, U6(l), 2, t, LONG, B); }
    assert Misses(t, LONG) by { LongMisses(c, U6(l), 2, t, LONG, LONG); }
  }

  lemma LongReached(l: Limits)
    requires Takes(l)
    ensures Reachable(T1(l, 1, 1))
  {
    Flushed(l);
    StoreB(l, 1, 1);
    ReachableStep(T0(l, 1, 1), Put(B, 8), T1(l, 1, 1));
  }

  lemma LongMisses(c: Orec.Codec, s: State, now: nat, t: State, long: Id, id: Id)
    requires c.Lawful() && SameLimits(c, s.disk.limits) && |c.text(Name(long))| > Orec.MAX_ID_LEN
    requires Sound(s) && BaseOk(s) && Enabled(s, Publish(now)) && s.phase.kind == Auto
    requires Truncated(s, now, t) && t.phase.Idle?
    requires long in s.mem.ids && id in s.mem.ids && id.User? && id !in s.disk.omen.tables.ids
    ensures Misses(t, id)
  {
    assert CrashOutcome(t, t.disk) by {
      SyncedCache(s);
      TruncatedFiles(s, now, t);
      CleanCrash(t);
    }
    LongIdLoses(c, s, now, t, t.disk, long, id);
  }

  lemma SyncedCache(s: State)
    requires s.mem.Valid() && CacheOk(s) && s.phase.Synced?
    ensures s.cache == s.disk.vecs && forall k :: 0 <= k < |s.cache| ==> |s.cache[k]| == s.disk.dim
  {
  }

  lemma TruncatedFiles(s: State, now: nat, t: State)
    requires s.mem.Valid() && Enabled(s, Publish(now)) && Truncated(s, now, t)
    ensures t.cache == s.cache && t.disk.vecs == s.disk.vecs && t.disk.dim == s.disk.dim
  {
  }

  lemma CleanCrash(t: State)
    requires t.phase.Idle? && t.cache == t.disk.vecs && forall k :: 0 <= k < |t.cache| ==> |t.cache[k]| == t.disk.dim
    ensures CrashOutcome(t, t.disk)
  {
  }

  // ---------- a manifest of 4 GiB ----------

  // A new database stores `n` records, each with the metadata `meta`, and flushes for the first time.

  function Key(k: nat): Id {
    User(Decimal(k))
  }

  ghost function Many(l: Limits, meta: Json, n: nat): (s: State)
    ensures s.mem.Valid() && s.phase.Idle? && s.mem.deleted == {}
    ensures s == State(NewDisk(l, s.disk.wal, []), [], s.mem, 0, n, {}, Idle, 0, 0, map[])
    ensures |s.mem.slots| == |s.disk.wal| == n
    ensures forall k: nat :: k < n ==> s.mem.slots[k] == Some(Rec(Key(k), Some([1]), Some(meta)))
  {
    if n == 0 then Init(1, 0, l)
    else
      var s := Many(l, meta, n - 1);
      var op := Op.Upsert(Key(n - 1), [1], meta);
      NewKey(s.mem, n - 1);
      UpsertView(s.mem, Key(n - 1), [1], meta);
      Append(s, op, s.mem.Do(op))
  }

  lemma NewKey(st: Store, n: nat)
    requires st.Valid() && |st.slots| == n
    requires forall k: nat :: k < n ==> st.slots[k].Some? && st.slots[k].value.id == Key(k)
    ensures Key(n) !in st.ids
  {
    if Key(n) in st.ids { SameDecimal(st.ids[Key(n)], n); }
  }

  lemma {:induction false} SameDecimal(m: nat, n: nat)
    requires Decimal(m) == Decimal(n)
    ensures m == n
    decreases m
  {
    var d, e := Decimal(m), Decimal(n);
    assert d[|d| - 1] == DIGITS[m % 10] && e[|e| - 1] == DIGITS[n % 10];
    SameDigit(m % 10, n % 10);
    if m >= 10 && n >= 10 {
      assert d[..|d| - 1] == Decimal(m / 10) && e[..|e| - 1] == Decimal(n / 10);
      SameDecimal(m / 10, n / 10);
    }
  }

  lemma SameDigit(a: nat, b: nat)
    requires a < 10 && b < 10 && DIGITS[a] == DIGITS[b]
    ensures a == b
  {
  }

  /** What the flush publishes. */
  ghost function ManyManifest(l: Limits, meta: Json, n: nat): Manifest {
    ManifestOf(Many(l, meta, n).mem, 1, false, CutoffOf(0, Many(l, meta, n).disk.wal, n))
  }

  lemma {:induction false} ManyReached(l: Limits, meta: Json, n: nat)
    requires l.opens(NO_MANIFEST) && forall k: nat :: k < n ==> TakesOp(l, Op.Upsert(Key(k), [1], meta))
    ensures Reachable(Many(l, meta, n))
  {
    if n == 0 {
      assert Created(Init(1, 0, l));
      ReachableCreated(Init(1, 0, l));
    } else {
      ManyReached(l, meta, n - 1);
      var op := Op.Upsert(Key(n - 1), [1], meta);
      assert TakesOp(l, op);
      LogsInto(Many(l, meta, n - 1), op);
      ReachableStep(Many(l, meta, n - 1), Log(op), Many(l, meta, n));
    }
  }

  lemma LogsInto(s: State, op: Op)
    requires s.mem.Valid() && s.phase.Idle? && s.disk.dim == 1 && s.disk.records == None && s.disk.omen == NO_MANIFEST
    requires op.Upsert? && |op.vec| == 1 && op.id.User? && TakesOp(s.disk.limits, op)
    ensures GuardedStep(s, Log(op), Append(s, op, s.mem.Do(op)))
  {
  }

  /** A checkpoint that has begun can always write the rest of its slots and sync them. */
  lemma {:induction false} FinishWriting(s: State) returns (t: State)
    requires Reachable(s) && s.phase.Writing?
    ensures Reachable(t) && t.phase == Synced(s.phase.kind)
    ensures t == s.(phase := t.phase, cache := t.cache, disk := s.disk.(vecs := t.disk.vecs))
    decreases |s.phase.todo|
  {
    ReachableInv(s);
    if s.phase.todo == {} {
      t := Do(s, Fsync);
      ReachableStep(s, Fsync, t);
    } else {
      var k :| k in s.phase.todo;
      var s' := Do(s, WriteSlot(k));
      ReachableStep(s, WriteSlot(k), s');
      t := FinishWriting(s');
    }
  }

  /** Every record is within the limits and is logged; the manifest of the flush is not, and the
      database never opens again. No call fails. */
  lemma {:induction false} ManyRecordsLost(
    c: Container.Codec, json: Json -> seq<byte>, image: Manifest -> Container.Manifest, l: Limits, meta: Json, n: nat)
    requires l.opens(NO_MANIFEST) && forall k: nat :: k < n ==> TakesOp(l, Op.Upsert(Key(k), [1], meta))
    requires n > 0 && n * |json(meta)| >= TWO32
    requires OpensAsWritten(c, json, image, l) && Verbatim(c)
    requires var m := ManyManifest(l, meta, n); Carries(image(m), m, json) && !Collides(c, c.encode(image(m)))
    ensures exists s :: Reachable(s) && LostOnFlush(s, 1) && forall k: nat :: k < n ==> Key(k) in s.mem.View()
  {
    var s := ManyWritten(l, meta, n);
    ManyValues(l, meta, n);
    LargeMetadata(c, json, image, ManyManifest(l, meta, n), |json(meta)|);
    LostLarge(c, json, image, s, 1);
  }

  /** The state before the rename. */
  lemma ManyWritten(l: Limits, meta: Json, n: nat) returns (t: State)
    requires l.opens(NO_MANIFEST) && forall k: nat :: k < n ==> TakesOp(l, Op.Upsert(Key(k), [1], meta))
    ensures Reachable(t) && t.phase == Synced(Full) && t.mem.Valid() && Enabled(t, Publish(1))
    ensures t.disk.limits == l && ManifestNow(t) == ManyManifest(l, meta, n)
    ensures forall k: nat :: k < n ==> Key(k) in t.mem.View()
  {
    ManyReached(l, meta, n);
    var s := Many(l, meta, n);
    BeginsFull(s);
    ReachableStep(s, Begin(Full), BeginWriting(s, Full));
    t := FinishWriting(BeginWriting(s, Full));
    assert t.mem.Valid() && ManifestTables(t.mem) == ManifestTables(s.mem) by { SameTables(s.mem); }
    ManyShown(t.mem, n);
  }

  lemma BeginsFull(s: State)
    requires s.mem.Valid() && s.phase.Idle? && !s.disk.omen.usesVecs
    ensures GuardedStep(s, Begin(Full), BeginWriting(s, Full))
  {
  }

  lemma ManyShown(st: Store, n: nat)
    requires st.Valid() && |st.slots| == n && st.deleted == {}
    requires forall k: nat :: k < n ==> st.slots[k].Some? && st.slots[k].value.id == Key(k)
    ensures forall k: nat :: k < n ==> Key(k) in st.View()
  {
    forall k: nat | k < n ensures Key(k) in st.View() { assert st.Live(k); }
  }

  /** The checksum of the part that is read back is that of the whole. */
  ghost predicate Collides(c: Container.Codec, bytes: seq<byte>) {
    c.crc(bytes[..|bytes| % TWO32]) == c.crc(bytes)
  }

  /** Once the manifest is renamed into place no reopen succeeds, after a crash or without one. */
  ghost predicate LostOnFlush(s: State, now: nat) {
    && s.mem.Valid() && Enabled(s, Publish(now))
    && forall t, d :: (t == Do(s, Publish(now)) || Truncated(s, now, t)) && CrashOutcome(t, d) ==> !d.Opens()
  }

  lemma LostLarge(c: Container.Codec, json: Json -> seq<byte>, image: Manifest -> Container.Manifest, s: State,
      now: nat)
    requires OpensAsWritten(c, json, image, s.disk.limits) && Carries(image(ManifestNow(s)), ManifestNow(s), json)
    requires var bytes := c.encode(image(ManifestNow(s))); |bytes| >= TWO32 && !Collides(c, bytes)
    requires s.mem.Valid() && Enabled(s, Publish(now)) && s.phase.kind != Auto
    ensures LostOnFlush(s, now)
  {
    forall t, d | (t == Do(s, Publish(now)) || Truncated(s, now, t)) && CrashOutcome(t, d) ensures !d.Opens() {
      TruncatedValid(s, now, t);
      LargeManifestLost(c, json, image, s, now, t, d);
    }
  }

  lemma TruncatedValid(s: State, now: nat, t: State)
    requires s.mem.Valid() && Enabled(s, Publish(now)) && (t == Do(s, Publish(now)) || Truncated(s, now, t))
    ensures t.mem.Valid()
  {
  }

  /** The manifest holds the metadata of each record. */
  lemma ManyValues(l: Limits, meta: Json, n: nat)
    ensures var values := ManyManifest(l, meta, n).tables.meta;
            |values| == n && forall k :: k in values ==> values[k] == meta
  {
    var values := ManyManifest(l, meta, n).tables.meta;
    var st := Many(l, meta, n).mem;
    forall k: nat ensures k in values <==> k < n {
      if k < n { assert st.slots[k] == Some(Rec(Key(k), Some([1]), Some(meta))); }
    }
    CountedBelow(values, n);
  }

  lemma CountedBelow(values: map<nat, Json>, n: nat)
    requires forall k: nat :: k in values <==> k < n
    ensures |values| == n
  {
    AllBelow(n);
    CountBelow(n);
    assert values.Keys == SlotsBelow(n);
  }

  lemma {:induction false} CountBelow(n: nat)
    ensures |SlotsBelow(n)| == n
  {
    if n > 0 {
      CountBelow(n - 1);
      AllBelow(n);
      AllBelow(n - 1);
      assert SlotsBelow(n) == SlotsBelow(n - 1) + {n - 1};
    }
  }

  // ---------- a flush that compacts ----------

  // After the first auto-checkpoint `c` is stored and `a` deleted: one slot in three is a tombstone,
  // and the next flush compacts.

  const LOG_CA := [PutEntry(2, Failures.C, 9), Entry(3, Op.Delete(A))]
  const STORE_BC := Store([RECORD_A, RECORD_B, RECORD_C], {0}, map[B := 1, Failures.C := 2], {0, 2})
  const V0 := State(AutoDisk(OPEN, LOG_CA, 2, 1), [[7], [8]], STORE_BC, 2, 4, {1}, Idle, 0, 0, VIEW_AB)

  lemma DeletesA()
    ensures GuardedStep(T8(OPEN), Log(Op.Delete(A)), V0)
  {
    ValidABC({2});
    var s, op := T8(OPEN), Op.Delete(A);
    assert SafeToAppend(s) && Loggable(s.disk, op) && A in s.mem.ids;
    DeletesInto(s, op, STORE_BC, LOG_CA) by {
      WithoutA();
      assert LOG_C + [Entry(3, op)] == LOG_CA;
    }
  }

  lemma WithoutA()
    ensures StoreABC({2}).Delete(A) == STORE_BC
  {
    var ids := StoreABC({2}).ids;
    assert A in ids && ids[A] == 0 && ids - {A} == STORE_BC.ids;
    assert {2} + {0} == STORE_BC.dirty;
  }

  lemma DeletesInto(s: State, op: Op, mem: Store, log: seq<Entry>)
    requires s.mem.Valid() && s.phase.Idle? && op.Delete? && op.id in s.mem.ids
    requires SafeToAppend(s) && Loggable(s.disk, op)
    requires mem == s.mem.Do(op) && log == s.disk.wal + [Entry(s.nextTs, op)]
    ensures GuardedStep(s, Log(op), s.(disk := s.disk.(wal := log), mem := mem, nextTs := s.nextTs + 1))
  {
  }

  lemma ReachesV0()
    ensures Reachable(V0)
  {
    TruncatedAB();
    StoreC(OPEN); ReachableStep(T7(OPEN), Put(Failures.C, 9), T8(OPEN));
    DeletesA(); ReachableStep(T8(OPEN), Log(Op.Delete(A)), V0);
  }

  /** `b` moves to slot 0 and `c` to slot 1, where the snapshot has `b`. */
  lemma CompactsBC()
    ensures Compacted(STORE_BC).slots == [RECORD_B, RECORD_C] && Compacted(STORE_BC).Render(1, 1) == [9]
  {
    assert Kept(STORE_BC, 0) == [] && Kept(STORE_BC, 1) == [];
    assert Kept(STORE_BC, 2) == [1] && Kept(STORE_BC, 3) == [1, 2];
  }

  lemma ExposesB()
    ensures Exposed(V0, B) && Misplaced(V0, B)
  {
    ParsedAll(OPEN.parses, LOG_CA);
    CompactsBC();
    assert V0.disk.Base() == TABLES_AB && V0.disk.Replayed() == LOG_CA;
  }

  /** One slot written is enough: after a crash `b`, which nobody has touched, has the vector of `c`. */
  lemma {:induction false} SwappedVector()
    ensures Reachable(V0) && 4 * |V0.mem.deleted| > |V0.mem.slots| && !InPlace(V0)
    ensures B in V0.mem.View() && V0.mem.View()[B].vec == Some([8])
    ensures FoundWith(V0, B, [9])
  {
    ReachesV0();
    ReachableInv(V0);
    ExposesB();
    CompactsBC();
    ExposedLost(V0, B);
    assert V0.mem.Live(1);
  }

  // The same without `c`: `a` is deleted, the flush compacts and completes, nothing crashes.

  const LOG_DA := [Entry(2, Op.Delete(A))]
  const DISK_DA := AutoDisk(OPEN, LOG_DA, 2, 1)
  const STORE_DA := Store([RECORD_A, RECORD_B], {0}, map[B := 1], {0})
  const STORE_B := Store([RECORD_B], {}, map[B := 0], {})
  const W0 := State(DISK_DA, [[7], [8]], STORE_DA, 2, 3, {1}, Idle, 0, 0, VIEW_AB)
  const W1 := State(DISK_DA, [[7], [8]], STORE_B.(dirty := {0}), 2, 3, {1}, Idle, 0, 0, VIEW_AB)
  const W2 := State(DISK_DA, [[7], [8]], STORE_B, 2, 3, {1}, Writing(Incremental, {0}), 0, 0, VIEW_AB)
  const W3 := State(DISK_DA, [[8], [8]], STORE_B, 2, 3, {1}, Writing(Incremental, {}), 0, 0, VIEW_AB)
  const W4 := State(DISK_DA.(vecs := [[8], [8]]), [[8], [8]], STORE_B, 2, 3, {1}, Synced(Incremental), 0, 0, VIEW_AB)

  lemma ReachesW0()
    ensures Reachable(W0)
  {
    TruncatedAB();
    var s, op := T7(OPEN), Op.Delete(A);
    assert SafeToAppend(s) && Loggable(s.disk, op) && A in s.mem.ids;
    DeletesInto(s, op, STORE_DA, LOG_DA) by {
      WithoutAB();
      assert [] + [Entry(2, op)] == LOG_DA;
    }
    ReachableStep(s, Log(op), W0);
  }

  lemma WithoutAB()
    ensures StoreAB({}).Delete(A) == STORE_DA
  {
    var ids := StoreAB({}).ids;
    assert A in ids && ids[A] == 0 && ids - {A} == STORE_DA.ids;
  }

  lemma CompactsB()
    ensures STORE_DA.Valid() && STORE_B.Valid() && Compacted(STORE_DA) == STORE_B.(dirty := {0})
  {
    KeepsB();
    RebuildOne(RECORD_B);
    assert SlotsBelow(1) == {0} by { AllBelow(1); }
  }

  lemma KeepsB()
    ensures Gathered(STORE_DA, Kept(STORE_DA, 2)) == [RECORD_B]
  {
    assert Kept(STORE_DA, 0) == [] && Kept(STORE_DA, 1) == [] && Kept(STORE_DA, 2) == [1];
  }

  lemma RebuildOne(rec: Option<Rec>)
    requires rec.Some?
    ensures Rebuild([rec], {}, 1) == map[rec.value.id := 0]
  {
    assert Rebuild([rec], {}, 0) == map[];
  }

  lemma FlushesB()
    ensures Follows(W0, Compact, W1) && Follows(W1, Begin(Incremental), W2)
    ensures Follows(W2, WriteSlot(0), W3) && Follows(W3, Fsync, W4)
  {
    CompactsB();
    assert STORE_B.Render(0, 1) == [8];
    assert Do(W1, Begin(Incremental)).cache == W2.cache;
    assert Do(W2, WriteSlot(0)).cache == W3.cache && {0} - {0} == {};
  }

  lemma FlushSound()
    ensures Sound(W4)
  {
    FlushesB();
    SoundW1();
    WritesSound(W1, Begin(Incremental), W2);
    WritesSound(W2, WriteSlot(0), W3);
    WritesSound(W3, Fsync, W4);
  }

  lemma SoundW1()
    ensures Sound(W1)
  {
    CompactsB();
    assert Sound(W0) by {
      ReachesW0();
      ReachableInv(W0);
    }
    CompactedCache(W0);
  }

  lemma CompactedCache(s: State)
    requires s.mem.Valid() && CacheOk(s) && s.phase.Idle?
    ensures Compacted(s.mem).Valid() && CacheOk(s.(mem := Compacted(s.mem)))
  {
    CompactedView(s.mem);
    AllBelow(|Compacted(s.mem).slots|);
  }

  /** The flush leaves the vector of `b` in the slot it came from as well: closed and opened again, the
      database has a record nobody wrote. */
  lemma {:induction false} RevivedTail()
    ensures Reachable(W0) && Follows(W0, Compact, W1)
    ensures exists t :: Led(W1, t) && Leftover(t, STORE_B, 1)
  {
    ReachesW0();
    FlushesB();
    FlushSound();
    LedFrom(W1);
    LedStep(W1, W1, Begin(Incremental), W2);
    LedStep(W1, W2, WriteSlot(0), W3);
    LedStep(W1, W3, Fsync, W4);
    var t := Completes(W1, W4, 3);
    TailLeft(t);
  }

  /** Memory is `st`, and a reopen of the files shows a synthetic record at slot `k` as well. */
  ghost predicate Leftover(t: State, st: Store, k: nat) {
    && t.phase.Idle? && t.mem == st && CrashOutcome(t, t.disk) && t.disk.Opens()
    && Synthetic(k) in t.disk.Recover().View() && Synthetic(k) !in st.View()
  }

  lemma TailLeft(t: State)
    requires Sound(W4) && Enabled(W4, Publish(3)) && Truncated(W4, 3, t) && t.phase.Idle?
    ensures Leftover(t, STORE_B, 1)
  {
    Completed(W4, 3, t);
    TailShows(t);
    assert [8][0] != 0;
    assert !IsZero(t.disk.vecs[1]);
    Resurrects(t, t.disk, 1);
  }

  /** What a completed checkpoint leaves. */
  lemma Completed(s: State, now: nat, t: State)
    requires Sound(s) && Enabled(s, Publish(now)) && Readable(s, Publish(now)) && s.phase.kind != Auto
    requires Truncated(s, now, t) && t.phase.Idle?
    ensures Inv(t) && t.mem == s.mem && t.disk.wal == [] && t.disk.vecs == s.disk.vecs && t.disk.limits == s.disk.limits
    ensures t.disk.omen == ManifestNow(s)
    ensures t.disk.Base().ids == t.mem.ids && t.disk.Base().deleted == t.mem.deleted
  {
    var p := Do(s, Publish(now));
    assert Rebased(p) by { PublishRebases(s, now); }
    assert Rebased(Do(p, EmptyLog)) by { EmptyLogRebased(p); }
    WriteMetaRestores(Do(p, EmptyLog));
  }
}
