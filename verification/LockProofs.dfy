/** Ordered locking never deadlocks, keeps its locks exclusive, and always finishes. */
module LockProofs {
  import opened Records
  import opened Locks

  // ---------------------------------------------------------------- invariance

  lemma StartInv(o: Ordered, calls: seq<Call>)
    ensures Inv(o, Start(calls))
  {
  }

  /** A step touches no other call's locks. */
  lemma OthersUntouched(o: Ordered, s: State, step: Step, j: nat, a: Address)
    requires |s.calls| == |s.pcs| && IsCall(s, step.i) && IsCall(s, j) && j != step.i
    ensures var t := Apply(o, s, step);
            IsCall(t, j) && t.calls == s.calls && t.pcs[j] == s.pcs[j]
            && Holds(o, t, j, a) == Holds(o, s, j, a) && Waits(o, t, j, a) == Waits(o, s, j, a)
  {
  }

  /** The only lock a step can newly hold is the one granted. */
  lemma NewHold(o: Ordered, s: State, step: Step, a: Address)
    requires |s.calls| == |s.pcs| && Enabled(o, s, step)
    ensures var t := Apply(o, s, step);
            Holds(o, t, step.i, a) ==> Holds(o, s, step.i, a) || (step.Grant? && a == Wanted(o, s, step.i))
  {
  }

  lemma GrantCompatible(o: Ordered, s: State, step: Step)
    requires Enabled(o, s, step) && step.Grant?
    ensures Compatible(o, s, step.i, Wanted(o, s, step.i))
  {
  }

  lemma ExclusionStep(o: Ordered, s: State, step: Step)
    requires Inv(o, s) && Enabled(o, s, step)
    ensures Exclusion(o, Apply(o, s, step))
  {
    var t := Apply(o, s, step);
    forall i: nat, j: nat, a: Address | i != j && IsCall(t, i) && IsCall(t, j) && Holds(o, t, i, a) && Holds(o, t, j, a)
      ensures ModeOf(t.calls[i], a) == Shared && ModeOf(t.calls[j], a) == Shared
    {
      SharedAfter(o, s, step, i, j, a);
    }
  }

  lemma SharedAfter(o: Ordered, s: State, step: Step, i: nat, j: nat, a: Address)
    requires |s.calls| == |s.pcs| && Exclusion(o, s) && Enabled(o, s, step) && i != j && IsCall(s, i) && IsCall(s, j)
    requires var t := Apply(o, s, step); Holds(o, t, i, a) && Holds(o, t, j, a)
    ensures ModeOf(s.calls[i], a) == Shared && ModeOf(s.calls[j], a) == Shared
  {
    if i == step.i {
      OthersUntouched(o, s, step, j, a);
      NewHold(o, s, step, a);
      if !Holds(o, s, i, a) { GrantCompatible(o, s, step); }
    } else if j == step.i {
      OthersUntouched(o, s, step, i, a);
      NewHold(o, s, step, a);
      if !Holds(o, s, j, a) { GrantCompatible(o, s, step); }
    } else {
      OthersUntouched(o, s, step, i, a);
      OthersUntouched(o, s, step, j, a);
    }
  }

  ghost predicate NoRepeat(q: seq<nat>) {
    forall x, y | 0 <= x < y < |q| :: q[x] != q[y]
  }

  lemma {:induction false} WithoutRest(q: seq<nat>, i: nat)
    requires NoRepeat(q)
    ensures NoRepeat(Without(q, i)) && forall j: nat :: j in Without(q, i) <==> j in q && j != i
  {
    if q != [] {
      var rest := q[1..];
      WithoutRest(rest, i);
      assert q == [q[0]] + rest;
      assert q[0] !in rest;
    }
  }

  /** After a step each queue is what it was, plus a call that asked, or less one that was granted. */
  lemma QueueAfter(o: Ordered, s: State, step: Step, a: Address)
    requires IsCall(s, step.i)
    ensures var t := Apply(o, s, step);
            Queue(t, a) == if step.Ask? && a == Wanted(o, s, step.i) then Queue(s, a) + [step.i]
                           else if step.Grant? && a == Wanted(o, s, step.i) then Without(Queue(s, a), step.i)
                           else Queue(s, a)
  {
  }

  /** What the stepping call waits for afterwards. */
  lemma WaitsAfter(o: Ordered, s: State, step: Step, a: Address)
    requires |s.calls| == |s.pcs| && Enabled(o, s, step)
    ensures Waits(o, Apply(o, s, step), step.i, a) <==> (step.Ask? && a == Wanted(o, s, step.i))
    ensures Waits(o, s, step.i, a) <==> (step.Grant? && a == Wanted(o, s, step.i))
  {
  }

  lemma ParkedAt(o: Ordered, s: State, step: Step, a: Address)
    requires Inv(o, s) && Enabled(o, s, step)
    ensures var t := Apply(o, s, step);
            NoRepeat(Queue(t, a)) && forall j: nat :: j in Queue(t, a) <==> IsCall(t, j) && Waits(o, t, j, a)
  {
    var t, i := Apply(o, s, step), step.i;
    QueueAfter(o, s, step, a);
    WaitsAfter(o, s, step, a);
    assert NoRepeat(Queue(s, a));
    WithoutRest(Queue(s, a), i);
    assert i in Queue(s, a) <==> Waits(o, s, i, a);
    forall j: nat ensures j in Queue(t, a) <==> IsCall(t, j) && Waits(o, t, j, a) {
      if j != i && IsCall(s, j) {
        OthersUntouched(o, s, step, j, a);
      }
    }
  }

  lemma ParkedStep(o: Ordered, s: State, step: Step)
    requires Inv(o, s) && Enabled(o, s, step)
    ensures Parked(o, Apply(o, s, step))
  {
    forall a: Address
      ensures NoRepeat(Queue(Apply(o, s, step), a))
      ensures forall j: nat :: j in Queue(Apply(o, s, step), a)
                <==> IsCall(Apply(o, s, step), j) && Waits(o, Apply(o, s, step), j, a)
    {
      ParkedAt(o, s, step, a);
    }
  }

  /** Every step keeps the locks exclusive and the queues exact. */
  lemma {:induction false} StepInv(o: Ordered, s: State, step: Step)
    requires Inv(o, s) && Enabled(o, s, step)
    ensures Inv(o, Apply(o, s, step))
  {
    ExclusionStep(o, s, step);
    ParkedStep(o, s, step);
  }

  // ------------------------------------------------------------------ progress

  /** Among the waiting calls below `n`, one that waits for the highest address. */
  lemma {:induction false} HighestWait(s: State, n: nat) returns (m: nat)
    requires |s.calls| == |s.pcs| && n <= |s.calls|
    requires exists i: nat :: i < n && s.pcs[i] in {WaitFirst, WaitSecond}
    ensures m < n && s.pcs[m] in {WaitFirst, WaitSecond}
    ensures forall i: nat | i < n && s.pcs[i] in {WaitFirst, WaitSecond} :: Wanted(true, s, i) <= Wanted(true, s, m)
  {
    var last := n - 1;
    if exists i: nat :: i < last && s.pcs[i] in {WaitFirst, WaitSecond} {
      m := HighestWait(s, last);
      if s.pcs[last] in {WaitFirst, WaitSecond} && Wanted(true, s, m) < Wanted(true, s, last) {
        m := last;
      }
    } else {
      m := last;
    }
  }

  /** When every call waits or is done, the lock waited for at the highest address is free. */
  lemma HighestFree(s: State, m: nat)
    requires Inv(true, s) && IsCall(s, m) && s.pcs[m] in {WaitFirst, WaitSecond}
    requires forall i: nat | IsCall(s, i) :: s.pcs[i] in {WaitFirst, WaitSecond, Done}
    requires forall i: nat | IsCall(s, i) && s.pcs[i] in {WaitFirst, WaitSecond} ::
               Wanted(true, s, i) <= Wanted(true, s, m)
    ensures forall j: nat | IsCall(s, j) :: !Holds(true, s, j, Wanted(true, s, m))
  {
    var a := Wanted(true, s, m);
    forall j: nat | IsCall(s, j) ensures !Holds(true, s, j, a) {
      if s.pcs[j] == WaitSecond {
        assert s.calls[j].target != s.calls[j].source;
        assert First(true, s.calls[j]) < Second(true, s.calls[j]) == Wanted(true, s, j) <= a;
      }
    }
  }

  /** In every reachable unfinished state some call can step, even if locks grant only to the head of the queue. */
  lemma {:induction false} Progress(s: State) returns (step: Step)
    requires Inv(true, s) && Unfinished(s)
    ensures Enabled(true, s, step)
    ensures step.Grant? ==> MustGrant(true, s, step.i, Wanted(true, s, step.i))
  {
    if i: nat :| IsCall(s, i) && s.pcs[i] in {Ready, HoldFirst, HoldBoth} {
      if s.pcs[i] == HoldBoth {
        step := Finish(i);
      } else if s.pcs[i] == Ready && s.calls[i].target == s.calls[i].source {
        step := Reject(i);
      } else {
        step := Ask(i);
      }
    } else {
      var u: nat :| IsCall(s, u) && s.pcs[u] != Done;
      assert s.pcs[u] in {WaitFirst, WaitSecond};
      var m := HighestWait(s, |s.calls|);
      HighestFree(s, m);
      var a := Wanted(true, s, m);
      assert Waits(true, s, m, a);
      assert m in Queue(s, a);
      var head := Queue(s, a)[0];
      assert head in Queue(s, a);
      assert Waits(true, s, head, a);
      assert Wanted(true, s, head) == a;
      step := Grant(head);
    }
  }

  // --------------------------------------------------------------- termination

  function Left(pc: Pc): nat {
    match pc
    case Ready => 5
    case WaitFirst => 4
    case HoldFirst => 3
    case WaitSecond => 2
    case HoldBoth => 1
    case Done => 0
  }

  function Measure(pcs: seq<Pc>): nat {
    if pcs == [] then 0 else Measure(pcs[..|pcs| - 1]) + Left(pcs[|pcs| - 1])
  }

  lemma {:induction false} MeasureUpdate(pcs: seq<Pc>, i: nat, pc: Pc)
    requires i < |pcs|
    ensures Measure(pcs[i := pc]) == Measure(pcs) - Left(pcs[i]) + Left(pc)
  {
    var n := |pcs| - 1;
    if i == n {
      assert pcs[i := pc][..n] == pcs[..n];
    } else {
      assert pcs[i := pc][..n] == pcs[..n][i := pc];
      MeasureUpdate(pcs[..n], i, pc);
    }
  }

  lemma {:induction false} StepDecreases(o: Ordered, s: State, step: Step)
    requires |s.calls| == |s.pcs| && Enabled(o, s, step)
    ensures Measure(Apply(o, s, step).pcs) < Measure(s.pcs)
  {
    MeasureUpdate(s.pcs, step.i, Apply(o, s, step).pcs[step.i]);
  }

  lemma {:induction false} StartMeasure(n: nat)
    ensures Measure(seq(n, _ => Ready)) == 5 * n
  {
    if n > 0 {
      StartMeasure(n - 1);
      assert seq(n, _ => Ready)[..n - 1] == seq(n - 1, _ => Ready);
    }
  }

  // ---------------------------------------------------------------------- runs

  ghost predicate Legal(o: Ordered, s: State, steps: seq<Step>)
    decreases |steps|
  {
    steps == [] || (Enabled(o, s, steps[0]) && Legal(o, Apply(o, s, steps[0]), steps[1..]))
  }

  ghost function End(o: Ordered, s: State, steps: seq<Step>): State
    requires Legal(o, s, steps)
    decreases |steps|
  {
    if steps == [] then s else End(o, Apply(o, s, steps[0]), steps[1..])
  }

  lemma {:induction false} RunInv(o: Ordered, s: State, steps: seq<Step>)
    requires Inv(o, s) && Legal(o, s, steps)
    ensures Inv(o, End(o, s, steps))
    ensures |steps| + Measure(End(o, s, steps).pcs) <= Measure(s.pcs)
    decreases |steps|
  {
    if steps != [] {
      StepInv(o, s, steps[0]);
      StepDecreases(o, s, steps[0]);
      RunInv(o, Apply(o, s, steps[0]), steps[1..]);
    }
  }

  /** Any number of calls, any interleaving: writers stay alone, no run is longer than five steps a call,
      and a run stops only when every call has finished. */
  lemma {:induction false} NoDeadlock(calls: seq<Call>, steps: seq<Step>)
    requires Legal(true, Start(calls), steps)
    ensures var s := End(true, Start(calls), steps);
            && Exclusion(true, s) && |steps| <= 5 * |calls|
            && (Unfinished(s) ==> exists step :: Enabled(true, s, step))
  {
    StartInv(true, calls);
    RunInv(true, Start(calls), steps);
    StartMeasure(|calls|);
    var s := End(true, Start(calls), steps);
    if Unfinished(s) {
      var step := Progress(s);
    }
  }

  // --------------------------------------------------------- without the order

  /** Two opposite merges, each holding its target and waiting for its source. */
  function Crossed(): State {
    State([Call(1, 2), Call(2, 1)], [WaitSecond, WaitSecond], map[1 := [1], 2 := [0]])
  }

  lemma CrossedStuck(step: Step)
    ensures Unfinished(Crossed()) && !Enabled(false, Crossed(), step)
  {
    var s := Crossed();
    assert IsCall(s, 0) && s.pcs[0] != Done;
    if IsCall(s, step.i) {
      var a, other := Wanted(false, s, step.i), 1 - step.i;
      assert IsCall(s, other) && Holds(false, s, other, a) && ModeOf(s.calls[other], a) == Exclusive;
      assert !Compatible(false, s, step.i, a);
    }
  }

  lemma Chain(s: State, step: Step, next: State, rest: seq<Step>)
    requires Enabled(false, s, step) && Apply(false, s, step) == next
    requires Legal(false, next, rest) && End(false, next, rest) == Crossed()
    ensures Legal(false, s, [step] + rest) && End(false, s, [step] + rest) == Crossed()
  {
    assert ([step] + rest)[1..] == rest;
  }

  /** After the first call has its target, and then the second, both ask for the other's. */
  function Halfway(pc0: Pc, pc1: Pc, q1: seq<nat>, q2: seq<nat>): State {
    State(Crossed().calls, [pc0, pc1], map[1 := q1, 2 := q2])
  }

  lemma Same(s: State, t: State)
    requires s.calls == t.calls && |s.pcs| == |t.pcs| && (forall i: nat | i < |s.pcs| :: s.pcs[i] == t.pcs[i])
    requires s.queue == t.queue
    ensures s == t
  {
    assert s.pcs == t.pcs;
  }

  lemma BothAsk()
    ensures var steps := [Ask(0)] + ([Ask(1)] + []);
            Legal(false, Halfway(HoldFirst, HoldFirst, [], []), steps)
            && End(false, Halfway(HoldFirst, HoldFirst, [], []), steps) == Crossed()
  {
    var s4, s5 := Halfway(HoldFirst, HoldFirst, [], []), Halfway(WaitSecond, HoldFirst, [], [0]);
    assert Queue(s5, 1) + [1] == [1];
    Same(Apply(false, s5, Ask(1)), Crossed());
    Chain(s5, Ask(1), Crossed(), []);
    assert Queue(s4, 2) + [0] == [0];
    Same(Apply(false, s4, Ask(0)), s5);
    Chain(s4, Ask(0), s5, [Ask(1)] + []);
  }

  lemma SecondLocks()
    ensures var steps := [Grant(1)] + ([Ask(0)] + ([Ask(1)] + []));
            && Legal(false, Halfway(HoldFirst, WaitFirst, [], [1]), steps)
            && End(false, Halfway(HoldFirst, WaitFirst, [], [1]), steps) == Crossed()
  {
    var s3, s4 := Halfway(HoldFirst, WaitFirst, [], [1]), Halfway(HoldFirst, HoldFirst, [], []);
    BothAsk();
    assert Without([1], 1) == [];
    assert Queue(s3, 2) == [1] && Compatible(false, s3, 1, 2);
    Same(Apply(false, s3, Grant(1)), s4);
    Chain(s3, Grant(1), s4, [Ask(0)] + ([Ask(1)] + []));
  }

  lemma FirstLocks()
    ensures var steps := [Grant(0)] + ([Ask(1)] + ([Grant(1)] + ([Ask(0)] + ([Ask(1)] + []))));
            var s1 := State(Crossed().calls, [WaitFirst, Ready], map[1 := [0]]);
            Legal(false, s1, steps) && End(false, s1, steps) == Crossed()
  {
    var s1 := State(Crossed().calls, [WaitFirst, Ready], map[1 := [0]]);
    var s2 := State(Crossed().calls, [HoldFirst, Ready], map[1 := []]);
    var s3 := Halfway(HoldFirst, WaitFirst, [], [1]);
    SecondLocks();
    assert Queue(s2, 2) + [1] == [1];
    Same(Apply(false, s2, Ask(1)), s3);
    Chain(s2, Ask(1), s3, [Grant(1)] + ([Ask(0)] + ([Ask(1)] + [])));
    assert Without([0], 0) == [];
    assert Queue(s1, 1) == [0] && Compatible(false, s1, 0, 1);
    Same(Apply(false, s1, Grant(0)), s2);
    Chain(s1, Grant(0), s2, [Ask(1)] + ([Grant(1)] + ([Ask(0)] + ([Ask(1)] + []))));
  }

  /** Locking the target first instead reaches a state where nobody can step: the order is what prevents it. */
  lemma {:induction false} UnorderedDeadlocks()
    ensures exists steps :: Legal(false, Start(Crossed().calls), steps)
              && End(false, Start(Crossed().calls), steps) == Crossed()
    ensures Unfinished(Crossed()) && forall step :: !Enabled(false, Crossed(), step)
  {
    var s0 := Start(Crossed().calls);
    var s1 := State(Crossed().calls, [WaitFirst, Ready], map[1 := [0]]);
    FirstLocks();
    assert Queue(s0, 1) + [0] == [0];
    Same(Apply(false, s0, Ask(0)), s1);
    Chain(s0, Ask(0), s1, [Grant(0)] + ([Ask(1)] + ([Grant(1)] + ([Ask(0)] + ([Ask(1)] + [])))));
    forall step ensures !Enabled(false, Crossed(), step) {
      CrossedStuck(step);
    }
    CrossedStuck(Ask(0));
  }
}
