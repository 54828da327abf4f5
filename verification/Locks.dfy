/** `merge_from` under fair reader-writer locks: any number of calls over any number of databases. */
module Locks {
  import opened Records

  /** A database is the address of its lock. */
  type Address = nat

  /** Merge `source` into `target`: the target is locked for writing, the source for reading. */
  datatype Call = Call(target: Address, source: Address)

  datatype Pc = Ready | WaitFirst | HoldFirst | WaitSecond | HoldBoth | Done

  datatype Mode = Shared | Exclusive

  /** `queue[a]` holds the parked calls of lock `a`, in order of arrival. */
  datatype State = State(calls: seq<Call>, pcs: seq<Pc>, queue: map<Address, seq<nat>>)

  /** `true` is the source's rule, lower address first; `false` locks the target first, for comparison. */
  type Ordered = bool

  function First(ordered: Ordered, c: Call): Address {
    if !ordered || c.target < c.source then c.target else c.source
  }

  function Second(ordered: Ordered, c: Call): Address {
    if First(ordered, c) == c.target then c.source else c.target
  }

  function ModeOf(c: Call, a: Address): Mode {
    if a == c.target then Exclusive else Shared
  }

  // ------------------------------------------------------------------ the locks

  predicate IsCall(s: State, i: nat) {
    i < |s.calls| && i < |s.pcs|
  }

  predicate Holds(o: Ordered, s: State, i: nat, a: Address)
    requires IsCall(s, i)
  {
    var c := s.calls[i];
    || ((s.pcs[i] == HoldFirst || s.pcs[i] == WaitSecond || s.pcs[i] == HoldBoth) && a == First(o, c))
    || (s.pcs[i] == HoldBoth && a == Second(o, c))
  }

  predicate Waits(o: Ordered, s: State, i: nat, a: Address)
    requires IsCall(s, i)
  {
    var c := s.calls[i];
    || (s.pcs[i] == WaitFirst && a == First(o, c))
    || (s.pcs[i] == WaitSecond && a == Second(o, c))
  }

  function Queue(s: State, a: Address): seq<nat> {
    if a in s.queue then s.queue[a] else []
  }

  /** The lock could be given to `i`: alone, or shared with readers only. */
  ghost predicate Compatible(o: Ordered, s: State, i: nat, a: Address)
    requires IsCall(s, i)
  {
    forall j: nat | IsCall(s, j) && Holds(o, s, j, a) ::
      ModeOf(s.calls[i], a) == Shared && ModeOf(s.calls[j], a) == Shared
  }

  /** The one grant a fair lock must make: to the head of the queue. */
  ghost predicate MustGrant(o: Ordered, s: State, i: nat, a: Address)
    requires IsCall(s, i)
  {
    Queue(s, a) != [] && Queue(s, a)[0] == i && Compatible(o, s, i, a)
  }

  /** A grant a lock may also make: to anyone parked, as long as no reader passes a parked writer. */
  ghost predicate MayGrant(o: Ordered, s: State, i: nat, a: Address)
    requires IsCall(s, i)
  {
    && i in Queue(s, a) && Compatible(o, s, i, a)
    && (ModeOf(s.calls[i], a) == Exclusive
        || forall j: nat | IsCall(s, j) && Waits(o, s, j, a) :: ModeOf(s.calls[j], a) == Shared)
  }

  // ------------------------------------------------------------------ the steps

  /** What call `i` does next. `Reject` is a merge of a database into itself; `LeaveEarly` the closed-source
      check between the two locks, made only when the source is locked first; `Finish` merges or reports
      a closed database, and releases both locks. */
  datatype Step = Reject(i: nat) | Ask(i: nat) | Grant(i: nat) | LeaveEarly(i: nat) | Finish(i: nat)

  /** The lock call `i` asks for or waits for. */
  function Wanted(o: Ordered, s: State, i: nat): Address
    requires IsCall(s, i)
  {
    if s.pcs[i] == Ready || s.pcs[i] == WaitFirst then First(o, s.calls[i]) else Second(o, s.calls[i])
  }

  ghost predicate Enabled(o: Ordered, s: State, step: Step) {
    && IsCall(s, step.i)
    && match step
       case Reject(i) => s.pcs[i] == Ready && s.calls[i].target == s.calls[i].source
       case Ask(i) => (s.pcs[i] == Ready && s.calls[i].target != s.calls[i].source) || s.pcs[i] == HoldFirst
       case Grant(i) =>
         && (s.pcs[i] == WaitFirst || s.pcs[i] == WaitSecond)
         && (MustGrant(o, s, i, Wanted(o, s, i)) || MayGrant(o, s, i, Wanted(o, s, i)))
       case LeaveEarly(i) => s.pcs[i] == HoldFirst && First(o, s.calls[i]) == s.calls[i].source
       case Finish(i) => s.pcs[i] == HoldBoth
  }

  function Without(q: seq<nat>, i: nat): seq<nat> {
    if q == [] then [] else if q[0] == i then q[1..] else [q[0]] + Without(q[1..], i)
  }

  function At(s: State, i: nat, pc: Pc): State
    requires IsCall(s, i)
  {
    s.(pcs := s.pcs[i := pc])
  }

  function Apply(o: Ordered, s: State, step: Step): State
    requires IsCall(s, step.i)
  {
    match step
    case Reject(i) => At(s, i, Done)
    case Ask(i) =>
      var a := Wanted(o, s, i);
      At(s, i, if s.pcs[i] == Ready then WaitFirst else WaitSecond).(queue := s.queue[a := Queue(s, a) + [i]])
    case Grant(i) =>
      var a := Wanted(o, s, i);
      At(s, i, if s.pcs[i] == WaitFirst then HoldFirst else HoldBoth).(queue := s.queue[a := Without(Queue(s, a), i)])
    case LeaveEarly(i) => At(s, i, Done)
    case Finish(i) => At(s, i, Done)
  }

  function Start(calls: seq<Call>): State {
    State(calls, seq(|calls|, _ => Ready), map[])
  }

  ghost predicate Unfinished(s: State) {
    exists i: nat :: IsCall(s, i) && s.pcs[i] != Done
  }

  // ----------------------------------------------------------------- invariant

  ghost predicate Exclusion(o: Ordered, s: State) {
    forall i: nat, j: nat, a: Address | i != j && IsCall(s, i) && IsCall(s, j)
      && Holds(o, s, i, a) && Holds(o, s, j, a) ::
      ModeOf(s.calls[i], a) == Shared && ModeOf(s.calls[j], a) == Shared
  }

  /** Exactly the waiting calls are parked, each once. */
  ghost predicate Parked(o: Ordered, s: State) {
    && (forall i: nat, a: Address | IsCall(s, i) && Waits(o, s, i, a) :: i in Queue(s, a))
    && (forall i: nat, a: Address | i in Queue(s, a) :: IsCall(s, i) && Waits(o, s, i, a))
    && (forall a: Address, x, y | 0 <= x < y < |Queue(s, a)| :: Queue(s, a)[x] != Queue(s, a)[y])
  }

  /** Only calls between different databases get past the first check. */
  ghost predicate Distinct(s: State) {
    forall i: nat | IsCall(s, i) :: s.pcs[i] in {Ready, Done} || s.calls[i].target != s.calls[i].source
  }

  ghost predicate Inv(o: Ordered, s: State) {
    |s.calls| == |s.pcs| && Exclusion(o, s) && Parked(o, s) && Distinct(s)
  }
}
