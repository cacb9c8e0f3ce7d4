/** What each synchronisation primitive promises its callers. The concrete code
    is proved to refine these machines (SpinLock, BarrierWait, WorkQueue, SleepWake) and the
    applications (WorkqMutex, VectorAdd) are proved over them. */
module Specs {

  datatype Option<+T> = None | Some(value: T)

  /** A mutual-exclusion lock: free, or held by one thread. */
  datatype Lock = Free | HeldBy(owner: nat)

  ghost predicate LockStep(a: Lock, b: Lock) {
    || a == b
    || (a == Free && b.HeldBy?)
    || (a.HeldBy? && b == Free)
  }

  /** A reusable barrier: `entered[t]` waits begun and `left[t]` waits finished by
      participant t. A participant may finish its k-th wait once everybody has
      begun theirs. */
  datatype Barrier = Barrier(entered: seq<nat>, left: seq<nat>) {
    predicate WellFormed() { |entered| == |left| }

    predicate CanEnter(t: nat) {
      WellFormed() && t < |left| && entered[t] == left[t]
    }
    predicate CanLeave(t: nat) {
      && WellFormed() && t < |left| && entered[t] == left[t] + 1
      && forall u :: 0 <= u < |entered| ==> entered[t] <= entered[u]
    }
    function Enter(t: nat): (b: Barrier)
      requires CanEnter(t)
    { this.(entered := entered[t := entered[t] + 1]) }
    function Leave(t: nat): (b: Barrier)
      requires CanLeave(t)
    { this.(left := left[t := left[t] + 1]) }

    /** What the two operations keep between them: nobody has finished more waits
        than anybody has begun. */
    predicate Safe() {
      && WellFormed()
      && (forall t :: 0 <= t < |left| ==> left[t] <= entered[t] <= left[t] + 1)
      && forall t, u :: 0 <= t < |left| && 0 <= u < |left| ==> left[t] <= entered[u]
    }
  }

  /** Both operations keep the barrier safe, for any participant and any round. */
  lemma BarrierStaysSafe(b: Barrier, t: nat)
    requires b.Safe()
    ensures b.CanEnter(t) ==> b.Enter(t).Safe()
    ensures b.CanLeave(t) ==> b.Leave(t).Safe()
  {
    if b.CanLeave(t) {
      var b' := b.Leave(t);
      forall u, v | 0 <= u < |b'.left| && 0 <= v < |b'.left| ensures b'.left[u] <= b'.entered[v] {
        assert b.left[u] <= b.entered[v] && b.entered[t] <= b.entered[v];
      }
    }
  }

  ghost predicate BarrierStep(a: Barrier, b: Barrier, t: nat) {
    || a == b
    || (a.CanEnter(t) && b == a.Enter(t))
    || (a.CanLeave(t) && b == a.Leave(t))
  }

  /** The fresh barrier for n participants. */
  function NewBarrier(n: nat): (b: Barrier)
    ensures b.Safe() && |b.entered| == n
  {
    Barrier(seq(n, _ => 0), seq(n, _ => 0))
  }

  /** A bounded first-in first-out channel. */
  datatype Channel<V> = Channel(capacity: nat, items: seq<V>) {
    predicate CanPush() { |items| < capacity }
    predicate CanPop() { |items| > 0 }
    function Push(v: V): Channel<V> requires CanPush() { this.(items := items + [v]) }
    function Head(): V requires CanPop() { items[0] }
    function Pop(): Channel<V> requires CanPop() { this.(items := items[1..]) }
  }

  /** A channel stays as it is, takes a word while it has room, or gives up its oldest. */
  ghost predicate ChannelStep<V(!new)>(a: Channel<V>, b: Channel<V>) {
    || a == b
    || (a.CanPush() && exists v :: b == a.Push(v))
    || (a.CanPop() && b == a.Pop())
  }

  /** The sleep/wake counter of one processing element: sleeps begun minus wakes. */
  datatype Sleeper = Sleeper(counter: int) {
    function Arrive(): Sleeper { Sleeper(counter + 1) }
    predicate CanReturn() { counter <= 0 }
    function Wake(): Sleeper { Sleeper(counter - 1) }
  }

  ghost predicate SleeperStep(a: Sleeper, b: Sleeper) {
    a == b || b == a.Arrive() || b == a.Wake()
  }
}
