/** The direction-flipping counter barrier of m5threads/pthread.c, as interleaved
    steps of N participants, one step per access to shared memory.

    The direction is read without the lock on entry and while spinning; the counter
    counts up in even rounds and down in odd ones. `flips` and `waits` are history:
    no step tests them. */
module BarrierWait {
  import opened Counting
  import opened Specs

  datatype Pc =
    | Outside              // before or after a wait
    | WantLock             // direction read, lock not yet taken
    | LoadCounter          // lock held from here ...
    | StoreCounter(loaded: int)
    | TestCounter
    | Flip
    | Release              // ... up to here
    | Spin                 // waiting for the direction to differ

  datatype Local = Local(pc: Pc, initial: int, waits: nat)

  datatype State = State(
    numThreads: int, lock: Option<nat>, counter: int, direction: int,
    flips: nat, threads: seq<Local>)

  /** pthread_barrier_init with as many participants as its count. */
  predicate Init(s: State) {
    && s.numThreads == |s.threads| >= 1
    && s.lock == None && s.counter == 0 && s.direction == 0 && s.flips == 0
    && forall t :: 0 <= t < |s.threads| ==> s.threads[t].pc == Outside && s.threads[t].waits == 0
  }

  /** Only taking the spin lock can be refused. */
  predicate Enabled(s: State, t: nat) {
    t < |s.threads| && (s.threads[t].pc == WantLock ==> s.lock == None)
  }

  /** The next access of thread t. */
  function Apply(s: State, t: nat): State
    requires Enabled(s, t)
  {
    var l := s.threads[t];
    match l.pc
    case Outside => s.(threads := s.threads[t := l.(pc := WantLock, initial := s.direction)])
    case WantLock => s.(lock := Some(t), threads := s.threads[t := l.(pc := LoadCounter)])
    case LoadCounter => s.(threads := s.threads[t := l.(pc := StoreCounter(s.counter))])
    case StoreCounter(v) =>
      s.(counter := if l.initial == 0 then v + 1 else v - 1, threads := s.threads[t := l.(pc := TestCounter)])
    case TestCounter =>
      var last := s.counter == if l.initial == 0 then s.numThreads else 0;
      s.(threads := s.threads[t := l.(pc := if last then Flip else Release)])
    case Flip =>
      s.(direction := if l.initial == 0 then 1 else 0, flips := s.flips + 1, threads := s.threads[t := l.(pc := Release)])
    case Release => s.(lock := None, threads := s.threads[t := l.(pc := Spin)])
    case Spin =>
      if l.initial == s.direction then s
      else s.(threads := s.threads[t := l.(pc := Outside, waits := l.waits + 1)])
  }

  /** The step re-reads an unchanged direction and achieves nothing. */
  predicate Spinning(s: State, t: nat)
    requires t < |s.threads|
  {
    s.threads[t].pc == Spin && s.threads[t].initial == s.direction
  }

  predicate Run(tr: seq<State>, sched: seq<nat>) {
    && |tr| == |sched| + 1 && Init(tr[0])
    && forall i {:trigger sched[i]} :: 0 <= i < |sched| ==> Enabled(tr[i], sched[i]) && tr[i + 1] == Apply(tr[i], sched[i])
  }

  predicate Locked(pc: Pc) {
    pc == LoadCounter || pc.StoreCounter? || pc == TestCounter || pc == Flip || pc == Release
  }

  predicate PastStore(pc: Pc) {
    pc == TestCounter || pc == Flip || pc == Release || pc == Spin
  }

  /** Threads whose counter update belongs to round r. */
  function Arrived(r: nat): Local -> bool {
    (l: Local) => l.waits == r && PastStore(l.pc)
  }

  function Arrivals(s: State): nat { CountIf(Arrived(s.flips), s.threads) }

  /** Waits begun, and counter updates made, by a thread so far. */
  function Entered(l: Local): nat { l.waits + if l.pc == Outside then 0 else 1 }
  function Updates(l: Local): nat { l.waits + if PastStore(l.pc) then 1 else 0 }

  predicate LocalInv(s: State, t: nat)
    requires t < |s.threads|
  {
    var l := s.threads[t];
    && (l.waits == s.flips || (l.waits + 1 == s.flips && (l.pc == Release || l.pc == Spin)))
    && (l.pc != Outside ==> l.initial == l.waits % 2)
    && (Locked(l.pc) <==> s.lock == Some(t))
    && (l.pc.StoreCounter? ==> l.pc.loaded == s.counter)
    && (l.pc == Flip ==> Arrivals(s) == |s.threads|)
  }

  /** The counter encodes the arrivals of the current round, the direction is its
      parity, and a complete round is always about to be flipped by the lock holder. */
  predicate Inv(s: State) {
    && s.numThreads == |s.threads| >= 1
    && s.direction == s.flips % 2
    && s.counter == (if s.direction == 0 then Arrivals(s) else s.numThreads - Arrivals(s))
    && (s.lock.Some? ==> s.lock.value < |s.threads|)
    && (Arrivals(s) == |s.threads| ==>
          s.lock.Some? && (s.threads[s.lock.value].pc == TestCounter || s.threads[s.lock.value].pc == Flip))
    && forall t :: 0 <= t < |s.threads| ==> LocalInv(s, t)
  }

  lemma InitInv(s: State)
    requires Init(s)
    ensures Inv(s)
  {
    CountNone(Arrived(0), s.threads);
  }

  /** While the direction stands, a step moves the arrival count by its own thread. */
  lemma ArrivalsStep(s: State, t: nat)
    requires Enabled(s, t) && s.threads[t].pc != Flip
    ensures Arrivals(Apply(s, t)) + (if Arrived(s.flips)(s.threads[t]) then 1 else 0)
         == Arrivals(s) + (if Arrived(s.flips)(Apply(s, t).threads[t]) then 1 else 0)
  {
    var s' := Apply(s, t);
    CountUpdate(Arrived(s.flips), s.threads, t, s'.threads[t]);
    if s' == s {
      assert s.threads[t := s.threads[t]] == s.threads;
    }
  }

  lemma StepInv(s: State, t: nat)
    requires Inv(s) && Enabled(s, t)
    ensures Inv(Apply(s, t))
  {
    assert LocalInv(s, t);
    if s.threads[t].pc == Flip {
      FlipInv(s, t);
    } else {
      ArrivalsStep(s, t);
      OrdinaryInv(s, t);
    }
  }

  lemma OrdinaryInv(s: State, t: nat)
    requires Inv(s) && Enabled(s, t) && s.threads[t].pc != Flip
    requires Arrivals(Apply(s, t)) + (if Arrived(s.flips)(s.threads[t]) then 1 else 0)
          == Arrivals(s) + (if Arrived(s.flips)(Apply(s, t).threads[t]) then 1 else 0)
    ensures Inv(Apply(s, t))
  {
    var s' := Apply(s, t);
    assert LocalInv(s, t);
    forall u | 0 <= u < |s'.threads| ensures LocalInv(s', u) {
      assert LocalInv(s, u);
    }
  }

  /** The flip: everybody has arrived, so the new round starts with no arrivals. */
  lemma FlipInv(s: State, t: nat)
    requires Inv(s) && Enabled(s, t) && s.threads[t].pc == Flip
    ensures Inv(Apply(s, t))
  {
    var s' := Apply(s, t);
    assert LocalInv(s, t);
    forall u | 0 <= u < |s.threads| ensures s.threads[u].waits == s.flips && PastStore(s.threads[u].pc) {
      CountFull(Arrived(s.flips), s.threads, u);
    }
    CountNone(Arrived(s'.flips), s'.threads);
    forall u | 0 <= u < |s'.threads| ensures LocalInv(s', u) {
      assert LocalInv(s, u);
    }
  }

  lemma {:induction false} RunInv(tr: seq<State>, sched: seq<nat>, i: nat)
    requires Run(tr, sched) && i < |tr|
    ensures Inv(tr[i]) && |tr[i].threads| == |tr[0].threads|
  {
    if i == 0 {
      InitInv(tr[0]);
    } else {
      RunInv(tr, sched, i - 1);
      StepInv(tr[i - 1], sched[i - 1]);
    }
  }

  /** Safety over unbounded rounds: in every reachable state nobody has returned from
      more waits than anybody has begun, or even made its counter update for; so
      nobody returns from its k-th wait before all N participants are in theirs. Also
      the counter stays within 0..N, the direction is the parity of the completed
      rounds, and no two participants are more than one round apart. */
  lemma BarrierSafety(tr: seq<State>, sched: seq<nat>, i: nat, t: nat, u: nat)
    requires Run(tr, sched) && i < |tr| && t < |tr[0].threads| && u < |tr[0].threads|
    ensures |tr[i].threads| == |tr[0].threads|
    ensures tr[i].threads[t].waits <= Updates(tr[i].threads[u]) <= Entered(tr[i].threads[u])
    ensures Entered(tr[i].threads[t]) <= Entered(tr[i].threads[u]) + 1
    ensures tr[i].threads[t].waits <= tr[i].threads[u].waits + 1
    ensures 0 <= tr[i].counter <= tr[i].numThreads
    ensures tr[i].direction == tr[i].flips % 2
  {
    RunInv(tr, sched, i);
    assert LocalInv(tr[i], t) && LocalInv(tr[i], u);
  }

  /** What a caller of pthread_barrier_wait can observe. */
  function Abs(s: State): (b: Barrier)
    ensures |b.entered| == |b.left| == |s.threads|
  {
    Barrier(seq(|s.threads|, t requires 0 <= t < |s.threads| => Entered(s.threads[t])),
            seq(|s.threads|, t requires 0 <= t < |s.threads| => s.threads[t].waits))
  }

  /** Every step is invisible, or begins a wait, or finishes one the specification
      allows to finish. */
  lemma Refines(s: State, t: nat)
    requires Inv(s) && Enabled(s, t)
    ensures BarrierStep(Abs(s), Abs(Apply(s, t)), t)
    ensures s.threads[t].pc == Spin && !Spinning(s, t) ==> Abs(s).CanLeave(t)
  {
    var s' := Apply(s, t);
    var a, b := Abs(s), Abs(s');
    assert LocalInv(s, t);
    if s.threads[t].pc == Outside {
      assert b == a.Enter(t);
    } else if s.threads[t].pc == Spin && !Spinning(s, t) {
      forall u | 0 <= u < |s.threads| ensures a.entered[t] <= a.entered[u] {
        assert LocalInv(s, u);
      }
      assert b == a.Leave(t);
    } else {
      assert a == b;
    }
  }

  /** Every run, seen by its callers, is a run of the barrier specification. */
  lemma RunRefines(tr: seq<State>, sched: seq<nat>, i: nat)
    requires Run(tr, sched) && i < |sched|
    ensures Abs(tr[0]) == NewBarrier(|tr[0].threads|)
    ensures BarrierStep(Abs(tr[i]), Abs(tr[i + 1]), sched[i])
  {
    var n := |tr[0].threads|;
    assert Abs(tr[0]).entered == NewBarrier(n).entered && Abs(tr[0]).left == NewBarrier(n).left;
    RunInv(tr, sched, i);
    Refines(tr[i], sched[i]);
  }

  // ----- progress -----

  /** Accesses a thread still needs to finish its k-th wait. */
  function Remaining(k: nat): Local -> nat {
    (l: Local) =>
      if l.waits >= k then 0 else
        match l.pc
        case Outside => 8 case WantLock => 7 case LoadCounter => 6 case StoreCounter(_) => 5
        case TestCounter => 4 case Flip => 3 case Release => 2 case Spin => 1
  }

  function Work(s: State, k: nat): nat { Sum(Remaining(k), s.threads) }

  predicate AllEntered(s: State, k: nat) {
    forall t :: 0 <= t < |s.threads| ==> Entered(s.threads[t]) >= k
  }

  /** Once all N participants have entered their k-th wait, and until all have left
      it, one of those still inside can take a step that is not a spin. */
  lemma NobodyTrapped(s: State, k: nat) returns (t: nat)
    requires Inv(s) && AllEntered(s, k) && Work(s, k) > 0
    ensures t < |s.threads| && s.threads[t].waits < k
    ensures Enabled(s, t) && !Spinning(s, t)
  {
    t := SumWitness(Remaining(k), s.threads);
    assert LocalInv(s, t);
    if s.flips < k {
      forall u | 0 <= u < |s.threads| ensures s.threads[u].waits == s.flips && s.threads[u].pc != Outside {
        assert LocalInv(s, u) && Entered(s.threads[u]) >= k;
      }
      if s.lock.Some? {
        t := s.lock.value;
      } else {
        t := CountMissing(Arrived(s.flips), s.threads);
      }
      assert LocalInv(s, t);
    }
  }

  /** Each such step is one of finitely many, and no step of anybody else adds work:
      all N leave, however slow a spinner is to notice the flip. */
  lemma WorkDecreases(s: State, t: nat, k: nat)
    requires Inv(s) && Enabled(s, t) && AllEntered(s, k)
    ensures AllEntered(Apply(s, t), k)
    ensures s.threads[t].waits < k && !Spinning(s, t) ==> Work(Apply(s, t), k) < Work(s, k)
    ensures s.threads[t].waits >= k || Spinning(s, t) ==> Work(Apply(s, t), k) == Work(s, k)
  {
    var s' := Apply(s, t);
    SumUpdate(Remaining(k), s.threads, t, s'.threads[t]);
    assert s'.threads == s.threads[t := s'.threads[t]];
    assert Entered(s.threads[t]) >= k;
    forall u | 0 <= u < |s'.threads| ensures Entered(s'.threads[u]) >= k {
      assert Entered(s.threads[u]) >= k;
    }
  }

  // ----- liveness of infinite runs -----

  /** An infinite run under a weakly fair scheduler: a thread whose next access stays
      possible is eventually scheduled. */
  ghost predicate FairRun(run: nat -> State, sched: nat -> nat) {
    && Init(run(0))
    && (forall i: nat :: StepAt(run, sched, i))
    && forall i: nat, t: nat :: Scheduled(run, sched, i, t)
  }

  ghost predicate StepAt(run: nat -> State, sched: nat -> nat, i: nat) {
    Enabled(run(i), sched(i)) && run(i + 1) == Apply(run(i), sched(i))
  }

  ghost predicate Scheduled(run: nat -> State, sched: nat -> nat, i: nat, t: nat) {
    exists j: nat :: j >= i && (sched(j) == t || !Enabled(run(j), t))
  }

  lemma {:induction false} FairRunInv(run: nat -> State, sched: nat -> nat, i: nat)
    requires FairRun(run, sched)
    ensures Inv(run(i))
  {
    if i == 0 {
      InitInv(run(0));
    } else {
      FairRunInv(run, sched, i - 1);
      assert StepAt(run, sched, i - 1);
      StepInv(run(i - 1), sched(i - 1));
    }
  }

  predicate Helpful(s: State, t: nat, k: nat) {
    t < |s.threads| && s.threads[t].waits < k && Enabled(s, t) && !Spinning(s, t)
  }

  /** Another thread's step takes a useful step away from t only by being useful. */
  lemma HelpfulStays(s: State, t: nat, u: nat, k: nat)
    requires Inv(s) && AllEntered(s, k) && Helpful(s, t, k) && Enabled(s, u) && u != t
    ensures Helpful(Apply(s, u), t, k) || Work(Apply(s, u), k) < Work(s, k)
  {
    WorkDecreases(s, u, k);
    assert LocalInv(s, t) && LocalInv(s, u);
    if s.threads[u].pc == Flip {
      CountFull(Arrived(s.flips), s.threads, t);
    }
  }

  /** A useful step of t that stays possible until time j is taken, or beaten, by then. */
  lemma EventuallyTaken(run: nat -> State, sched: nat -> nat, i: nat, j: nat, t: nat, k: nat) returns (m: nat)
    requires FairRun(run, sched) && AllEntered(run(i), k) && Helpful(run(i), t, k)
    requires i <= j && (sched(j) == t || !Enabled(run(j), t))
    ensures m > i && AllEntered(run(m), k) && Work(run(m), k) < Work(run(i), k)
    decreases j - i
  {
    FairRunInv(run, sched, i);
    assert StepAt(run, sched, i);
    WorkDecreases(run(i), sched(i), k);
    m := i + 1;
    if sched(i) != t {
      HelpfulStays(run(i), t, sched(i), k);
      if Work(run(m), k) >= Work(run(i), k) {
        m := EventuallyTaken(run, sched, i + 1, j, t, k);
      }
    }
  }

  lemma EventuallyLess(run: nat -> State, sched: nat -> nat, i: nat, k: nat) returns (m: nat)
    requires FairRun(run, sched) && AllEntered(run(i), k) && Work(run(i), k) > 0
    ensures m > i && AllEntered(run(m), k) && Work(run(m), k) < Work(run(i), k)
  {
    FairRunInv(run, sched, i);
    var t := NobodyTrapped(run(i), k);
    assert Scheduled(run, sched, i, t);
    var j: nat :| j >= i && (sched(j) == t || !Enabled(run(j), t));
    m := EventuallyTaken(run, sched, i, j, t, k);
  }

  /** Once all N participants have entered their k-th wait, all N eventually return
      from it, in every weakly fair run and however often the fast ones go round. */
  lemma EveryWaitReturns(run: nat -> State, sched: nat -> nat, i: nat, k: nat) returns (m: nat)
    requires FairRun(run, sched) && AllEntered(run(i), k)
    ensures m >= i && forall t :: 0 <= t < |run(m).threads| ==> run(m).threads[t].waits >= k
    decreases Work(run(i), k)
  {
    if Work(run(i), k) == 0 {
      m := i;
      forall t | 0 <= t < |run(m).threads| ensures run(m).threads[t].waits >= k {
        SumTerm(Remaining(k), run(m).threads, t);
      }
    } else {
      var j := EventuallyLess(run, sched, i, k);
      m := EveryWaitReturns(run, sched, j, k);
    }
  }
}
