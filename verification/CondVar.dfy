/** The condition variable of m5threads/pthread.c: a flag that broadcast sets, a count
    of waiters raised under the user's mutex and lowered under a spin lock of its own,
    and a last waiter that clears the flag. */
module CondVar {
  import opened Counting
  import opened Specs

  datatype Pc =
    | Outside | Owner                          // the client, without and with the mutex
    | RaiseLoad | RaiseStore(n: int) | Release // pthread_cond_wait, mutex held
    | Spin                                     // polling the flag
    | WantCount | LowerLoad | LowerStore(n: int) | Test | Clear | DropCount
    | Relock                                   // waiting for the mutex again

  datatype State = State(flag: int, count: int, countLock: Option<nat>, mutex: Option<nat>, threads: seq<Pc>)

  datatype Event =
    | Lock(t: nat) | Unlock(t: nat)   // the client's own use of the mutex
    | StartWait(t: nat)               // pthread_cond_wait by the mutex owner
    | Broadcast(t: nat)               // pthread_cond_broadcast or pthread_cond_signal
    | Step(t: nat)                    // the next access of a waiting thread

  predicate Init(s: State) {
    && s.flag == 0 && s.count == 0 && s.countLock == None && s.mutex == None
    && forall t :: 0 <= t < |s.threads| ==> s.threads[t] == Outside
  }

  predicate Client(pc: Pc) { pc == Outside || pc == Owner }

  predicate Enabled(s: State, e: Event) {
    && e.t < |s.threads|
    && var pc := s.threads[e.t];
       match e
       case Lock(_) => pc == Outside && s.mutex == None
       case Unlock(_) => pc == Owner
       case StartWait(_) => pc == Owner
       case Broadcast(_) => Client(pc)
       case Step(_) => !Client(pc) && (pc == WantCount ==> s.countLock == None) && (pc == Relock ==> s.mutex == None)
  }

  function At(s: State, t: nat, pc: Pc): State
    requires t < |s.threads|
  {
    s.(threads := s.threads[t := pc])
  }

  function Apply(s: State, e: Event): State
    requires Enabled(s, e)
  {
    var t := e.t;
    match e
    case Lock(_) => At(s, t, Owner).(mutex := Some(t))
    case Unlock(_) => At(s, t, Outside).(mutex := None)
    case StartWait(_) => At(s, t, RaiseLoad)
    case Broadcast(_) => s.(flag := 1)
    case Step(_) =>
      match s.threads[t]
      case RaiseLoad => At(s, t, RaiseStore(s.count))
      case RaiseStore(n) => At(s, t, Release).(count := n + 1)
      case Release => At(s, t, Spin).(mutex := None)
      case Spin => At(s, t, if s.flag == 1 then WantCount else Spin)
      case WantCount => At(s, t, LowerLoad).(countLock := Some(t))
      case LowerLoad => At(s, t, LowerStore(s.count))
      case LowerStore(n) => At(s, t, Test).(count := n - 1)
      case Test => At(s, t, if s.count == 0 then Clear else DropCount)
      case Clear => At(s, t, DropCount).(flag := 0)
      case DropCount => At(s, t, Relock).(countLock := None)
      case Relock => At(s, t, Owner).(mutex := Some(t))
  }

  predicate HasMutex(pc: Pc) { pc == Owner || pc.RaiseLoad? || pc.RaiseStore? || pc.Release? }
  predicate HasCount(pc: Pc) { pc.LowerLoad? || pc.LowerStore? || pc.Test? || pc.Clear? || pc.DropCount? }

  predicate Locks(s: State) {
    && (s.mutex.Some? ==> s.mutex.value < |s.threads|)
    && (s.countLock.Some? ==> s.countLock.value < |s.threads|)
    && forall t :: 0 <= t < |s.threads| ==>
         (HasMutex(s.threads[t]) <==> s.mutex == Some(t)) && (HasCount(s.threads[t]) <==> s.countLock == Some(t))
  }

  /** Inside pthread_cond_wait, with the count raised and not yet lowered. */
  function Counted(): Pc -> bool {
    (pc: Pc) => pc.Release? || pc.Spin? || pc.WantCount? || pc.LowerLoad? || pc.LowerStore?
  }

  function Waiting(s: State): nat { CountIf(Counted(), s.threads) }

  predicate Entering(pc: Pc) { pc.RaiseLoad? || pc.RaiseStore? || pc.Release? }
  predicate Leaving(pc: Pc) { pc.WantCount? || HasCount(pc) || pc.Relock? }

  /** Waiters gather: nobody has been told to leave. */
  predicate Gathering(s: State) {
    && Locks(s) && s.flag == 0 && s.count == Waiting(s)
    && forall t :: 0 <= t < |s.threads| ==>
         !Leaving(s.threads[t]) && (s.threads[t].RaiseStore? ==> s.threads[t].n == s.count)
  }

  /** A broadcast was made with every waiter past the mutex release, and no wait or
      broadcast has begun since. `some`: it found at least one waiter. */
  predicate Draining(s: State, some: bool) {
    && Locks(s) && s.count == Waiting(s)
    && (s.flag == 1 || (s.flag == 0 && s.count == 0 && some))
    && (some && s.flag == 1 && s.count == 0 ==>
          s.countLock.Some? && (s.threads[s.countLock.value].Test? || s.threads[s.countLock.value].Clear?))
    && forall t :: 0 <= t < |s.threads| ==> DrainLocal(s, some, s.threads[t])
  }

  predicate DrainLocal(s: State, some: bool, pc: Pc) {
    && !Entering(pc)
    && (pc.LowerStore? ==> pc.n == s.count)
    && (pc.Clear? ==> s.count == 0)
    && (!Client(pc) ==> some)
  }

  predicate Drained(s: State) {
    forall t :: 0 <= t < |s.threads| ==> Client(s.threads[t])
  }

  // ----- gathering -----

  lemma InitGathering(s: State)
    requires Init(s)
    ensures Gathering(s)
  {
    CountNone(Counted(), s.threads);
  }

  lemma CountMoves(s: State, e: Event)
    requires Enabled(s, e)
    ensures Waiting(Apply(s, e)) + (if Counted()(s.threads[e.t]) then 1 else 0)
         == Waiting(s) + (if Counted()(Apply(s, e).threads[e.t]) then 1 else 0)
    ensures Apply(s, e).threads == s.threads[e.t := Apply(s, e).threads[e.t]]
  {
    var s' := Apply(s, e);
    assert s'.threads == s.threads[e.t := s'.threads[e.t]];
    CountUpdate(Counted(), s.threads, e.t, s'.threads[e.t]);
  }

  lemma KeepsLocks(s: State, e: Event)
    requires Locks(s) && Enabled(s, e)
    ensures Locks(Apply(s, e))
  {
    var s' := Apply(s, e);
    LocksOfOne(s, e);
    forall t | 0 <= t < |s'.threads|
      ensures (HasMutex(s'.threads[t]) <==> s'.mutex == Some(t)) && (HasCount(s'.threads[t]) <==> s'.countLock == Some(t))
    {
      assert HasMutex(s.threads[t]) <==> s.mutex == Some(t);
    }
  }

  /** A thread takes a free lock, drops its own, or leaves both as they are. */
  lemma LocksOfOne(s: State, e: Event)
    requires Locks(s) && Enabled(s, e)
    ensures
      var s', t := Apply(s, e), e.t;
      && s'.threads == s.threads[t := s'.threads[t]]
      && (s'.mutex == s.mutex || (s.mutex == None && s'.mutex == Some(t)) || (s.mutex == Some(t) && s'.mutex == None))
      && (s'.countLock == s.countLock || (s.countLock == None && s'.countLock == Some(t)) || (s.countLock == Some(t) && s'.countLock == None))
      && (HasMutex(s'.threads[t]) <==> s'.mutex == Some(t)) && (HasCount(s'.threads[t]) <==> s'.countLock == Some(t))
  {
    assert HasMutex(s.threads[e.t]) <==> s.mutex == Some(e.t);
    assert s.threads[e.t := s.threads[e.t]] == s.threads;
  }

  lemma GatherStep(s: State, e: Event)
    requires Gathering(s) && Enabled(s, e) && !e.Broadcast?
    ensures Gathering(Apply(s, e))
  {
    KeepsLocks(s, e);
    CountMoves(s, e);
  }

  /** The broadcast turns gathering into draining. */
  lemma BroadcastDrains(s: State, e: Event)
    requires Gathering(s) && Enabled(s, e) && e.Broadcast?
    requires forall t :: 0 <= t < |s.threads| ==> !Entering(s.threads[t])
    ensures Draining(Apply(s, e), s.count > 0)
  {
    forall t | 0 <= t < |s.threads| && !Client(s.threads[t]) ensures s.count > 0 {
      CountHas(Counted(), s.threads, t);
    }
  }

  // ----- draining -----

  lemma DrainOwn(s: State, e: Event, some: bool)
    requires Draining(s, some) && Enabled(s, e) && !e.StartWait? && !e.Broadcast?
    ensures DrainLocal(Apply(s, e), some, Apply(s, e).threads[e.t])
  {
    assert DrainLocal(s, some, s.threads[e.t]);
  }

  lemma DrainOther(s: State, e: Event, some: bool, u: nat)
    requires Draining(s, some) && Enabled(s, e) && !e.StartWait? && !e.Broadcast?
    requires u < |s.threads| && u != e.t
    ensures DrainLocal(Apply(s, e), some, s.threads[u])
  {
    assert DrainLocal(s, some, s.threads[u]) && DrainLocal(s, some, s.threads[e.t]);
  }

  lemma DrainCount(s: State, e: Event, some: bool)
    requires Draining(s, some) && Enabled(s, e) && !e.StartWait? && !e.Broadcast?
    ensures
      var s' := Apply(s, e);
      && s'.count == Waiting(s')
      && (s'.flag == 1 || (s'.flag == 0 && s'.count == 0 && some))
  {
    CountMoves(s, e);
    assert DrainLocal(s, some, s.threads[e.t]);
  }

  lemma DrainFlag(s: State, e: Event, some: bool)
    requires Draining(s, some) && Enabled(s, e) && !e.StartWait? && !e.Broadcast?
    ensures
      var s' := Apply(s, e);
      some && s'.flag == 1 && s'.count == 0 ==>
        && s'.countLock.Some? && s'.countLock.value < |s'.threads|
        && (s'.threads[s'.countLock.value].Test? || s'.threads[s'.countLock.value].Clear?)
  {
    assert DrainLocal(s, some, s.threads[e.t]);
  }

  lemma DrainStep(s: State, e: Event, some: bool)
    requires Draining(s, some) && Enabled(s, e) && !e.StartWait? && !e.Broadcast?
    ensures Draining(Apply(s, e), some)
  {
    var s' := Apply(s, e);
    KeepsLocks(s, e);
    DrainCount(s, e, some);
    DrainFlag(s, e, some);
    CountMoves(s, e);
    forall u | 0 <= u < |s'.threads| ensures DrainLocal(s', some, s'.threads[u]) {
      if u == e.t { DrainOwn(s, e, some); } else { DrainOther(s, e, some, u); }
    }
  }

  /** Accesses left to a released waiter. */
  function Remaining(): Pc -> nat {
    (pc: Pc) =>
      match pc
      case Spin => 8 case WantCount => 7 case LowerLoad => 6 case LowerStore(_) => 5 case Test => 4
      case Clear => 3 case DropCount => 2 case Relock => 1 case _ => 0
  }

  function Work(s: State): nat { Sum(Remaining(), s.threads) }

  /** While draining no waiter polls in vain: each of its accesses is progress, and the
      other threads' use of the mutex adds no work. */
  lemma DrainProgress(s: State, e: Event, some: bool)
    requires Draining(s, some) && Enabled(s, e) && !e.StartWait? && !e.Broadcast?
    ensures e.Step? ==> Work(Apply(s, e)) < Work(s)
    ensures !e.Step? ==> Work(Apply(s, e)) == Work(s)
  {
    assert DrainLocal(s, some, s.threads[e.t]);
    if s.threads[e.t].Spin? { CountHas(Counted(), s.threads, e.t); }
    CountMoves(s, e);
    SumUpdate(Remaining(), s.threads, e.t, Apply(s, e).threads[e.t]);
  }

  /** Until all waiters have returned, one of them can go on, or a client holds the
      mutex they must return with. */
  lemma DrainMoves(s: State, some: bool) returns (e: Event)
    requires Draining(s, some) && !Drained(s)
    ensures Enabled(s, e) && (e.Step? || (e.Unlock? && s.mutex == Some(e.t)))
  {
    if s.countLock.Some? {
      e := Step(s.countLock.value);
    } else if s.mutex.Some? {
      assert DrainLocal(s, some, s.threads[s.mutex.value]);
      e := Unlock(s.mutex.value);
    } else {
      var t :| 0 <= t < |s.threads| && !Client(s.threads[t]);
      assert DrainLocal(s, some, s.threads[t]);
      e := Step(t);
    }
  }

  predicate DrainRun(tr: seq<State>, events: seq<Event>, some: bool) {
    && |tr| == |events| + 1 && Draining(tr[0], some)
    && forall i {:trigger events[i]} :: 0 <= i < |events| ==>
         && !events[i].StartWait? && !events[i].Broadcast?
         && Enabled(tr[i], events[i]) && tr[i + 1] == Apply(tr[i], events[i])
  }

  lemma {:induction false} DrainRunInv(tr: seq<State>, events: seq<Event>, some: bool, i: nat)
    requires DrainRun(tr, events, some) && i < |tr|
    ensures Draining(tr[i], some) && |tr[i].threads| == |tr[0].threads|
    ensures Work(tr[i]) <= Work(tr[0])
  {
    if i > 0 {
      DrainRunInv(tr, events, some, i - 1);
      DrainNext(tr[i - 1], events[i - 1], some, tr[i]);
    }
  }

  lemma DrainNext(s: State, e: Event, some: bool, s': State)
    requires Draining(s, some) && Enabled(s, e) && !e.StartWait? && !e.Broadcast? && s' == Apply(s, e)
    ensures Draining(s', some) && |s'.threads| == |s.threads| && Work(s') <= Work(s)
  {
    DrainStep(s, e, some);
    DrainProgress(s, e, some);
    CountMoves(s, e);
  }

  /** The drain, over every interleaving in which no wait or broadcast begins: the flag
      is never cleared while a waiter still polls it; once all have returned the count
      is 0, the flag is 0 exactly when the broadcast found somebody waiting, and in
      that case the condition variable is ready for the next gathering. */
  lemma CondVarDrains(tr: seq<State>, events: seq<Event>, some: bool, i: nat)
    requires DrainRun(tr, events, some) && i < |tr|
    ensures |tr[i].threads| == |tr[0].threads|
    ensures forall t :: 0 <= t < |tr[i].threads| && tr[i].threads[t].Spin? ==> tr[i].flag == 1
    ensures Drained(tr[i]) ==> tr[i].count == 0 && (tr[i].flag == 0 <==> some)
    ensures Drained(tr[i]) && some ==> Gathering(tr[i])
  {
    DrainRunInv(tr, events, some, i);
    var s := tr[i];
    forall t | 0 <= t < |s.threads| && s.threads[t].Spin? ensures s.flag == 1 {
      CountHas(Counted(), s.threads, t);
    }
    if Drained(s) {
      CountNone(Counted(), s.threads);
    }
  }

  predicate IsStep(e: Event) { e.Step? }

  /** A drain takes finitely many accesses of its waiters, and stops only when all have
      returned or a client keeps the mutex. */
  lemma {:induction false} DrainEnds(tr: seq<State>, events: seq<Event>, some: bool, i: nat)
    requires DrainRun(tr, events, some) && i < |tr|
    ensures CountIf(IsStep, events[..i]) + Work(tr[i]) <= Work(tr[0])
    ensures (forall e :: Enabled(tr[i], e) ==> !e.Step? && !e.Unlock?) ==> Drained(tr[i])
  {
    DrainRunInv(tr, events, some, i);
    if (forall e :: Enabled(tr[i], e) ==> !e.Step? && !e.Unlock?) && !Drained(tr[i]) {
      var e := DrainMoves(tr[i], some);
      assert false;
    }
    if i > 0 {
      DrainRunInv(tr, events, some, i - 1);
      DrainEnds(tr, events, some, i - 1);
      DrainProgress(tr[i - 1], events[i - 1], some);
      CountSnoc(IsStep, events, i - 1);
    }
  }

  // ----- continuations -----

  predicate Path(s: State, events: seq<Event>, s': State)
    decreases events
  {
    if events == [] then s == s'
    else Enabled(s, events[0]) && Path(Apply(s, events[0]), events[1..], s')
  }

  /** No wait and no broadcast begins. */
  predicate Plain(events: seq<Event>) {
    forall i :: 0 <= i < |events| ==> !events[i].StartWait? && !events[i].Broadcast?
  }

  lemma PathStep(s: State, e: Event, events: seq<Event>, s': State)
    requires Enabled(s, e) && Path(Apply(s, e), events, s')
    ensures Path(s, [e] + events, s')
  {
    assert ([e] + events)[1..] == events;
  }

  lemma {:induction false} PathJoin(s: State, first: seq<Event>, m: State, second: seq<Event>, s': State)
    requires Path(s, first, m) && Path(m, second, s')
    ensures Path(s, first + second, s')
    decreases first
  {
    if first == [] {
      assert first + second == second;
    } else {
      PathJoin(Apply(s, first[0]), first[1..], m, second, s');
      assert (first + second)[1..] == first[1..] + second;
    }
  }

  lemma ThreeParts(s0: State, a: seq<Event>, s1: State, b: seq<Event>, s2: State, c: seq<Event>, s3: State)
    requires Path(s0, a, s1) && Path(s1, b, s2) && Path(s2, c, s3)
    ensures Path(s0, a + b + c, s3)
  {
    PathJoin(s0, a, s1, b, s2);
    var ab := a + b;
    PathJoin(s0, ab, s2, c, s3);
  }

  /** One wait of t begins in s, and then no other wait and no broadcast. */
  predicate Continues(s: State, t: nat, events: seq<Event>, s': State) {
    Enabled(s, StartWait(t)) && Plain(events) && Path(Apply(s, StartWait(t)), events, s')
  }

  /** A waiter other than t polls a cleared flag. */
  predicate Stranded(s: State, t: nat) {
    s.flag != 1 && exists u :: 0 <= u < |s.threads| && u != t && s.threads[u].Spin?
  }

  /** No waiter but t polls a cleared flag, and when all have returned nothing is left over. */
  predicate Healthy(s: State, t: nat) {
    !Stranded(s, t) && (Drained(s) ==> s.count == 0 && s.flag == 0)
  }

  // ----- a late wait with count 0 does no harm -----

  /** Past lowering the count. */
  predicate Lowered(pc: Pc) { Client(pc) || pc.Test? || pc.Clear? || pc.DropCount? || pc.Relock? }

  /** Only t is still counted; a flag that is set will be cleared, by t if by nobody else. */
  predicate Tail(s: State, t: nat) {
    && t < |s.threads| && Locks(s) && (s.flag == 0 || s.flag == 1)
    && s.count == (if Counted()(s.threads[t]) then 1 else 0)
    && (s.threads[t].RaiseStore? ==> s.threads[t].n == s.count)
    && (s.threads[t].LowerStore? ==> s.threads[t].n == s.count)
    && (s.flag == 1 && !Counted()(s.threads[t]) ==> ToClear(s))
    && forall u :: 0 <= u < |s.threads| && u != t ==> Lowered(s.threads[u])
  }

  /** The holder of the count lock is about to find the count 0, or has. */
  predicate ToClear(s: State) {
    && s.countLock.Some? && s.countLock.value < |s.threads|
    && (s.threads[s.countLock.value].Test? || s.threads[s.countLock.value].Clear?)
  }

  lemma TailStart(s: State, t: nat)
    requires Draining(s, true) && s.count == 0 && Enabled(s, StartWait(t))
    ensures Tail(Apply(s, StartWait(t)), t)
  {
    var s' := Apply(s, StartWait(t));
    KeepsLocks(s, StartWait(t));
    forall u | 0 <= u < |s.threads| && u != t ensures Lowered(s'.threads[u]) {
      assert DrainLocal(s, true, s.threads[u]);
      if Counted()(s.threads[u]) { CountHas(Counted(), s.threads, u); }
    }
  }

  lemma TailStep(s: State, t: nat, e: Event)
    requires Tail(s, t) && Enabled(s, e) && !e.StartWait? && !e.Broadcast?
    ensures Tail(Apply(s, e), t)
  {
    KeepsLocks(s, e);
    if e.t == t { TailOwn(s, t, e); } else { TailOther(s, t, e); }
  }

  lemma TailOwn(s: State, t: nat, e: Event)
    requires Tail(s, t) && Enabled(s, e) && !e.StartWait? && !e.Broadcast? && e.t == t && Locks(Apply(s, e))
    ensures Tail(Apply(s, e), t)
  {
    match s.threads[t]
    case RaiseStore(_) =>
    case LowerStore(_) =>
    case Test =>
    case Clear =>
    case Spin =>
    case _ =>
  }

  lemma TailOther(s: State, t: nat, e: Event)
    requires Tail(s, t) && Enabled(s, e) && !e.StartWait? && !e.Broadcast? && e.t != t && Locks(Apply(s, e))
    ensures Tail(Apply(s, e), t)
  {
    assert Lowered(s.threads[e.t]);
    match s.threads[e.t]
    case Test =>
    case Clear =>
    case DropCount =>
    case _ =>
  }

  lemma {:induction false} TailPath(s: State, t: nat, events: seq<Event>, s': State)
    requires Tail(s, t) && Plain(events) && Path(s, events, s')
    ensures Tail(s', t)
    decreases events
  {
    if events != [] {
      TailStep(s, t, events[0]);
      TailPath(Apply(s, events[0]), t, events[1..], s');
    }
  }

  // ----- nor one with at most one poller and count 1 -----

  /** While u polls, nobody can bring the count to 0. */
  predicate Lone(s: State, t: nat, u: nat) {
    && t < |s.threads| && u < |s.threads| && t != u && Locks(s) && s.flag == 1 && s.threads[u].Spin?
    && s.count == (if Counted()(s.threads[t]) then 2 else 1)
    && (s.threads[t].RaiseStore? ==> s.threads[t].n == s.count)
    && (s.threads[t].LowerStore? ==> s.threads[t].n == s.count)
    && !s.threads[t].Clear?
    && forall v :: 0 <= v < |s.threads| && v != t && v != u ==> Lowered(s.threads[v]) && !s.threads[v].Clear?
  }

  /** Nobody but t polls, or is going to. */
  predicate NoPoller(s: State, t: nat) {
    forall v :: 0 <= v < |s.threads| && v != t ==> !s.threads[v].Spin? && !Entering(s.threads[v])
  }

  lemma LoneStart(s: State, t: nat, u: nat)
    requires Draining(s, true) && s.count == 1 && Enabled(s, StartWait(t)) && u < |s.threads| && s.threads[u].Spin?
    ensures Lone(Apply(s, StartWait(t)), t, u)
  {
    var s' := Apply(s, StartWait(t));
    KeepsLocks(s, StartWait(t));
    forall v | 0 <= v < |s.threads| && v != t && v != u ensures Lowered(s'.threads[v]) && !s'.threads[v].Clear? {
      assert DrainLocal(s, true, s.threads[v]);
      if Counted()(s.threads[v]) {
        if u < v { CountHasTwo(Counted(), s.threads, u, v); } else { CountHasTwo(Counted(), s.threads, v, u); }
      }
    }
  }

  lemma LoneStep(s: State, t: nat, u: nat, e: Event)
    requires Lone(s, t, u) && Enabled(s, e) && !e.StartWait? && !e.Broadcast?
    ensures if e.t == u then NoPoller(Apply(s, e), t) else Lone(Apply(s, e), t, u)
  {
    if e.t != u {
      KeepsLocks(s, e);
      if e.t == t { LoneOwn(s, t, u, e); } else { LoneOther(s, t, u, e); }
    }
  }

  lemma LoneOwn(s: State, t: nat, u: nat, e: Event)
    requires Lone(s, t, u) && Enabled(s, e) && !e.StartWait? && !e.Broadcast? && e.t == t && Locks(Apply(s, e))
    ensures Lone(Apply(s, e), t, u)
  {
  }

  lemma LoneOther(s: State, t: nat, u: nat, e: Event)
    requires Lone(s, t, u) && Enabled(s, e) && !e.StartWait? && !e.Broadcast? && Locks(Apply(s, e))
    requires e.t != t && e.t != u
    ensures Lone(Apply(s, e), t, u)
  {
    assert Lowered(s.threads[e.t]);
    match s.threads[e.t]
    case Test =>
    case DropCount =>
    case _ =>
  }

  lemma {:induction false} PollerPath(s: State, t: nat, u: nat, events: seq<Event>, s': State)
    requires (Lone(s, t, u) || NoPoller(s, t)) && Plain(events) && Path(s, events, s')
    ensures !Stranded(s', t)
    decreases events
  {
    if events != [] {
      if Lone(s, t, u) { LoneStep(s, t, u, events[0]); }
      PollerPath(Apply(s, events[0]), t, u, events[1..], s');
    }
  }

  // ----- but one that races with a waiter lowering the count does -----

  /** t has begun to wait while others are still to lower the count. */
  predicate Racing(s: State, t: nat) {
    && t < |s.threads| && s.threads[t].RaiseLoad?
    && Locks(s) && s.flag == 1 && s.count == Waiting(s) > 0
    && forall u :: 0 <= u < |s.threads| && u != t ==> DrainLocal(s, true, s.threads[u])
  }

  lemma RacingStart(s: State, t: nat)
    requires Draining(s, true) && s.count > 0 && Enabled(s, StartWait(t))
    ensures Racing(Apply(s, StartWait(t)), t) && Apply(s, StartWait(t)).count == s.count
  {
    KeepsLocks(s, StartWait(t));
    CountMoves(s, StartWait(t));
  }

  /** Any access before the next store to the count. */
  lemma RacingStep(s: State, t: nat, w: nat)
    requires Racing(s, t) && Enabled(s, Step(w)) && w != t && !s.threads[w].LowerStore? && !s.threads[w].Relock?
    ensures Racing(Apply(s, Step(w)), t) && Apply(s, Step(w)).count == s.count
    ensures Work(Apply(s, Step(w))) < Work(s)
  {
    KeepsLocks(s, Step(w));
    CountMoves(s, Step(w));
    assert DrainLocal(s, true, s.threads[w]);
    SumUpdate(Remaining(), s.threads, w, Apply(s, Step(w)).threads[w]);
  }

  /** Some waiter but `avoid` can be brought to the point of lowering the count. */
  lemma {:induction false} ReachLower(s: State, t: nat, avoid: nat) returns (x: nat, events: seq<Event>, s': State)
    requires Racing(s, t) && avoid < |s.threads| && (avoid == t || s.threads[avoid].Spin?)
    requires Waiting(s) > if avoid == t then 0 else 1
    ensures Path(s, events, s') && Plain(events) && Racing(s', t) && s'.count == s.count
    ensures |s'.threads| == |s.threads| && s'.threads[avoid] == s.threads[avoid]
    ensures x < |s'.threads| && x != t && x != avoid && s'.threads[x].LowerStore?
    decreases Work(s)
  {
    x := NextLower(s, t, avoid);
    if s.threads[x].LowerStore? {
      events, s' := [], s;
    } else {
      RacingStep(s, t, x);
      var e, m := Step(x), Apply(s, Step(x));
      CountMoves(s, e);
      x, events, s' := ReachLower(m, t, avoid);
      PathStep(s, e, events, s');
      events := [e] + events;
    }
  }

  /** The holder of the count lock, or a waiter on its way to it. */
  lemma NextLower(s: State, t: nat, avoid: nat) returns (x: nat)
    requires Racing(s, t) && avoid < |s.threads| && (avoid == t || s.threads[avoid].Spin?)
    requires Waiting(s) > if avoid == t then 0 else 1
    ensures x < |s.threads| && x != t && x != avoid && Enabled(s, Step(x)) && !s.threads[x].Relock?
  {
    if s.countLock.Some? {
      x := s.countLock.value;
    } else {
      x := OtherWitness(Counted(), s.threads, avoid);
      assert DrainLocal(s, true, s.threads[x]);
    }
  }

  /** t raises the count by what it read before x lowered it: one too many. */
  lemma RaiseTooHigh(s: State, t: nat, x: nat) returns (events: seq<Event>, s': State)
    requires Racing(s, t) && x < |s.threads| && x != t && s.threads[x].LowerStore?
    ensures Path(s, events, s') && Plain(events) && TooHigh(s')
  {
    assert DrainLocal(s, true, s.threads[x]);
    events, s' := StoreBeforeRaise(s, t, x);
    SwapCounts(s, s', t, x);
  }

  lemma StoreBeforeRaise(s: State, t: nat, x: nat) returns (events: seq<Event>, s': State)
    requires Locks(s) && t < |s.threads| && s.threads[t] == RaiseLoad
    requires x < |s.threads| && x != t && s.threads[x] == LowerStore(s.count)
    ensures Path(s, events, s') && Plain(events) && Locks(s')
    ensures s' == s.(count := s.count + 1, mutex := None, threads := s.threads[x := Test][t := Spin])
  {
    var c, swapped := s.count, s.threads[x := Test];
    s' := s.(count := c + 1, mutex := None, threads := swapped[t := Spin]);
    events := [Step(t), Step(x), Step(t), Step(t)];
    assert s.threads[t := RaiseStore(c)][x := Test] == swapped[t := RaiseStore(c)];
    FourSteps(s, events, s.(threads := s.threads[t := RaiseStore(c)]),
              s.(count := c - 1, threads := swapped[t := RaiseStore(c)]),
              s.(count := c + 1, threads := swapped[t := Release]), s');
  }

  /** x lowers the count by what it read before t raised it: one too few. */
  lemma LowerTooFar(s: State, t: nat, x: nat, u: nat) returns (events: seq<Event>, s': State)
    requires Racing(s, t) && x < |s.threads| && x != t && s.threads[x].LowerStore?
    requires u < |s.threads| && u != t && s.threads[u].Spin?
    ensures Path(s, events, s') && Plain(events) && TooLow(s', u)
  {
    assert DrainLocal(s, true, s.threads[x]);
    events, s' := RaiseBeforeStore(s, t, x);
    SwapCounts(s, s', t, x);
  }

  lemma RaiseBeforeStore(s: State, t: nat, x: nat) returns (events: seq<Event>, s': State)
    requires Locks(s) && t < |s.threads| && s.threads[t] == RaiseLoad
    requires x < |s.threads| && x != t && s.threads[x] == LowerStore(s.count)
    ensures Path(s, events, s') && Plain(events) && Locks(s')
    ensures s' == s.(count := s.count - 1, mutex := None, threads := s.threads[x := Test][t := Spin])
  {
    var c, swapped := s.count, s.threads[x := Test];
    s' := s.(count := c - 1, mutex := None, threads := swapped[t := Spin]);
    events := [Step(t), Step(t), Step(x), Step(t)];
    assert s.threads[t := Release][x := Test] == swapped[t := Release];
    FourSteps(s, events, s.(threads := s.threads[t := RaiseStore(c)]),
              s.(count := c + 1, threads := s.threads[t := Release]),
              s.(count := c - 1, threads := swapped[t := Release]), s');
  }

  lemma FourSteps(s: State, events: seq<Event>, s1: State, s2: State, s3: State, s4: State)
    requires |events| == 4
    requires Enabled(s, events[0]) && s1 == Apply(s, events[0]) && Enabled(s1, events[1]) && s2 == Apply(s1, events[1])
    requires Enabled(s2, events[2]) && s3 == Apply(s2, events[2]) && Enabled(s3, events[3]) && s4 == Apply(s3, events[3])
    ensures Path(s, events, s4)
  {
    PathStep(s3, events[3], [], s4);
    PathStep(s2, events[2], [events[3]], s4);
    PathStep(s1, events[1], [events[2]] + [events[3]], s4);
    PathStep(s, events[0], [events[1]] + ([events[2]] + [events[3]]), s4);
    assert events == [events[0]] + ([events[1]] + ([events[2]] + [events[3]])) && [events[3]] == [events[3]] + [];
  }

  /** x is no longer counted and t is. */
  lemma SwapCounts(s: State, s': State, t: nat, x: nat)
    requires t < |s.threads| && x < |s.threads| && x != t && Counted()(s.threads[x]) && !Counted()(s.threads[t])
    requires s'.threads == s.threads[x := Test][t := Spin]
    ensures Waiting(s') == Waiting(s)
  {
    CountUpdate(Counted(), s.threads, x, Test);
    CountUpdate(Counted(), s.threads[x := Test], t, Spin);
  }

  /** All the waiters are told to leave, but the count will never reach 0. */
  predicate TooHigh(s: State) {
    && Locks(s) && s.flag == 1 && s.count == Waiting(s) + 1
    && forall u :: 0 <= u < |s.threads| ==> LeavesCounted(s, s.threads[u]) && !s.threads[u].Clear?
  }

  /** The count reaches 0 while one waiter, u, still polls. */
  predicate TooLow(s: State, u: nat) {
    && Locks(s) && s.flag == 1 && s.count == Waiting(s) - 1 && u < |s.threads| && s.threads[u].Spin?
    && (s.count == 0 ==> ToClear(s))
    && forall v :: 0 <= v < |s.threads| ==> LeavesCounted(s, s.threads[v]) && (s.threads[v].Clear? ==> s.count == 0)
  }

  predicate LeavesCounted(s: State, pc: Pc) { !Entering(pc) && (pc.LowerStore? ==> pc.n == s.count) }

  lemma TooHighStep(s: State, e: Event)
    requires TooHigh(s) && Enabled(s, e) && (e.Step? || e.Unlock?)
    ensures TooHigh(Apply(s, e))
    ensures if e.Step? then Work(Apply(s, e)) < Work(s) else Work(Apply(s, e)) == Work(s) && Apply(s, e).mutex == None
  {
    KeepsLocks(s, e);
    CountMoves(s, e);
    assert LeavesCounted(s, s.threads[e.t]);
    SumUpdate(Remaining(), s.threads, e.t, Apply(s, e).threads[e.t]);
  }

  lemma TooHighMoves(s: State) returns (e: Event)
    requires TooHigh(s) && !Drained(s)
    ensures Enabled(s, e) && (e.Step? || (e.Unlock? && s.mutex.Some?))
  {
    if s.countLock.Some? {
      e := Step(s.countLock.value);
    } else if s.mutex.Some? {
      assert LeavesCounted(s, s.threads[s.mutex.value]);
      e := Unlock(s.mutex.value);
    } else {
      var t :| 0 <= t < |s.threads| && !Client(s.threads[t]);
      assert LeavesCounted(s, s.threads[t]);
      e := Step(t);
    }
  }

  /** All return, and leave a count of 1 and a set flag behind. */
  lemma {:induction false} EndsTooHigh(s: State) returns (events: seq<Event>, s': State)
    requires TooHigh(s)
    ensures Path(s, events, s') && Plain(events) && Drained(s') && s'.count == 1 && s'.flag == 1
    decreases Work(s), if s.mutex.Some? then 1 else 0
  {
    if Drained(s) {
      CountNone(Counted(), s.threads);
      events, s' := [], s;
    } else {
      var e := TooHighMoves(s);
      TooHighStep(s, e);
      events, s' := EndsTooHigh(Apply(s, e));
      PathStep(s, e, events, s');
      events := [e] + events;
    }
  }

  lemma TooLowStep(s: State, u: nat, w: nat)
    requires TooLow(s, u) && w != u && Enabled(s, Step(w)) && !s.threads[w].Clear? && !s.threads[w].Relock?
    ensures TooLow(Apply(s, Step(w)), u) && Work(Apply(s, Step(w))) < Work(s)
  {
    KeepsLocks(s, Step(w));
    CountMoves(s, Step(w));
    assert LeavesCounted(s, s.threads[w]);
    SumUpdate(Remaining(), s.threads, w, Apply(s, Step(w)).threads[w]);
  }

  lemma TooLowMoves(s: State, u: nat) returns (w: nat)
    requires TooLow(s, u)
    ensures w != u && Enabled(s, Step(w)) && !s.threads[w].Relock?
  {
    if s.countLock.Some? {
      w := s.countLock.value;
    } else {
      CountHas(Counted(), s.threads, u);
      w := OtherWitness(Counted(), s.threads, u);
      assert LeavesCounted(s, s.threads[w]);
    }
  }

  /** The flag is cleared and u still polls. */
  lemma {:induction false} EndsTooLow(s: State, u: nat) returns (events: seq<Event>, s': State)
    requires TooLow(s, u)
    ensures Path(s, events, s') && Plain(events) && s'.flag == 0 && u < |s'.threads| && s'.threads[u].Spin?
    decreases Work(s)
  {
    var w := TooLowMoves(s, u);
    var e, m := Step(w), Apply(s, Step(w));
    if s.threads[w].Clear? {
      events, s' := [], m;
    } else {
      TooLowStep(s, u, w);
      events, s' := EndsTooLow(m, u);
    }
    PathStep(s, e, events, s');
    events := [e] + events;
  }

  // ----- exactly when a late wait is harmless -----

  lemma LateWaitBreaks(s: State, t: nat) returns (events: seq<Event>, s': State)
    requires Draining(s, true) && Enabled(s, StartWait(t)) && s.count > 0
    ensures Continues(s, t, events, s') && Drained(s') && s'.count == 1 && s'.flag == 1
  {
    RacingStart(s, t);
    var s0 := Apply(s, StartWait(t));
    var x, a, s1 := ReachLower(s0, t, t);
    var b, s2 := RaiseTooHigh(s1, t, x);
    var c, s3 := EndsTooHigh(s2);
    ThreeParts(s0, a, s1, b, s2, c, s3);
    events, s' := a + b + c, s3;
  }

  lemma LateWaitStrandsWaiter(s: State, t: nat, u: nat) returns (events: seq<Event>, s': State)
    requires Draining(s, true) && Enabled(s, StartWait(t)) && s.count >= 2 && u < |s.threads| && s.threads[u].Spin?
    ensures Continues(s, t, events, s') && s'.flag == 0 && u < |s'.threads| && s'.threads[u].Spin?
  {
    RacingStart(s, t);
    var s0 := Apply(s, StartWait(t));
    var x, a, s1 := ReachLower(s0, t, u);
    var b, s2 := LowerTooFar(s1, t, x, u);
    var c, s3 := EndsTooLow(s2, u);
    ThreeParts(s0, a, s1, b, s2, c, s3);
    events, s' := a + b + c, s3;
  }

  /** A wait that begins during the drain leaves the pollers their flag and nothing behind
      it, in every continuation without further waits and broadcasts, if and only if the
      count is 0 when it begins. */
  lemma LateWaitHarmless(s: State, t: nat)
    requires Draining(s, true) && Enabled(s, StartWait(t))
    ensures (forall events, s' :: Continues(s, t, events, s') ==> Healthy(s', t)) <==> s.count == 0
  {
    if s.count == 0 {
      TailStart(s, t);
      forall events, s' | Continues(s, t, events, s') ensures Healthy(s', t) {
        TailPath(Apply(s, StartWait(t)), t, events, s');
      }
    } else {
      var events, s' := LateWaitBreaks(s, t);
    }
  }

  /** It can leave a waiter that was polling at the broadcast on a cleared flag if and only
      if one still polls and the count is 2 or more. */
  lemma LateWaitStrands(s: State, t: nat)
    requires Draining(s, true) && Enabled(s, StartWait(t))
    ensures (exists events, s' :: Continues(s, t, events, s') && Stranded(s', t)) <==>
            s.count >= 2 && exists u :: 0 <= u < |s.threads| && s.threads[u].Spin?
  {
    if s.count >= 2 && exists u :: 0 <= u < |s.threads| && s.threads[u].Spin? {
      var u :| 0 <= u < |s.threads| && s.threads[u].Spin?;
      var events, s' := LateWaitStrandsWaiter(s, t, u);
      assert Stranded(s', t);
    } else {
      forall events, s' | Continues(s, t, events, s') ensures !Stranded(s', t) {
        LateWaitStrandsNobody(s, t, events, s');
      }
    }
  }

  lemma LateWaitStrandsNobody(s: State, t: nat, events: seq<Event>, s': State)
    requires Draining(s, true) && Enabled(s, StartWait(t)) && Continues(s, t, events, s')
    requires s.count < 2 || forall u :: 0 <= u < |s.threads| ==> !s.threads[u].Spin?
    ensures !Stranded(s', t)
  {
    var s0 := Apply(s, StartWait(t));
    if exists u :: 0 <= u < |s.threads| && s.threads[u].Spin? {
      var u :| 0 <= u < |s.threads| && s.threads[u].Spin?;
      CountHas(Counted(), s.threads, u);
      LoneStart(s, t, u);
      PollerPath(s0, t, u, events, s');
    } else {
      forall v | 0 <= v < |s0.threads| && v != t ensures !s0.threads[v].Spin? && !Entering(s0.threads[v]) {
        assert DrainLocal(s, true, s.threads[v]);
      }
      PollerPath(s0, t, t, events, s');
    }
  }

  // ----- a run that loses a wake-up -----

  /** A client takes the mutex and waits until it polls. */
  lemma Enters(s: State, t: nat) returns (events: seq<Event>)
    requires t < |s.threads| && s.threads[t] == Outside && s.mutex == None
    ensures Path(s, events, s.(count := s.count + 1, threads := s.threads[t := Spin]))
    ensures forall i :: 0 <= i < |events| ==> !events[i].Broadcast?
  {
    var s' := s.(count := s.count + 1, threads := s.threads[t := Spin]);
    var s0 := s.(mutex := Some(t), threads := s.threads[t := Owner]);
    var s1 := s0.(threads := s.threads[t := RaiseLoad]);
    events := [StartWait(t), Step(t), Step(t), Step(t)];
    FourSteps(s0, events, s1, s0.(threads := s.threads[t := RaiseStore(s.count)]),
              s0.(count := s.count + 1, threads := s.threads[t := Release]), s');
    PathStep(s, Lock(t), events, s');
    events := [Lock(t)] + events;
  }

  lemma FirstTwoWait() returns (events: seq<Event>)
    ensures Path(State(0, 0, None, None, [Outside, Outside, Outside]), events, State(0, 2, None, Some(2), [Spin, Spin, Owner]))
    ensures forall i :: 0 <= i < |events| ==> !events[i].Broadcast?
  {
    var s0 := State(0, 0, None, None, [Outside, Outside, Outside]);
    var s1 := State(0, 1, None, None, [Spin, Outside, Outside]);
    var s2 := State(0, 2, None, None, [Spin, Spin, Outside]);
    var s3 := State(0, 2, None, Some(2), [Spin, Spin, Owner]);
    var a := Enters(s0, 0);
    var b := Enters(s1, 1);
    assert s0.threads[0 := Spin] == s1.threads && s1.threads[1 := Spin] == s2.threads && s2.threads[2 := Owner] == s3.threads;
    PathJoin(s0, a, s1, b, s2);
    PathStep(s2, Lock(2), [], s3);
    PathJoin(s0, a + b, s2, [Lock(2)] + [], s3);
    events := a + b + ([Lock(2)] + []);
  }

  lemma TwoPoll(s: State)
    requires s == State(1, 2, None, Some(2), [Spin, Spin, Owner])
    ensures Draining(s, true)
  {
    assert s.threads[1..] == [Spin, Owner] && s.threads[1..][1..] == [Owner];
    assert DrainLocal(s, true, Spin) && DrainLocal(s, true, Owner);
  }

  /** A run from the initialised condition variable with one broadcast, made while threads
      0 and 1 poll: a wait by thread 2 then leaves thread 0 polling a cleared flag. */
  lemma LateWaitLosesWakeup() returns (before: seq<Event>, b: State, late: seq<Event>, s': State)
    ensures Init(State(0, 0, None, None, [Outside, Outside, Outside]))
    ensures Path(State(0, 0, None, None, [Outside, Outside, Outside]), before, b) && b.threads == [Spin, Spin, Owner]
    ensures Path(b, [Broadcast(2)] + ([StartWait(2)] + late), s')
    ensures (forall i :: 0 <= i < |before| ==> !before[i].Broadcast?) && Plain(late)
    ensures s'.flag == 0 && |s'.threads| > 0 && s'.threads[0].Spin?
  {
    before := FirstTwoWait();
    b := State(0, 2, None, Some(2), [Spin, Spin, Owner]);
    var d := Apply(b, Broadcast(2));
    TwoPoll(d);
    late, s' := LateWaitStrandsWaiter(d, 2, 0);
    PathStep(d, StartWait(2), late, s');
    PathStep(b, Broadcast(2), [StartWait(2)] + late, s');
  }

  // ----- disciplined clients -----

  /** Nobody is on the way out of a wait, and no flag is left over. */
  predicate Quiet(s: State) {
    s.flag == 0 && forall t :: 0 <= t < |s.threads| ==> !Leaving(s.threads[t])
  }

  /** The client starts waits while all is quiet or nobody is counted, and broadcasts while
      all is quiet, with somebody waiting and every waiter past the mutex release. */
  predicate Disciplined(s: State, e: Event) {
    && (e.StartWait? ==> Quiet(s) || s.count == 0)
    && (e.Broadcast? ==>
          && Quiet(s) && (forall t :: 0 <= t < |s.threads| ==> !Entering(s.threads[t]))
          && exists t :: 0 <= t < |s.threads| && s.threads[t].Spin?)
  }

  predicate Run(tr: seq<State>, events: seq<Event>) {
    && |tr| == |events| + 1 && Init(tr[0])
    && forall i {:trigger events[i]} :: 0 <= i < |events| ==>
         Disciplined(tr[i], events[i]) && Enabled(tr[i], events[i]) && tr[i + 1] == Apply(tr[i], events[i])
  }

  /** A gathering, a drain, or the tail of a drain with a new waiter. */
  ghost predicate Phase(s: State) { Gathering(s) || Draining(s, true) || exists t :: Tail(s, t) }

  lemma QuietGathers(s: State)
    requires Phase(s) && Quiet(s)
    ensures Gathering(s)
  {
    if Draining(s, true) {
      forall t | 0 <= t < |s.threads| ensures Client(s.threads[t]) {
        assert DrainLocal(s, true, s.threads[t]);
        if s.threads[t].Spin? { CountHas(Counted(), s.threads, t); }
      }
    } else if !Gathering(s) {
      var t :| Tail(s, t);
      CountOnly(Counted(), s.threads, t);
    }
  }

  /** A wait that begins with count 0 starts a tail. */
  lemma TailBegins(s: State, e: Event)
    requires Phase(s) && !Gathering(s) && Enabled(s, e) && e.StartWait? && s.count == 0
    ensures Tail(Apply(s, e), e.t)
  {
    if Draining(s, true) {
      TailStart(s, e.t);
    } else {
      var t :| Tail(s, t);
      KeepsLocks(s, e);
      forall u | 0 <= u < |s.threads| && u != e.t ensures Lowered(Apply(s, e).threads[u]) {
        assert HasMutex(s.threads[u]) <==> s.mutex == Some(u);
      }
    }
  }

  lemma PhaseStep(s: State, e: Event)
    requires Phase(s) && Enabled(s, e) && Disciplined(s, e)
    ensures Phase(Apply(s, e))
  {
    if e.Broadcast? {
      BroadcastStep(s, e);
    } else if Gathering(s) {
      GatherStep(s, e);
    } else {
      if e.StartWait? { LateStart(s, e); }
      LeavingStep(s, e);
    }
  }

  lemma LateStart(s: State, e: Event)
    requires Phase(s) && !Gathering(s) && Disciplined(s, e) && e.StartWait?
    ensures s.count == 0
  {
    if Quiet(s) { QuietGathers(s); }
  }

  lemma BroadcastStep(s: State, e: Event)
    requires Phase(s) && Enabled(s, e) && Disciplined(s, e) && e.Broadcast?
    ensures Draining(Apply(s, e), true)
  {
    QuietGathers(s);
    var t :| 0 <= t < |s.threads| && s.threads[t].Spin?;
    CountHas(Counted(), s.threads, t);
    BroadcastDrains(s, e);
  }

  lemma LeavingStep(s: State, e: Event)
    requires Phase(s) && !Gathering(s) && Enabled(s, e) && !e.Broadcast? && (e.StartWait? ==> s.count == 0)
    ensures Phase(Apply(s, e))
  {
    if e.StartWait? {
      TailBegins(s, e);
    } else if Draining(s, true) {
      DrainStep(s, e, true);
    } else {
      var t :| Tail(s, t);
      TailStep(s, t, e);
    }
  }

  /** Every reachable state of a disciplined run, over any number of rounds, is a
      gathering, a drain or the tail of one. */
  lemma {:induction false} RunPhases(tr: seq<State>, events: seq<Event>, i: nat)
    requires Run(tr, events) && i < |tr|
    ensures Phase(tr[i]) && |tr[i].threads| == |tr[0].threads|
  {
    if i == 0 {
      InitGathering(tr[0]);
    } else {
      var s, e := tr[i - 1], events[i - 1];
      RunPhases(tr, events, i - 1);
      PhaseStep(s, e);
      CountMoves(s, e);
      assert tr[i] == Apply(s, e);
    }
  }

  /** No lost wake-up for disciplined clients: a waiter that polls when a broadcast is
      made finds the flag set whenever it next looks, however late that is. */
  lemma {:induction false} BroadcastReachesWaiter(tr: seq<State>, events: seq<Event>, i: nat, j: nat, t: nat)
    requires Run(tr, events) && i < j < |tr| && t < |tr[0].threads|
    requires events[i].Broadcast?
    requires forall m :: i <= m <= j ==> t < |tr[m].threads| && tr[m].threads[t].Spin?
    ensures Draining(tr[j], true) && tr[j].flag == 1 && tr[j].count > 0
  {
    var s, e, s' := tr[j - 1], events[j - 1], tr[j];
    assert s'.threads[t].Spin? && Disciplined(s, e) && Enabled(s, e) && s' == Apply(s, e);
    if j - 1 == i {
      RunPhases(tr, events, i);
      BroadcastStep(s, e);
    } else {
      BroadcastReachesWaiter(tr, events, i, j - 1, t);
      DrainStep(s, e, true);
    }
    CountHas(Counted(), s'.threads, t);
  }

  /** And nothing is left over: when all have returned, count and flag are 0. */
  lemma NothingLeftOver(tr: seq<State>, events: seq<Event>, i: nat)
    requires Run(tr, events) && i < |tr| && Drained(tr[i])
    ensures tr[i].count == 0 && tr[i].flag == 0
  {
    RunPhases(tr, events, i);
    CountNone(Counted(), tr[i].threads);
  }

  // ----- the mutex around a wait -----

  /** Any interleaving of any clients. */
  predicate AnyRun(tr: seq<State>, events: seq<Event>) {
    && |tr| == |events| + 1 && Init(tr[0])
    && forall i {:trigger events[i]} :: 0 <= i < |events| ==> Enabled(tr[i], events[i]) && tr[i + 1] == Apply(tr[i], events[i])
  }

  lemma {:induction false} AnyRunLocks(tr: seq<State>, events: seq<Event>, i: nat)
    requires AnyRun(tr, events) && i < |tr|
    ensures Locks(tr[i]) && |tr[i].threads| == |tr[0].threads|
  {
    if i > 0 {
      AnyRunLocks(tr, events, i - 1);
      KeepsLocks(tr[i - 1], events[i - 1]);
      CountMoves(tr[i - 1], events[i - 1]);
      assert tr[i] == Apply(tr[i - 1], events[i - 1]);
    }
  }

  /** Waiting for the flag, or on the way out. */
  predicate Released(pc: Pc) { pc.Spin? || Leaving(pc) }

  /** In every run of any clients: a wait keeps its caller's mutex up to its release, does
      without it from there on, and returns only by taking it while it is free; and the
      owner keeps it, alone, until its own unlock or its own next wait. */
  lemma WaitReturnsWithMutex(tr: seq<State>, events: seq<Event>, i: nat, t: nat, u: nat)
    requires AnyRun(tr, events) && i < |events| && t < |tr[0].threads| && u < |tr[0].threads|
    ensures |tr[i].threads| == |tr[i + 1].threads| == |tr[0].threads|
    ensures Entering(tr[i].threads[t]) ==> tr[i].mutex == Some(t)
    ensures Released(tr[i].threads[t]) ==> tr[i].mutex != Some(t)
    ensures Entering(tr[i].threads[t]) && !Entering(tr[i + 1].threads[t]) ==>
              tr[i + 1].threads[t].Spin? && tr[i + 1].mutex == None
    ensures !Client(tr[i].threads[t]) && Client(tr[i + 1].threads[t]) ==>
              events[i] == Step(t) && tr[i].mutex == None && tr[i + 1].threads[t] == Owner && tr[i + 1].mutex == Some(t)
    ensures tr[i].threads[t] == Owner && events[i] != Unlock(t) && events[i] != StartWait(t) ==>
              tr[i + 1].threads[t] == Owner && tr[i + 1].mutex == Some(t)
    ensures tr[i].threads[t] == Owner && u != t ==> tr[i].threads[u] != Owner && !Entering(tr[i].threads[u])
  {
    AnyRunLocks(tr, events, i);
    AnyRunLocks(tr, events, i + 1);
    assert tr[i + 1] == Apply(tr[i], events[i]);
    MutexMoves(tr[i], events[i], t);
  }

  lemma MutexMoves(s: State, e: Event, t: nat)
    requires Locks(s) && Enabled(s, e) && t < |s.threads|
    ensures
      var p, p', s' := s.threads[t], Apply(s, e).threads[t], Apply(s, e);
      && (Entering(p) && !Entering(p') ==> p'.Spin? && s'.mutex == None)
      && (!Client(p) && Client(p') ==> e == Step(t) && s.mutex == None && p' == Owner)
      && (p == Owner && e != Unlock(t) && e != StartWait(t) ==> p' == Owner)
  {
    if e.t == t { match s.threads[t] case Release => case Relock => case Owner => case _ => }
  }
}
